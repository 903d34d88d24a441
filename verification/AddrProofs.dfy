/** What every run of the address manager keeps, when its peer index is exact, and what a random fetch returns. */
module AddrProofs {
  import opened ChainTypes
  import opened AddrSpec

  // ---------------------------------------------------------------- the peer index

  /** The address names the peer id of the entry stored under its socket address, if there is one. */
  predicate NamesStored(m: ManagerState, a: Multiaddr) {
    var known := Get(m, a);
    known.None? || a.peerId == known.value.addr.peerId
  }

  predicate Replaces(m: ManagerState, info: AddrInfo) {
    var known := Get(m, info.addr);
    known.Some? && info.lastConnected > known.value.lastConnected
  }

  lemma UnlistStale(nextId: nat, peers: Peers, infos: Infos, p: Option<PeerId>, id: nat)
    requires PeersOk(nextId, peers, infos) && id in infos && infos[id].addr.peerId.Some?
    requires AllStored(peers, infos)
    ensures AllStored(Unlist(peers, p, id), infos - {id}) <==> p == infos[id].addr.peerId
  {
    var after := Unlist(peers, p, id);
    var own := infos[id].addr.peerId.value;
    if p == Some(own) {
      forall q, k | q in after && k in after[q]
        ensures k in infos - {id}
      {
        assert k in peers[q];
        assert k == id ==> q == own;
      }
    } else {
      assert own in after && id in after[own];
    }
  }

  /** A removal leaves the peer index exact if and only if it names the stored peer id. */
  lemma RemoveStaleIff(m: ManagerState, a: Multiaddr)
    requires Inv(m) && NoStale(m)
    ensures NoStale(RemoveNext(m, a).0) <==> NamesStored(m, a)
  {
    hide RandomOk, IdsOk, Swap, Unlist, PeersOk, PlainOf;
    if a.socket.Some? && a.socket.value in m.ids {
      var s := a.socket.value;
      StoredEntry(m, s);
      var id, last := m.ids[s], |m.random| - 1;
      var t := Swap(m, m.infos[id].pos, last);
      SwapKeeps(m, m.infos[id].pos, last);
      assert m.infos[id].addr == Bare(m.infos[id]).addr && t.infos[id].addr == Bare(t.infos[id]).addr;
      StoredPeer(m, id);
      UnlistStale(t.nextId, t.peers, t.infos, a.peerId, id);
    }
  }

  lemma StoredPeer(m: ManagerState, id: nat)
    requires Inv(m) && id in m.infos
    ensures m.infos[id].addr.peerId.Some?
  {
  }

  lemma AppendStaleIff(m: ManagerState, info: AddrInfo)
    requires Inv(m) && info.addr.socket.Some? && info.addr.peerId.Some?
    ensures NoStale(Append(m, info)) <==> NoStale(m)
  {
    var t, p := Append(m, info), info.addr.peerId.value;
    if NoStale(t) {
      forall q, k | q in m.peers && k in m.peers[q]
        ensures k in m.infos
      {
        assert k in t.peers[q] && k < m.nextId;
      }
    }
  }

  /** An addition leaves the peer index exact if and only if it replaces nothing or names the stored peer id. */
  lemma AddStaleIff(m: ManagerState, info: AddrInfo)
    requires Inv(m) && NoStale(m)
    ensures NoStale(AddNext(m, info)) <==> !Replaces(m, info) || NamesStored(m, info.addr)
  {
    hide Inv, NoStale, RemoveNext, Append;
    if info.addr.socket.Some? {
      var known := Get(m, info.addr);
      KnownIsPlain(m, info.addr.socket.value);
      if Replaces(m, info) {
        RemoveStaleIff(m, info.addr);
        RemoveKeeps(m, info.addr);
        if info.addr.peerId.Some? {
          AppendStaleIff(RemoveNext(m, info.addr).0, info);
        }
      } else if known.None? && info.addr.peerId.Some? {
        AppendStaleIff(m, info);
      }
    }
  }

  // ---------------------------------------------------------------- shuffling

  lemma SwapPermutes<T>(s: seq<T>, i: nat, j: nat)
    requires i < |s| && j < |s|
    ensures multiset(s[i := s[j]][j := s[i]]) == multiset(s)
  {
  }

  /** One of the places from i on. */
  function Draw(i: nat, c: nat, n: nat): (j: nat)
    requires i < n
    ensures i <= j < n
  {
    i + c % (n - i)
  }

  lemma DrawAny(i: nat, j: nat, n: nat)
    requires i <= j < n
    ensures Draw(i, j - i, n) == j
  {
  }

  /** The swaps of a fetch that visits `|cs|` positions: at position i it picks one of the remaining ones. */
  function Shuffle(m: ManagerState, cs: seq<nat>): (r: ManagerState)
    requires Inv(m) && |cs| <= |m.random|
    ensures Inv(r) && PlainOf(r) == PlainOf(m) && multiset(r.random) == multiset(m.random)
    ensures |r.random| == |m.random| && r.ids == m.ids && r.peers == m.peers && r.nextId == m.nextId
    ensures r.infos.Keys == m.infos.Keys
    decreases |cs|
  {
    if cs == [] then m
    else
      var i := |cs| - 1;
      var t := Shuffle(m, cs[..i]);
      var j := Draw(i, cs[i], |m.random|);
      SwapKeeps(t, j, i);
      SwapPermutes(t.random, j, i);
      Swap(t, j, i)
  }

  // ---------------------------------------------------------------- runs

  datatype Op =
    | AddOp(info: AddrInfo)
    | RemoveOp(a: Multiaddr)
    | MarkOp(a: Multiaddr, mark: Mark)
    | FetchOp(cs: seq<nat>)

  function Next(m: ManagerState, op: Op): ManagerState
    requires Inv(m)
  {
    match op
    case AddOp(info) => AddNext(m, info)
    case RemoveOp(a) => RemoveNext(m, a).0
    case MarkOp(a, mark) => MarkNext(m, a, mark)
    case FetchOp(cs) => Shuffle(m, if |cs| <= |m.random| then cs else cs[..|m.random|])
  }

  function PlainNext(f: Plain, op: Op): Plain {
    match op
    case AddOp(info) => PlainAdd(f, info)
    case RemoveOp(a) => PlainRemove(f, a)
    case MarkOp(a, mark) => PlainMark(f, a, mark)
    case FetchOp(_) => f
  }

  function PlainRun(f: Plain, ops: seq<Op>): Plain {
    if ops == [] then f else PlainNext(PlainRun(f, ops[..|ops| - 1]), ops[|ops| - 1])
  }

  /** The step names the stored peer id wherever it removes or replaces an entry. */
  predicate Names(m: ManagerState, op: Op) {
    match op
    case AddOp(info) => !Replaces(m, info) || NamesStored(m, info.addr)
    case RemoveOp(a) => NamesStored(m, a)
    case _ => true
  }

  lemma NextKeeps(m: ManagerState, op: Op)
    requires Inv(m)
    ensures Inv(Next(m, op)) && PlainOf(Next(m, op)) == PlainNext(PlainOf(m), op)
    ensures NoStale(m) ==> (NoStale(Next(m, op)) <==> Names(m, op))
  {
    hide Inv, NoStale, AddNext, RemoveNext, MarkNext, Shuffle, PlainOf;
    match op
    case AddOp(info) =>
      AddKeeps(m, info);
      if NoStale(m) {
        AddStaleIff(m, info);
      }
    case RemoveOp(a) =>
      RemoveKeeps(m, a);
      if NoStale(m) {
        RemoveStaleIff(m, a);
      }
    case MarkOp(a, mark) =>
      MarkKeeps(m, a, mark);
      MarkStale(m, a, mark);
    case FetchOp(cs) =>
      ShuffleStale(m, if |cs| <= |m.random| then cs else cs[..|m.random|]);
  }

  lemma MarkStale(m: ManagerState, a: Multiaddr, mark: Mark)
    ensures NoStale(MarkNext(m, a, mark)) <==> NoStale(m)
  {
  }

  lemma ShuffleStale(m: ManagerState, cs: seq<nat>)
    requires Inv(m) && |cs| <= |m.random|
    ensures NoStale(Shuffle(m, cs)) <==> NoStale(m)
  {
    hide Inv;
  }

  /** States of a run from an empty manager. */
  ghost predicate IsRun(ms: seq<ManagerState>, ops: seq<Op>) {
    && |ms| == |ops| + 1 && ms[0] == EMPTY
    && forall i :: 0 <= i < |ops| ==> Inv(ms[i]) ==> ms[i + 1] == Next(ms[i], ops[i])
  }

  /** Over every run the indexes agree and the manager is the plain map; as long as every removal and replacement
      names the stored peer id, the peer index is exact. */
  lemma {:induction false} EveryRun(ms: seq<ManagerState>, ops: seq<Op>)
    requires IsRun(ms, ops)
    ensures Inv(ms[|ops|]) && PlainOf(ms[|ops|]) == PlainRun(map[], ops)
    ensures (forall i :: 0 <= i < |ops| ==> Names(ms[i], ops[i])) ==> NoStale(ms[|ops|])
    decreases |ops|
  {
    if ops != [] {
      var n := |ops| - 1;
      hide Inv, NoStale, Next, Names, PlainNext;
      EveryRun(ms[..n + 1], ops[..n]);
      NextKeeps(ms[n], ops[n]);
      assert Inv(ms[n]) ==> ms[n + 1] == Next(ms[n], ops[n]);
    }
  }

  // ---------------------------------------------------------------- which entries are worth a dial

  function MarkAll(i: AddrInfo, marks: seq<Mark>): AddrInfo {
    if marks == [] then i else Marked(MarkAll(i, marks[..|marks| - 1]), marks[|marks| - 1])
  }

  /** Tries since the last connection. */
  function Tries(marks: seq<Mark>): nat {
    if marks == [] then 0
    else match marks[|marks| - 1]
      case Tried(_) => Tries(marks[..|marks| - 1]) + 1
      case Connected(_) => 0
      case Scored(_) => Tries(marks[..|marks| - 1])
  }

  function LastTry(marks: seq<Mark>): nat {
    if marks == [] then 0
    else match marks[|marks| - 1]
      case Tried(at) => at
      case _ => LastTry(marks[..|marks| - 1])
  }

  function LastConnection(marks: seq<Mark>): nat {
    if marks == [] then 0
    else match marks[|marks| - 1]
      case Connected(at) => at
      case _ => LastConnection(marks[..|marks| - 1])
  }

  lemma {:induction false} MarkedHistory(a: Multiaddr, score: int, marks: seq<Mark>)
    ensures
      var i := MarkAll(AddrInfo(a, score, 0, 0, 0, 0), marks);
      && i.addr == a && i.lastTried == LastTry(marks) && i.lastConnected == LastConnection(marks)
      && i.attempts == if Tries(marks) < U32_MAX then Tries(marks) else U32_MAX
  {
    if marks != [] {
      MarkedHistory(a, score, marks[..|marks| - 1]);
    }
  }

  /** Whatever happened to an entry since it was added: it is given up if and only if its last try is over a minute
      old and it was tried three times without ever connecting, or ten times since a connection over a week old. */
  lemma GivenUpIff(a: Multiaddr, score: int, marks: seq<Mark>, now: nat)
    ensures !IsConnectable(MarkAll(AddrInfo(a, score, 0, 0, 0, 0), marks), now) <==>
            && LastTry(marks) + 60_000 < now
            && ((LastConnection(marks) == 0 && Tries(marks) >= 3) ||
                (LastConnection(marks) + 604_800_000 < now && Tries(marks) >= 10))
  {
    MarkedHistory(a, score, marks);
  }

  // ---------------------------------------------------------------- what a fetch returns

  predicate IsLoopback(ip: Ip) {
    match ip
    case V4(o) => o[0] == 127
    case V6(o) => o[15] == 1 && forall i :: 0 <= i < 15 ==> o[i] == 0
  }

  predicate IsUnspecified(ip: Ip) {
    match ip
    case V4(o) => forall i :: 0 <= i < 4 ==> o[i] == 0
    case V6(o) => forall i :: 0 <= i < 16 ==> o[i] == 0
  }

  predicate IsTestIp(ip: Ip) { IsUnspecified(ip) || IsLoopback(ip) }

  ghost predicate Addressed(es: seq<AddrInfo>) {
    forall i :: 0 <= i < |es| ==> es[i].addr.socket.Some?
  }

  function IpOf(e: AddrInfo): Ip
    requires e.addr.socket.Some?
  {
    e.addr.socket.value.ip
  }

  function IpsOf(es: seq<AddrInfo>): set<Ip>
    requires Addressed(es)
  {
    if es == [] then {} else IpsOf(es[..|es| - 1]) + {IpOf(es[|es| - 1])}
  }

  predicate Wanted(e: AddrInfo, filter: AddrInfo -> bool, now: nat) { IsConnectable(e, now) && filter(e) }

  /** Of the visited entries, in order, those that are wanted and whose IP was not visited before. */
  function Picks(es: seq<AddrInfo>, filter: AddrInfo -> bool, now: nat): seq<AddrInfo>
    requires Addressed(es)
  {
    if es == [] then []
    else
      var e, before := es[|es| - 1], es[..|es| - 1];
      if (IsTestIp(IpOf(e)) || IpOf(e) !in IpsOf(before)) && Wanted(e, filter, now)
      then Picks(before, filter, now) + [e] else Picks(before, filter, now)
  }

  /** The entries at the first n places of the shuffled list. */
  function Visited(m: ManagerState, n: nat): (es: seq<AddrInfo>)
    requires Inv(m) && n <= |m.random|
    ensures Addressed(es) && |es| == n
  {
    seq(n, k requires 0 <= k < n => m.infos[m.random[k]])
  }

  lemma {:induction false} IpsOfIff(es: seq<AddrInfo>, ip: Ip)
    requires Addressed(es)
    ensures ip in IpsOf(es) <==> exists i :: 0 <= i < |es| && IpOf(es[i]) == ip
  {
    if es != [] {
      IpsOfIff(es[..|es| - 1], ip);
    }
  }

  /** A later step of the shuffle leaves the entries already visited alone. */
  lemma SwapKeepsVisited(m: ManagerState, i: nat, j: nat)
    requires Inv(m) && i <= j < |m.random|
    ensures Inv(Swap(m, j, i)) && Visited(Swap(m, j, i), i) == Visited(m, i)
  {
    SwapKeeps(m, j, i);
    hide IdsOk, PeersOk;
  }

  lemma {:induction false} PicksFacts(es: seq<AddrInfo>, filter: AddrInfo -> bool, now: nat)
    requires Addressed(es)
    ensures Addressed(Picks(es, filter, now))
    ensures forall e :: e in Picks(es, filter, now) ==> e in es && Wanted(e, filter, now)
    ensures forall e :: e in Picks(es, filter, now) ==> IpOf(e) in IpsOf(es)
  {
    if es != [] {
      var before := es[..|es| - 1];
      PicksFacts(before, filter, now);
      assert es == before + [es[|es| - 1]];
      hide Wanted;
    }
  }

  ghost predicate IpsDiffer(es: seq<AddrInfo>)
    requires Addressed(es)
  {
    forall i, j :: 0 <= i < j < |es| ==> IpOf(es[i]) != IpOf(es[j]) || IsTestIp(IpOf(es[i]))
  }

  lemma {:induction false} PicksDiffer(es: seq<AddrInfo>, filter: AddrInfo -> bool, now: nat)
    requires Addressed(es)
    ensures Addressed(Picks(es, filter, now)) && IpsDiffer(Picks(es, filter, now))
  {
    PicksFacts(es, filter, now);
    if es != [] {
      var before := es[..|es| - 1];
      PicksDiffer(before, filter, now);
      PicksFacts(before, filter, now);
      hide Wanted, IsTestIp;
      var ps := Picks(before, filter, now);
      forall i | 0 <= i < |ps|
        ensures IpOf(ps[i]) in IpsOf(before)
      {
        assert ps[i] in ps;
      }
    }
  }

  /** A wanted entry is left out only if another visited entry shares its IP. */
  lemma {:induction false} PicksComplete(es: seq<AddrInfo>, filter: AddrInfo -> bool, now: nat, k: nat)
    requires Addressed(es) && k < |es| && Wanted(es[k], filter, now)
    requires IsTestIp(IpOf(es[k])) || forall i :: 0 <= i < |es| && i != k ==> IpOf(es[i]) != IpOf(es[k])
    ensures es[k] in Picks(es, filter, now)
  {
    hide Wanted, IsTestIp;
    var before := es[..|es| - 1];
    if k < |before| {
      PicksComplete(before, filter, now, k);
    } else {
      IpsOfIff(before, IpOf(es[k]));
    }
  }

  lemma VisitedDiffer(m: ManagerState, n: nat)
    requires Inv(m) && n <= |m.random|
    ensures SocketsDiffer(Visited(m, n))
    ensures forall i :: 0 <= i < n ==>
              Visited(m, n)[i].addr.socket.value in PlainOf(m) &&
              PlainOf(m)[Visited(m, n)[i].addr.socket.value] == Bare(Visited(m, n)[i])
  {
    hide PeersOk;
    var es := Visited(m, n);
    forall i | 0 <= i < n
      ensures es[i].pos == i && es[i] == m.infos[m.random[i]]
    {
    }
  }

  /** Every stored entry sits somewhere in the list. */
  lemma VisitedAll(m: ManagerState, id: nat)
    requires Inv(m) && id in m.infos
    ensures m.infos[id].pos < |m.random| && Visited(m, |m.random|)[m.infos[id].pos] == m.infos[id]
  {
  }

  ghost predicate SocketsDiffer(es: seq<AddrInfo>) {
    forall i, j :: 0 <= i < j < |es| ==> es[i].addr.socket != es[j].addr.socket
  }

  /** Picking keeps the order, so entries with different sockets stay different. */
  lemma {:induction false} PicksSockets(es: seq<AddrInfo>, filter: AddrInfo -> bool, now: nat)
    requires Addressed(es) && SocketsDiffer(es)
    ensures SocketsDiffer(Picks(es, filter, now))
  {
    if es != [] {
      var before, e := es[..|es| - 1], es[|es| - 1];
      PicksSockets(before, filter, now);
      PicksFacts(before, filter, now);
      hide Wanted, IsTestIp;
      var ps := Picks(before, filter, now);
      forall i | 0 <= i < |ps|
        ensures ps[i].addr.socket != e.addr.socket
      {
        assert ps[i] in ps;
      }
    }
  }

  /** What a fetch that visited n places returns. */
  ghost predicate FetchOk(m: ManagerState, n: nat, filter: AddrInfo -> bool, now: nat, out: seq<AddrInfo>)
    requires Inv(m) && n <= |m.random|
  {
    && Addressed(out) && SocketsDiffer(out) && IpsDiffer(out)
    && (forall e :: e in out ==>
          && Wanted(e, filter, now)
          && e.addr.socket.value in PlainOf(m) && PlainOf(m)[e.addr.socket.value] == Bare(e))
    && (n == |m.random| ==> forall id :: id in m.infos ==> NotMissed(m, id, filter, now, out))
  }

  /** The entry has a test IP, or one that no other entry has. */
  ghost predicate OwnIp(m: ManagerState, id: nat)
    requires id in m.infos && m.infos[id].addr.socket.Some?
  {
    var ip := IpOf(m.infos[id]);
    IsTestIp(ip) || forall k :: k in m.infos && k != id && m.infos[k].addr.socket.Some? ==> IpOf(m.infos[k]) != ip
  }

  /** A wanted entry with an IP of its own is returned. */
  ghost predicate NotMissed(m: ManagerState, id: nat, filter: AddrInfo -> bool, now: nat, out: seq<AddrInfo>)
    requires id in m.infos
  {
    m.infos[id].addr.socket.Some? && Wanted(m.infos[id], filter, now) && OwnIp(m, id) ==> m.infos[id] in out
  }

  lemma NothingMissed(m: ManagerState, id: nat, filter: AddrInfo -> bool, now: nat)
    requires Inv(m) && id in m.infos
    ensures NotMissed(m, id, filter, now, Picks(Visited(m, |m.random|), filter, now))
  {
    hide Wanted, IsTestIp, PeersOk;
    VisitedAll(m, id);
    var es, k, e := Visited(m, |m.random|), m.infos[id].pos, m.infos[id];
    if Wanted(e, filter, now) && OwnIp(m, id) {
      forall i | 0 <= i < |es| && i != k
        ensures es[i] == m.infos[m.random[i]] && m.random[i] in m.infos && m.random[i] != id && es[i].addr.socket.Some?
      {
      }
      PicksComplete(es, filter, now, k);
    }
  }

  /** Random fetch, for every sequence of random choices. */
  lemma FetchIsSound(m: ManagerState, n: nat, filter: AddrInfo -> bool, now: nat)
    requires Inv(m) && n <= |m.random|
    ensures FetchOk(m, n, filter, now, Picks(Visited(m, n), filter, now))
  {
    hide Inv, Wanted, IpsDiffer, Picks, Visited;
    var es := Visited(m, n);
    PicksFacts(es, filter, now);
    PicksDiffer(es, filter, now);
    VisitedDiffer(m, n);
    PicksSockets(es, filter, now);
    if n == |m.random| {
      forall id | id in m.infos
        ensures NotMissed(m, id, filter, now, Picks(es, filter, now))
      {
        NothingMissed(m, id, filter, now);
      }
    }
  }
}

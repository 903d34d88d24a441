/** The peer address manager: entries under unique ids, indexed by socket address, by peer id and by position in
    a shuffled list. */
module AddrSpec {
  import opened ChainTypes
  import opened ByteStrings

  type PeerId = nat

  type Octets4 = o: seq<Byte> | |o| == 4 witness seq(4, _ => 0)
  type Octets16 = o: seq<Byte> | |o| == 16 witness seq(16, _ => 0)

  datatype Ip = V4(v4: Octets4) | V6(v6: Octets16)
  datatype Socket = Socket(ip: Ip, port: nat)
  datatype Multiaddr = Multiaddr(socket: Option<Socket>, peerId: Option<PeerId>, other: nat)

  datatype AddrInfo = AddrInfo(
    addr: Multiaddr, score: int, lastConnected: nat, lastTried: nat, attempts: nat, pos: nat)

  const ADDR_TIMEOUT_MS: nat := 7 * 24 * 3600 * 1000
  const ADDR_MAX_RETRIES: nat := 3
  const ADDR_MAX_FAILURES: nat := 10
  const U32_MAX: nat := 0xFFFFFFFF

  function SaturatingSub(a: nat, b: nat): nat { if a < b then 0 else a - b }

  predicate TriedInLastMinute(i: AddrInfo, now: nat) { i.lastTried >= SaturatingSub(now, 60000) }

  predicate IsConnectable(i: AddrInfo, now: nat) {
    TriedInLastMinute(i, now) ||
    (!(i.lastConnected == 0 && i.attempts >= ADDR_MAX_RETRIES) &&
     !(SaturatingSub(now, i.lastConnected) > ADDR_TIMEOUT_MS && i.attempts >= ADDR_MAX_FAILURES))
  }

  /** What callers do to an entry through `get_mut`. */
  datatype Mark = Tried(at: nat) | Connected(at: nat) | Scored(score: int)

  function Marked(i: AddrInfo, mark: Mark): AddrInfo {
    match mark
    case Tried(at) => i.(lastTried := at, attempts := if i.attempts < U32_MAX then i.attempts + 1 else i.attempts)
    case Connected(at) => i.(lastConnected := at, attempts := 0)
    case Scored(score) => i.(score := score)
  }

  datatype ManagerState = ManagerState(
    nextId: nat, ids: map<Socket, nat>, infos: Infos, peers: Peers, random: seq<nat>)

  const EMPTY := ManagerState(0, map[], map[], map[], [])

  // ---------------------------------------------------------------- the invariant

  type Infos = map<nat, AddrInfo>
  type Peers = map<PeerId, set<nat>>

  /** Socket addresses and stored ids correspond one to one. */
  ghost predicate IdsOk(nextId: nat, ids: map<Socket, nat>, infos: Infos) {
    && (forall s :: s in ids ==> ids[s] in infos && infos[ids[s]].addr.socket == Some(s))
    && (forall id :: id in infos ==>
          && id < nextId && infos[id].addr.socket.Some? && infos[id].addr.peerId.Some?
          && infos[id].addr.socket.value in ids && ids[infos[id].addr.socket.value] == id)
  }

  /** The shuffled list holds every stored id once, at the position the entry remembers. */
  ghost predicate RandomOk(infos: Infos, random: seq<nat>) {
    && (forall k :: 0 <= k < |random| ==> random[k] in infos && infos[random[k]].pos == k)
    && (forall id :: id in infos ==> infos[id].pos < |random| && random[infos[id].pos] == id)
  }

  /** Every stored id is listed under its own peer and, while stored, under no other. */
  ghost predicate PeersOk(nextId: nat, peers: Peers, infos: Infos) {
    && (forall id :: id in infos && infos[id].addr.peerId.Some? ==>
          infos[id].addr.peerId.value in peers && id in peers[infos[id].addr.peerId.value])
    && (forall p, id {:trigger id in peers[p]} :: p in peers && id in peers[p] ==>
          id < nextId && (id in infos ==> infos[id].addr.peerId == Some(p)))
  }

  ghost predicate Inv(m: ManagerState) {
    IdsOk(m.nextId, m.ids, m.infos) && RandomOk(m.infos, m.random) && PeersOk(m.nextId, m.peers, m.infos)
  }

  /** No peer lists an id that is not stored. */
  ghost predicate AllStored(peers: Peers, infos: Infos) {
    forall p, id {:trigger id in peers[p]} :: p in peers && id in peers[p] ==> id in infos
  }

  /** The peer index lists no id that is gone. */
  ghost predicate NoStale(m: ManagerState) { AllStored(m.peers, m.infos) }

  // ---------------------------------------------------------------- operations

  function Get(m: ManagerState, a: Multiaddr): Option<AddrInfo> {
    if a.socket.Some? && a.socket.value in m.ids && m.ids[a.socket.value] in m.infos
    then Some(m.infos[m.ids[a.socket.value]]) else None
  }

  function SwapInfos(infos: Infos, random: seq<nat>, i: nat, j: nat): Infos
    requires i < |random| && j < |random| && random[i] in infos && random[j] in infos
  {
    var first := infos[random[i] := infos[random[i]].(pos := j)];
    first[random[j] := first[random[j]].(pos := i)]
  }

  /** `swap_random_id`. */
  function Swap(m: ManagerState, i: nat, j: nat): ManagerState
    requires i < |m.random| && j < |m.random| && m.random[i] in m.infos && m.random[j] in m.infos
  {
    if i == j then m
    else m.(infos := SwapInfos(m.infos, m.random, i, j), random := m.random[i := m.random[j]][j := m.random[i]])
  }

  function Unlist(peers: Peers, p: Option<PeerId>, id: nat): Peers {
    if p.Some? && p.value in peers then peers[p.value := peers[p.value] - {id}] else peers
  }

  function Enlist(peers: Peers, p: PeerId, id: nat): Peers {
    peers[p := (if p in peers then peers[p] else {}) + {id}]
  }

  function RemoveNext(m: ManagerState, a: Multiaddr): (ManagerState, Option<AddrInfo>)
    requires Inv(m)
  {
    if a.socket.None? || a.socket.value !in m.ids then (m, None)
    else
      var id := m.ids[a.socket.value];
      var last := |m.random| - 1;
      var t := Swap(m, m.infos[id].pos, last);
      (ManagerState(t.nextId, t.ids - {a.socket.value}, t.infos - {id}, Unlist(t.peers, a.peerId, id),
                    t.random[..last]),
       Some(t.infos[id]))
  }

  /** A new entry under a new id. */
  function Append(m: ManagerState, info: AddrInfo): ManagerState
    requires info.addr.socket.Some? && info.addr.peerId.Some?
  {
    ManagerState(m.nextId + 1, m.ids[info.addr.socket.value := m.nextId],
            m.infos[m.nextId := info.(pos := |m.random|)],
            Enlist(m.peers, info.addr.peerId.value, m.nextId), m.random + [m.nextId])
  }

  function AddNext(m: ManagerState, info: AddrInfo): ManagerState
    requires Inv(m)
  {
    if info.addr.socket.None? then m
    else
      var known := Get(m, info.addr);
      if known.Some? && info.lastConnected <= known.value.lastConnected then m
      else
        var t := if known.Some? then RemoveNext(m, info.addr).0 else m;
        if info.addr.peerId.None? then t else Append(t, info)
  }

  function MarkNext(m: ManagerState, a: Multiaddr, mark: Mark): ManagerState {
    var known := Get(m, a);
    if known.None? then m else m.(infos := m.infos[m.ids[a.socket.value] := Marked(known.value, mark)])
  }

  // ---------------------------------------------------------------- the plain map

  type Plain = map<Socket, AddrInfo>

  function Bare(i: AddrInfo): AddrInfo { i.(pos := 0) }

  function PlainMap(ids: map<Socket, nat>, infos: Infos): Plain {
    map s | s in ids && ids[s] in infos :: Bare(infos[ids[s]])
  }

  function PlainOf(m: ManagerState): Plain { PlainMap(m.ids, m.infos) }

  function PlainRemove(f: Plain, a: Multiaddr): Plain {
    if a.socket.Some? then f - {a.socket.value} else f
  }

  /** The later-connected entry is kept; an entry without a peer id is never stored, but displaces an earlier
      one. */
  function PlainAdd(f: Plain, info: AddrInfo): Plain {
    if info.addr.socket.None? then f
    else
      var s := info.addr.socket.value;
      if s in f && info.lastConnected <= f[s].lastConnected then f
      else if info.addr.peerId.None? then f - {s}
      else f[s := Bare(info)]
  }

  function PlainMark(f: Plain, a: Multiaddr, mark: Mark): Plain {
    if a.socket.Some? && a.socket.value in f then f[a.socket.value := Marked(f[a.socket.value], mark)] else f
  }

  // ---------------------------------------------------------------- each operation keeps the invariant

  lemma SwapRandom(infos: Infos, random: seq<nat>, i: nat, j: nat)
    requires RandomOk(infos, random) && i < |random| && j < |random| && i != j
    ensures
      var after := SwapInfos(infos, random, i, j);
      && SameEntries(infos, after)
      && RandomOk(after, random[i := random[j]][j := random[i]])
  {
    assert random[i] != random[j];
  }

  /** Entries that differ only in their positions are the same to the other indexes. */
  ghost predicate SameEntries(a: Infos, b: Infos) {
    a.Keys == b.Keys && forall id :: id in a ==> Bare(a[id]) == Bare(b[id])
  }

  lemma SameEntriesKeep(nextId: nat, ids: map<Socket, nat>, peers: Peers, a: Infos, b: Infos)
    requires SameEntries(a, b)
    ensures IdsOk(nextId, ids, a) ==> IdsOk(nextId, ids, b)
    ensures PeersOk(nextId, peers, a) ==> PeersOk(nextId, peers, b)
    ensures PlainMap(ids, a) == PlainMap(ids, b)
  {
    forall id | id in b
      ensures id in a && a[id].addr == b[id].addr && Bare(a[id]) == Bare(b[id])
    {
      assert a[id].addr == Bare(a[id]).addr && b[id].addr == Bare(b[id]).addr;
    }
  }

  lemma SwapKeeps(m: ManagerState, i: nat, j: nat)
    requires Inv(m) && i < |m.random| && j < |m.random|
    ensures
      var t := Swap(m, i, j);
      && Inv(t) && PlainOf(t) == PlainOf(m)
      && t.ids == m.ids && t.peers == m.peers && t.nextId == m.nextId && SameEntries(m.infos, t.infos)
  {
    if i != j {
      SwapRandom(m.infos, m.random, i, j);
      SameEntriesKeep(m.nextId, m.ids, m.peers, m.infos, SwapInfos(m.infos, m.random, i, j));
      hide SwapInfos, RandomOk, IdsOk, PeersOk, PlainMap;
    }
  }

  /** The entry sits last, so cutting the list removes that entry alone. */
  lemma CutRandom(infos: Infos, random: seq<nat>, id: nat)
    requires RandomOk(infos, random) && id in infos && infos[id].pos == |random| - 1
    ensures RandomOk(infos - {id}, random[..|random| - 1])
  {
  }

  lemma SwapMovesLast(m: ManagerState, id: nat)
    requires Inv(m) && id in m.infos
    ensures
      var last := |m.random| - 1;
      var t := Swap(m, m.infos[id].pos, last);
      |t.random| == |m.random| && t.random[last] == id && t.infos[id].pos == last
  {
    hide IdsOk, PeersOk;
  }

  lemma UnlistPeers(nextId: nat, peers: Peers, infos: Infos, p: Option<PeerId>, id: nat)
    requires PeersOk(nextId, peers, infos)
    ensures PeersOk(nextId, Unlist(peers, p, id), infos - {id})
  {
    var after := Unlist(peers, p, id);
    forall q, k | q in after && k in after[q]
      ensures k in peers[q]
    {
    }
  }

  lemma RemoveIds(nextId: nat, ids: map<Socket, nat>, infos: Infos, s: Socket)
    requires IdsOk(nextId, ids, infos) && s in ids
    ensures IdsOk(nextId, ids - {s}, infos - {ids[s]})
    ensures PlainMap(ids - {s}, infos - {ids[s]}) == PlainMap(ids, infos) - {s}
  {
  }

  lemma RemoveKeeps(m: ManagerState, a: Multiaddr)
    requires Inv(m)
    ensures Inv(RemoveNext(m, a).0) && PlainOf(RemoveNext(m, a).0) == PlainRemove(PlainOf(m), a)
  {
    if a.socket.Some? && a.socket.value in m.ids {
      RemoveStoredKeeps(m, a);
    } else {
      assert a.socket.Some? ==> PlainOf(m) - {a.socket.value} == PlainOf(m);
    }
  }

  lemma StoredEntry(m: ManagerState, s: Socket)
    requires Inv(m) && s in m.ids
    ensures m.ids[s] in m.infos && m.infos[m.ids[s]].pos < |m.random|
    ensures m.random[m.infos[m.ids[s]].pos] in m.infos && m.random[|m.random| - 1] in m.infos
  {
  }

  /** What removing a stored address leaves, once the entry is swapped to the end. */
  function Cut(t: ManagerState, s: Socket, id: nat, p: Option<PeerId>): ManagerState
    requires |t.random| > 0
  {
    ManagerState(t.nextId, t.ids - {s}, t.infos - {id}, Unlist(t.peers, p, id), t.random[..|t.random| - 1])
  }

  lemma CutKeeps(t: ManagerState, s: Socket, id: nat, p: Option<PeerId>)
    requires Inv(t) && s in t.ids && t.ids[s] == id && id in t.infos && t.infos[id].pos == |t.random| - 1
    ensures Inv(Cut(t, s, id, p)) && PlainOf(Cut(t, s, id, p)) == PlainOf(t) - {s}
  {
    hide RandomOk, PeersOk, IdsOk, PlainMap, Unlist;
    CutRandom(t.infos, t.random, id);
    UnlistPeers(t.nextId, t.peers, t.infos, p, id);
    RemoveIds(t.nextId, t.ids, t.infos, s);
  }

  lemma RemoveStoredKeeps(m: ManagerState, a: Multiaddr)
    requires Inv(m) && a.socket.Some? && a.socket.value in m.ids
    ensures Inv(RemoveNext(m, a).0) && PlainOf(RemoveNext(m, a).0) == PlainOf(m) - {a.socket.value}
  {
    hide Inv, Swap, SameEntries, PlainOf;
    var s := a.socket.value;
    StoredEntry(m, s);
    var id, last := m.ids[s], |m.random| - 1;
    SwapKeeps(m, m.infos[id].pos, last);
    SwapMovesLast(m, id);
    SwapStores(m, m.infos[id].pos, last, id);
    CutKeeps(Swap(m, m.infos[id].pos, last), s, id, a.peerId);
  }

  lemma SwapStores(m: ManagerState, i: nat, j: nat, id: nat)
    requires Inv(m) && i < |m.random| && j < |m.random| && id in m.infos
    ensures id in Swap(m, i, j).infos
  {
    SwapKeeps(m, i, j);
  }

  lemma AppendRandom(infos: Infos, random: seq<nat>, id: nat, info: AddrInfo)
    requires RandomOk(infos, random) && id !in infos
    ensures RandomOk(infos[id := info.(pos := |random|)], random + [id])
  {
  }

  lemma AppendIds(nextId: nat, ids: map<Socket, nat>, infos: Infos, info: AddrInfo)
    requires IdsOk(nextId, ids, infos) && info.addr.socket.Some? && info.addr.peerId.Some?
    requires info.addr.socket.value !in ids
    ensures IdsOk(nextId + 1, ids[info.addr.socket.value := nextId], infos[nextId := info])
    ensures PlainMap(ids[info.addr.socket.value := nextId], infos[nextId := info]) ==
            PlainMap(ids, infos)[info.addr.socket.value := Bare(info)]
  {
  }

  lemma EnlistPeers(nextId: nat, peers: Peers, infos: Infos, info: AddrInfo)
    requires PeersOk(nextId, peers, infos) && info.addr.peerId.Some? && nextId !in infos
    ensures PeersOk(nextId + 1, Enlist(peers, info.addr.peerId.value, nextId), infos[nextId := info])
  {
    var p := info.addr.peerId.value;
    var after := Enlist(peers, p, nextId);
    forall q, k | q in after && k in after[q] && !(q == p && k == nextId)
      ensures q in peers && k in peers[q]
    {
    }
  }

  lemma NextIdIsNew(m: ManagerState)
    requires Inv(m)
    ensures m.nextId !in m.infos
  {
  }

  lemma AppendKeeps(m: ManagerState, info: AddrInfo)
    requires Inv(m) && info.addr.socket.Some? && info.addr.peerId.Some? && info.addr.socket.value !in m.ids
    ensures Inv(Append(m, info)) && PlainOf(Append(m, info)) == PlainOf(m)[info.addr.socket.value := Bare(info)]
  {
    hide RandomOk, IdsOk, PeersOk, PlainMap, Enlist;
    var placed := info.(pos := |m.random|);
    NextIdIsNew(m);
    AppendRandom(m.infos, m.random, m.nextId, info);
    AppendIds(m.nextId, m.ids, m.infos, placed);
    EnlistPeers(m.nextId, m.peers, m.infos, placed);
  }

  lemma AddKeeps(m: ManagerState, info: AddrInfo)
    requires Inv(m)
    ensures Inv(AddNext(m, info)) && PlainOf(AddNext(m, info)) == PlainAdd(PlainOf(m), info)
  {
    hide Inv, PlainOf, Append, RemoveNext;
    if info.addr.socket.Some? {
      KnownIsPlain(m, info.addr.socket.value);
      if info.addr.socket.value in m.ids {
        ReplaceKeeps(m, info);
      } else if info.addr.peerId.Some? {
        AppendKeeps(m, info);
      } else {
        assert PlainOf(m) - {info.addr.socket.value} == PlainOf(m);
      }
    }
  }

  lemma KnownIsPlain(m: ManagerState, s: Socket)
    requires Inv(m)
    ensures s in PlainOf(m) <==> s in m.ids
    ensures s in m.ids ==> m.ids[s] in m.infos && PlainOf(m)[s] == Bare(m.infos[m.ids[s]])
  {
  }

  lemma ReplaceKeeps(m: ManagerState, info: AddrInfo)
    requires Inv(m) && info.addr.socket.Some? && info.addr.socket.value in m.ids
    ensures Inv(AddNext(m, info)) && PlainOf(AddNext(m, info)) == PlainAdd(PlainOf(m), info)
  {
    hide RemoveNext, Append, PlainOf, Inv;
    var s := info.addr.socket.value;
    KnownIsPlain(m, s);
    RemoveStoredKeeps(m, info.addr);
    var t := RemoveNext(m, info.addr).0;
    KnownIsPlain(t, s);
    if info.addr.peerId.Some? {
      AppendKeeps(t, info);
    }
    if info.addr.peerId.Some? {
      assert (PlainOf(m) - {s})[s := Bare(info)] == PlainOf(m)[s := Bare(info)];
    }
  }

  lemma MarkInfos(m: ManagerState, id: nat, i: AddrInfo)
    requires Inv(m) && id in m.infos && i.addr == m.infos[id].addr && i.pos == m.infos[id].pos
    ensures m.infos[id].addr.socket.Some?
    ensures Inv(m.(infos := m.infos[id := i]))
    ensures PlainMap(m.ids, m.infos[id := i]) == PlainMap(m.ids, m.infos)[m.infos[id].addr.socket.value := Bare(i)]
  {
    var after := m.infos[id := i];
    assert forall k :: k in after ==>
                         k in m.infos && after[k].addr == m.infos[k].addr && after[k].pos == m.infos[k].pos;
    assert RandomOk(after, m.random);
    forall p, k | p in m.peers && k in m.peers[p]
      ensures k < m.nextId && (k in after ==> after[k].addr.peerId == Some(p))
    {
      assert k in after ==> k in m.infos;
    }
    assert PeersOk(m.nextId, m.peers, after);
    assert IdsOk(m.nextId, m.ids, after);
  }

  lemma MarkKeeps(m: ManagerState, a: Multiaddr, mark: Mark)
    requires Inv(m)
    ensures Inv(MarkNext(m, a, mark)) && PlainOf(MarkNext(m, a, mark)) == PlainMark(PlainOf(m), a, mark)
  {
    hide Inv, PlainMap;
    if a.socket.Some? {
      KnownIsPlain(m, a.socket.value);
    }
    if Get(m, a).Some? {
      var id := m.ids[a.socket.value];
      OwnSocket(m, a.socket.value);
      MarkInfos(m, id, Marked(m.infos[id], mark));
    }
  }

  lemma OwnSocket(m: ManagerState, s: Socket)
    requires Inv(m) && s in m.ids
    ensures m.ids[s] in m.infos && m.infos[m.ids[s]].addr.socket == Some(s)
  {
  }
}

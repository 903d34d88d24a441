/** Making room in the peer store: first entries that cannot be connected, then two from each crowded network. */
module Purge {
  import opened ChainTypes
  import opened ByteStrings
  import opened AddrSpec
  import opened AddrProofs
  import opened AddrManager

  const ADDR_COUNT_LIMIT: nat := 16384

  datatype Group = LocalNetwork | IP4(a: Byte, b: Byte) | IP6(a: Byte, b: Byte, c: Byte, d: Byte)

  predicate HoldsV4(o: Octets16) {
    (forall i :: 0 <= i < 10 ==> o[i] == 0) && ((o[10] == 0 && o[11] == 0) || (o[10] == 255 && o[11] == 255))
  }

  function GroupOf(s: Socket): Group {
    if IsLoopback(s.ip) then LocalNetwork
    else
      match s.ip
      case V4(o) => IP4(o[0], o[1])
      case V6(o) => if HoldsV4(o) then IP4(o[12], o[13]) else IP6(o[0], o[1], o[2], o[3])
  }

  /** The IPv4 address inside an IPv6 one: ten zero bytes, two more or two of all ones, then its four bytes. */
  function Embedded(mapped: bool, o: Octets4): Octets16 {
    seq(10, _ => 0) + (if mapped then [255, 255] else [0, 0]) + o
  }

  /** An address is grouped by the first two bytes of the IPv4 address it is or embeds, other IPv6 addresses by their
      first four, and loopback addresses together. */
  lemma GroupMeans(s: Socket)
    ensures IsLoopback(s.ip) <==> GroupOf(s) == LocalNetwork
    ensures s.ip.V4? && !IsLoopback(s.ip) ==> GroupOf(s) == IP4(s.ip.v4[0], s.ip.v4[1])
    ensures forall mapped, o: Octets4 ::
              s.ip == V6(Embedded(mapped, o)) && !IsLoopback(s.ip) ==> GroupOf(s) == IP4(o[0], o[1])
    ensures s.ip.V6? && !IsLoopback(s.ip) && (forall mapped, o: Octets4 :: s.ip.v6 != Embedded(mapped, o)) ==>
              GroupOf(s) == IP6(s.ip.v6[0], s.ip.v6[1], s.ip.v6[2], s.ip.v6[3])
  {
    if s.ip.V6? && HoldsV4(s.ip.v6) {
      var o := s.ip.v6;
      assert o == Embedded(o[10] == 255, o[12..16]);
    }
  }

  // ---------------------------------------------------------------- what a purge may do

  ghost function InGroup(all: set<Socket>, g: Group): set<Socket> {
    set s | s in all && GroupOf(s) == g
  }

  ghost function Groups(all: set<Socket>): set<Group> {
    set s | s in all :: GroupOf(s)
  }

  ghost predicate AllConnectable(f: Plain, now: nat) {
    forall s :: s in f ==> IsConnectable(f[s], now)
  }

  ghost function ConnectableOnly(f: Plain, now: nat): Plain {
    map s | s in f && IsConnectable(f[s], now) :: f[s]
  }

  /** The groups, each once, larger ones first. */
  ghost predicate Ranked(all: set<Socket>, order: seq<Group>) {
    && NoDup(order) && Elements(order) == Groups(all)
    && forall i, j :: 0 <= i < j < |order| ==> |InGroup(all, order[i])| >= |InGroup(all, order[j])|
  }

  /** Exactly two addresses of each group of more than four among the first `half`, none of any other. */
  ghost predicate Evicted(all: set<Socket>, order: seq<Group>, half: nat, gone: set<Socket>)
    requires half <= |order|
  {
    && gone <= all
    && forall g :: |InGroup(gone, g)| == if g in order[..half] && |InGroup(all, g)| > 4 then 2 else 0
  }

  // ---------------------------------------------------------------- consequences

  lemma SubsetSize<T>(a: set<T>, b: set<T>)
    requires a <= b
    ensures |b - a| == |b| - |a|
  {
    assert b == a + (b - a);
  }

  /** Every group that loses addresses keeps at least three. */
  lemma PurgeIsFair(all: set<Socket>, order: seq<Group>, half: nat, gone: set<Socket>, g: Group)
    requires half <= |order| && Evicted(all, order, half, gone)
    ensures InGroup(gone, g) != {} ==> |InGroup(all - gone, g)| >= 3
    ensures InGroup(gone, g) == {} ==> InGroup(all - gone, g) == InGroup(all, g)
  {
    assert InGroup(all - gone, g) == InGroup(all, g) - InGroup(gone, g);
    assert InGroup(gone, g) <= InGroup(all, g);
    SubsetSize(InGroup(gone, g), InGroup(all, g));
    assert |InGroup(gone, g)| <= 2;
  }

  /** When all entries are connectable, the purge finds nothing exactly when there is at most one group or no
      group has more than four addresses. */
  lemma PurgeFailsIff(all: set<Socket>, order: seq<Group>, gone: set<Socket>)
    requires Ranked(all, order) && Evicted(all, order, |order| / 2, gone)
    ensures gone == {} <==> |Groups(all)| <= 1 || forall g :: |InGroup(all, g)| <= 4
  {
    NoDupSize(order);
    if |order| <= 1 || forall g :: |InGroup(all, g)| <= 4 {
      forall s | s in all
        ensures s !in gone
      {
        assert |InGroup(gone, GroupOf(s))| == 0;
        assert s !in InGroup(gone, GroupOf(s));
      }
    } else {
      var g :| |InGroup(all, g)| > 4;
      var s :| s in InGroup(all, g);
      assert GroupOf(s) in Groups(all);
      assert g in Elements(order);
      var i :| 0 <= i < |order| && order[i] == g;
      assert |InGroup(all, order[0])| > 4;
      assert order[0] in order[..|order| / 2];
      assert |InGroup(gone, order[0])| == 2;
      var t :| t in InGroup(gone, order[0]);
      assert t in gone;
    }
  }

  /** A purge that reports success has made the store smaller. */
  lemma PurgeProgress(f: Plain, gone: set<Socket>)
    requires gone <= f.Keys && gone != {}
    ensures |f - gone| < |f|
  {
    assert (f - gone).Keys == f.Keys - gone;
    SubsetSize(gone, f.Keys);
    var s :| s in gone;
    assert |gone| > 0;
  }

  lemma ConnectableOnlyShrinks(f: Plain, now: nat)
    requires !AllConnectable(f, now)
    ensures |ConnectableOnly(f, now)| < |f|
  {
    var s :| s in f && !IsConnectable(f[s], now);
    var kept := ConnectableOnly(f, now);
    assert kept.Keys <= f.Keys - {s};
    SubsetSize(kept.Keys, f.Keys);
    assert s in f.Keys - kept.Keys;
  }

  /** What a completed `check_purge` may have done to the address map. */
  ghost predicate PurgeStep(f: Plain, now: nat, ok: bool, after: Plain) {
    if |f| < ADDR_COUNT_LIMIT then ok && after == f
    else if !AllConnectable(f, now) then ok && after == ConnectableOnly(f, now)
    else exists order, gone :: PurgeGroups(f, order, gone) && after == f - gone && (ok <==> gone != {})
  }

  ghost predicate PurgeGroups(f: Plain, order: seq<Group>, gone: set<Socket>) {
    Ranked(f.Keys, order) && Evicted(f.Keys, order, |order| / 2, gone)
  }

  /** Progress: above the limit a purge either fails and changes nothing or strictly lowers the count; and it
      fails exactly when every entry is connectable and the groups are too few or too small. */
  lemma PurgeOutcome(f: Plain, now: nat, ok: bool, after: Plain)
    requires PurgeStep(f, now, ok, after)
    ensures !ok ==> after == f
    ensures ok && |f| >= ADDR_COUNT_LIMIT ==> |after| < |f|
    ensures !ok <==> |f| >= ADDR_COUNT_LIMIT && AllConnectable(f, now) &&
                     (|Groups(f.Keys)| <= 1 || forall g :: |InGroup(f.Keys, g)| <= 4)
  {
    if |f| >= ADDR_COUNT_LIMIT {
      if AllConnectable(f, now) {
        var order, gone :| PurgeGroups(f, order, gone) && after == f - gone && (ok <==> gone != {});
        PurgeFailsIff(f.Keys, order, gone);
        if gone != {} {
          PurgeProgress(f, gone);
        }
      } else {
        ConnectableOnlyShrinks(f, now);
      }
    }
  }

  /** The count never rises above the limit or, if it was above already, above what it was. */
  lemma AddKeepsBound(f: Plain, now: nat, ok: bool, purged: Plain, info: AddrInfo)
    requires PurgeStep(f, now, ok, purged)
    ensures |if ok then PlainAdd(purged, info) else purged| <= if |f| > ADDR_COUNT_LIMIT then |f| else ADDR_COUNT_LIMIT
  {
    PurgeOutcome(f, now, ok, purged);
    hide PurgeStep;
    AddOne(purged, info);
  }

  /** An addition, with the map that the purge left in between. */
  datatype Addition = Addition(info: AddrInfo, now: nat, ok: bool, purged: Plain)

  ghost predicate IsAddition(f: Plain, x: Addition, g: Plain) {
    PurgeStep(f, x.now, x.ok, x.purged) && g == if x.ok then PlainAdd(x.purged, x.info) else x.purged
  }

  /** Over every sequence of additions, at whatever times, the count stays within the limit or where it started. */
  lemma {:induction false} AdditionsKeepBound(fs: seq<Plain>, xs: seq<Addition>)
    requires |fs| == |xs| + 1 && forall i :: 0 <= i < |xs| ==> IsAddition(fs[i], xs[i], fs[i + 1])
    ensures |fs[|xs|]| <= if |fs[0]| > ADDR_COUNT_LIMIT then |fs[0]| else ADDR_COUNT_LIMIT
    decreases |xs|
  {
    hide PurgeStep, PlainAdd;
    if xs != [] {
      var last := |xs| - 1;
      AdditionsKeepBound(fs[..|xs|], xs[..last]);
      assert IsAddition(fs[last], xs[last], fs[|xs|]);
      AddKeepsBound(fs[last], xs[last].now, xs[last].ok, xs[last].purged, xs[last].info);
    }
  }

  /** What is added for address a: nothing without a socket address or a peer id or when it is known, else a fresh
      entry. */
  ghost predicate Entered(purged: Plain, a: Multiaddr, score: int, after: Plain) {
    if a.socket.Some? && a.peerId.Some? && a.socket.value !in purged
    then after == purged[a.socket.value := AddrInfo(a, score, 0, 0, 0, 0)]
    else after == purged
  }

  lemma FreshAddition(f: Plain, a: Multiaddr, score: int)
    ensures Entered(f, a, score, PlainAdd(f, AddrInfo(a, score, 0, 0, 0, 0)))
  {
    if a.socket.Some? && a.socket.value !in f {
      assert f - {a.socket.value} == f;
    }
  }

  /** A purge only takes entries away. */
  lemma PurgeTakesAway(f: Plain, now: nat, ok: bool, after: Plain)
    requires PurgeStep(f, now, ok, after)
    ensures forall s :: s in after ==> s in f && after[s] == f[s]
  {
    if |f| >= ADDR_COUNT_LIMIT && AllConnectable(f, now) {
      var order, gone :| PurgeGroups(f, order, gone) && after == f - gone && (ok <==> gone != {});
    }
  }

  lemma AddOne(f: Plain, info: AddrInfo)
    ensures |PlainAdd(f, info)| <= |f| + 1
  {
    if info.addr.socket.Some? {
      var s := info.addr.socket.value;
      SubsetSize(f.Keys * {s}, f.Keys);
      assert (f - {s}).Keys == f.Keys - f.Keys * {s};
      assert f[s := Bare(info)].Keys == f.Keys + {s};
    }
  }

  // ---------------------------------------------------------------- helpers of the object

  ghost function SocketsOf(keys: seq<Multiaddr>): set<Socket> {
    if keys == [] then {}
    else SocketsOf(keys[..|keys| - 1]) +
         (if keys[|keys| - 1].socket.Some? then {keys[|keys| - 1].socket.value} else {})
  }

  lemma SocketsStep(keys: seq<Multiaddr>, a: Multiaddr)
    ensures SocketsOf(keys + [a]) == SocketsOf(keys) + (if a.socket.Some? then {a.socket.value} else {})
  {
    assert (keys + [a])[..|keys|] == keys;
  }

  ghost function EntrySockets(es: seq<AddrInfo>): set<Socket> {
    set e | e in es && e.addr.socket.Some? :: e.addr.socket.value
  }

  lemma EntryStep(es: seq<AddrInfo>, n: nat)
    requires n < |es| && es[n].addr.socket.Some?
    ensures EntrySockets(es[..n + 1]) == EntrySockets(es[..n]) + {es[n].addr.socket.value}
  {
    assert es[..n + 1] == es[..n] + [es[n]];
  }

  /** A listing of all entries in some order. */
  ghost predicate Listing(es: seq<AddrInfo>, f: Plain) {
    && (forall i :: 0 <= i < |es| ==>
          && es[i].addr.socket.Some? && es[i].addr.socket.value in f && f[es[i].addr.socket.value] == Bare(es[i]))
    && (forall i, j :: 0 <= i < j < |es| ==> es[i].addr.socket != es[j].addr.socket)
    && EntrySockets(es) == f.Keys
  }

  lemma PositionDoesNotMatter(e: AddrInfo, now: nat)
    ensures IsConnectable(Bare(e), now) == IsConnectable(e, now)
  {
  }

  lemma NotConnectableSockets(f: Plain, now: nat, gone: set<Socket>)
    requires gone == set s | s in f.Keys && s in f && !IsConnectable(f[s], now)
    ensures f - gone == ConnectableOnly(f, now)
    ensures gone == {} <==> AllConnectable(f, now)
  {
    hide IsConnectable;
    if gone == {} {
      forall s | s in f
        ensures IsConnectable(f[s], now)
      {
        assert s !in gone;
      }
    } else {
      var s :| s in gone;
    }
  }

  type Buckets = map<Group, seq<AddrInfo>>

  /** Each bucket holds the entries of one group, one per address. */
  ghost predicate Bucketed(all: set<Socket>, b: Buckets) {
    && b.Keys == Groups(all)
    && forall g :: g in b ==> BucketOk(all, g, b[g])
  }

  ghost predicate BucketOk(all: set<Socket>, g: Group, v: seq<AddrInfo>) {
    && |v| == |InGroup(all, g)|
    && (forall i :: 0 <= i < |v| ==> v[i].addr.socket.Some? && v[i].addr.socket.value in InGroup(all, g))
    && (forall i, j :: 0 <= i < j < |v| ==> v[i].addr.socket != v[j].addr.socket)
  }

  function Push(b: Buckets, g: Group, e: AddrInfo): Buckets {
    b[g := (if g in b then b[g] else []) + [e]]
  }

  lemma PushGroup(all: set<Socket>, b: Buckets, s: Socket)
    requires Bucketed(all, b) && s !in all
    ensures Groups(all + {s}) == Groups(all) + {GroupOf(s)}
    ensures GroupOf(s) !in b ==> InGroup(all, GroupOf(s)) == {}
    ensures InGroup(all + {s}, GroupOf(s)) == InGroup(all, GroupOf(s)) + {s}
    ensures forall h :: h != GroupOf(s) ==> InGroup(all + {s}, h) == InGroup(all, h)
  {
    hide GroupOf;
    var g := GroupOf(s);
    if g !in b {
      forall t | t in all
        ensures GroupOf(t) != g
      {
        assert GroupOf(t) in Groups(all);
      }
    }
  }

  lemma PushKeeps(all: set<Socket>, b: Buckets, e: AddrInfo)
    requires Bucketed(all, b) && e.addr.socket.Some? && e.addr.socket.value !in all
    ensures Bucketed(all + {e.addr.socket.value}, Push(b, GroupOf(e.addr.socket.value), e))
  {
    hide GroupOf, InGroup, Groups;
    var s := e.addr.socket.value;
    var g := GroupOf(s);
    var more := all + {s};
    PushGroup(all, b, s);
    NotInGroup(all, g, s);
    assert BucketOk(more, g, Push(b, g, e)[g]);
    forall h | h in b && h != g
      ensures BucketOk(more, h, b[h])
    {
      assert InGroup(more, h) == InGroup(all, h);
    }
  }

  lemma NotInGroup(all: set<Socket>, g: Group, s: Socket)
    requires s !in all
    ensures s !in InGroup(all, g)
  {
  }

  lemma EvictNone(all: set<Socket>, order: seq<Group>)
    ensures Evicted(all, order, 0, {})
  {
    forall g
      ensures InGroup({}, g) == {}
    {
    }
  }

  /** Passing over a small group. */
  lemma EvictSkip(all: set<Socket>, order: seq<Group>, n: nat, gone: set<Socket>)
    requires n < |order| && Evicted(all, order, n, gone) && |InGroup(all, order[n])| <= 4
    ensures Evicted(all, order, n + 1, gone)
  {
    assert order[..n + 1] == order[..n] + [order[n]];
  }

  /** Taking two different addresses of a crowded group. */
  lemma EvictTwo(all: set<Socket>, order: seq<Group>, n: nat, gone: set<Socket>, s: Socket, t: Socket)
    requires n < |order| && NoDup(order) && Evicted(all, order, n, gone) && |InGroup(all, order[n])| > 4
    requires s != t && s in InGroup(all, order[n]) && t in InGroup(all, order[n])
    ensures Evicted(all, order, n + 1, gone + {s} + {t})
  {
    var more := gone + {s} + {t};
    assert order[..n + 1] == order[..n] + [order[n]];
    assert order[n] !in order[..n];
    forall g
      ensures InGroup(more, g) == if g == order[n] then {s, t} else InGroup(gone, g)
    {
      if g == order[n] {
        assert InGroup(gone, g) == {};
      }
    }
  }

  lemma BySizeIsRanked(all: set<Socket>, b: Buckets, order: seq<Group>)
    requires Bucketed(all, b) && NoDup(order) && Elements(order) == b.Keys
    requires forall i :: 0 <= i < |order| ==> order[i] in b
    requires forall i, j :: 0 <= i < j < |order| ==> |b[order[j]]| <= |b[order[i]]|
    ensures Ranked(all, order)
  {
    hide InGroup, Groups;
    forall i | 0 <= i < |order|
      ensures |b[order[i]]| == |InGroup(all, order[i])|
    {
      assert BucketOk(all, order[i], b[order[i]]);
    }
  }

  lemma LargestExists(rest: set<Group>, b: Buckets) returns (g: Group)
    requires rest != {} && rest <= b.Keys
    ensures g in rest && forall h :: h in rest ==> |b[h]| <= |b[g]|
    decreases rest
  {
    g :| g in rest;
    if rest != {g} {
      var other := LargestExists(rest - {g}, b);
      if |b[other]| > |b[g]| {
        g := other;
      }
    }
  }

  // ---------------------------------------------------------------- the object

  class PeerStore {
    const manager: Manager

    constructor (manager: Manager)
      ensures this.manager == manager
    {
      this.manager := manager;
    }

    /** All entries, in no particular order. */
    method AddrsIter() returns (es: seq<AddrInfo>)
      requires Inv(manager.State())
      ensures Listing(es, PlainOf(manager.State()))
    {
      hide RandomOk, PeersOk;
      es := [];
      var rest := manager.ids.Keys;
      while rest != {}
        invariant rest <= manager.ids.Keys && EntrySockets(es) == manager.ids.Keys - rest
        invariant forall i :: 0 <= i < |es| ==>
                    && es[i].addr.socket.Some? && es[i].addr.socket.value in manager.ids
                    && es[i] == manager.infos[manager.ids[es[i].addr.socket.value]]
                    && es[i].addr.socket.value !in rest
        invariant forall i, j :: 0 <= i < j < |es| ==> es[i].addr.socket != es[j].addr.socket
        decreases rest
      {
        var s :| s in rest;
        var e := manager.infos[manager.ids[s]];
        assert (es + [e])[..|es|] == es;
        es := es + [e];
        EntryStep(es, |es| - 1);
        assert es[..|es|] == es;
        rest := rest - {s};
      }
      assert PlainOf(manager.State()).Keys == manager.ids.Keys;
    }

    method RemoveAll(keys: seq<Multiaddr>)
      requires Inv(manager.State())
      modifies manager
      ensures Inv(manager.State())
      ensures PlainOf(manager.State()) == old(PlainOf(manager.State())) - SocketsOf(keys)
    {
      hide Inv, PlainOf;
      ghost var f := PlainOf(manager.State());
      for i := 0 to |keys|
        invariant Inv(manager.State()) && PlainOf(manager.State()) == f - SocketsOf(keys[..i])
      {
        SocketsStep(keys[..i], keys[i]);
        assert keys[..i + 1] == keys[..i] + [keys[i]];
        var _ := manager.Remove(keys[i]);
      }
      assert keys[..|keys|] == keys;
    }

    method NotConnectable(es: seq<AddrInfo>, ghost f: Plain, now: nat) returns (keys: seq<Multiaddr>)
      requires Listing(es, f)
      ensures f - SocketsOf(keys) == ConnectableOnly(f, now)
      ensures keys == [] <==> AllConnectable(f, now)
    {
      hide IsConnectable;
      keys := [];
      for i := 0 to |es|
        invariant SocketsOf(keys) == set s | s in EntrySockets(es[..i]) && s in f && !IsConnectable(f[s], now)
        invariant keys == [] <==> SocketsOf(keys) == {}
      {
        EntryStep(es, i);
        PositionDoesNotMatter(es[i], now);
        if !IsConnectable(es[i], now) {
          SocketsStep(keys, es[i].addr);
          keys := keys + [es[i].addr];
        }
      }
      assert es[..|es|] == es;
      NotConnectableSockets(f, now, SocketsOf(keys));
    }

    method GroupEntries(es: seq<AddrInfo>, ghost f: Plain) returns (b: Buckets)
      requires Listing(es, f)
      ensures Bucketed(f.Keys, b)
    {
      b := map[];
      for i := 0 to |es|
        invariant Bucketed(EntrySockets(es[..i]), b)
      {
        EntryStep(es, i);
        PushKeeps(EntrySockets(es[..i]), b, es[i]);
        b := Push(b, GroupOf(es[i].addr.socket.value), es[i]);
      }
      assert es[..|es|] == es;
    }

    /** The groups by falling size; groups of equal size come in any order. */
    method Rank(b: Buckets, ghost all: set<Socket>) returns (order: seq<Group>)
      requires Bucketed(all, b)
      ensures Ranked(all, order) && Elements(order) == b.Keys
    {
      hide Bucketed, Ranked;
      order := [];
      var rest := b.Keys;
      while rest != {}
        invariant rest <= b.Keys && Elements(order) == b.Keys - rest && NoDup(order)
        invariant forall i :: 0 <= i < |order| ==> order[i] in b
        invariant forall i, h :: 0 <= i < |order| && h in rest ==> |b[h]| <= |b[order[i]]|
        invariant forall i, j :: 0 <= i < j < |order| ==> |b[order[j]]| <= |b[order[i]]|
        decreases rest
      {
        ghost var largest := LargestExists(rest, b);
        var g :| g in rest && forall h :: h in rest ==> |b[h]| <= |b[g]|;
        assert g !in Elements(order);
        assert Elements(order + [g]) == Elements(order) + {g};
        order := order + [g];
        rest := rest - {g};
      }
      BySizeIsRanked(all, b, order);
    }

    method ChooseCrowded(b: Buckets, order: seq<Group>, ghost all: set<Socket>) returns (keys: seq<Multiaddr>)
      requires Bucketed(all, b) && Ranked(all, order) && Elements(order) == b.Keys
      ensures Evicted(all, order, |order| / 2, SocketsOf(keys))
      ensures keys == [] <==> SocketsOf(keys) == {}
    {
      keys := [];
      EvictNone(all, order);
      for n := 0 to |order| / 2
        invariant Evicted(all, order, n, SocketsOf(keys))
        invariant keys == [] <==> SocketsOf(keys) == {}
      {
        assert order[n] in Elements(order);
        var v := b[order[n]];
        if |v| > 4 {
          var i, j :| 0 <= i < |v| && 0 <= j < |v| && i != j;
          EvictTwo(all, order, n, SocketsOf(keys), v[i].addr.socket.value, v[j].addr.socket.value);
          SocketsStep(keys, v[i].addr);
          SocketsStep(keys + [v[i].addr], v[j].addr);
          keys := keys + [v[i].addr] + [v[j].addr];
        } else {
          EvictSkip(all, order, n, SocketsOf(keys));
        }
      }
    }

    method CheckPurge(now: nat) returns (ok: bool)
      requires Inv(manager.State())
      modifies manager
      ensures Inv(manager.State())
      ensures PurgeStep(old(PlainOf(manager.State())), now, ok, PlainOf(manager.State()))
    {
      hide Inv, PlainOf, Evicted, Ranked, AllConnectable, ConnectableOnly;
      ghost var f := PlainOf(manager.State());
      var count := manager.Count();
      if count < ADDR_COUNT_LIMIT {
        return true;
      }
      var es := AddrsIter();
      var candidates := NotConnectable(es, f, now);
      RemoveAll(candidates);
      if candidates == [] {
        assert f - SocketsOf(candidates) == f;
        es := AddrsIter();
        var b := GroupEntries(es, f);
        var order := Rank(b, f.Keys);
        var crowded := ChooseCrowded(b, order, f.Keys);
        assert PurgeGroups(f, order, SocketsOf(crowded));
        RemoveAll(crowded);
        if crowded == [] {
          return false;
        }
      }
      return true;
    }

    /** `banned` says whether the ban list covers the address. */
    method AddAddr(a: Multiaddr, banned: bool, score: int, now: nat) returns (ok: bool)
      requires Inv(manager.State())
      modifies manager
      ensures Inv(manager.State())
      ensures banned ==> ok && manager.State() == old(manager.State())
      ensures !ok ==> PlainOf(manager.State()) == old(PlainOf(manager.State()))
      ensures !banned ==> exists purged ::
                && PurgeStep(old(PlainOf(manager.State())), now, ok, purged)
                && if ok then Entered(purged, a, score, PlainOf(manager.State()))
                   else PlainOf(manager.State()) == purged
      ensures !banned && ok && a.socket.Some? && a.peerId.Some? ==>
                && a.socket.value in PlainOf(manager.State())
                && (a.socket.value !in old(PlainOf(manager.State())) ==>
                      PlainOf(manager.State())[a.socket.value] == AddrInfo(a, score, 0, 0, 0, 0))
      ensures forall s :: s in PlainOf(manager.State()) && Some(s) != a.socket ==>
                && s in old(PlainOf(manager.State()))
                && PlainOf(manager.State())[s] == old(PlainOf(manager.State()))[s]
      ensures
        var before := |old(PlainOf(manager.State()))|;
        |PlainOf(manager.State())| <= if before > ADDR_COUNT_LIMIT then before else ADDR_COUNT_LIMIT
    {
      hide Inv, PlainOf, PurgeStep, PlainAdd;
      if banned {
        return true;
      }
      ghost var f := PlainOf(manager.State());
      ok := CheckPurge(now);
      ghost var purged := PlainOf(manager.State());
      var info := AddrInfo(a, score, 0, 0, 0, 0);
      PurgeOutcome(f, now, ok, purged);
      PurgeTakesAway(f, now, ok, purged);
      FreshAddition(purged, a, score);
      AddKeepsBound(f, now, ok, purged, info);
      if ok {
        manager.Add(info);
      }
    }
  }
}

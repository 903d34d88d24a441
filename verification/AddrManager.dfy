/** The address manager as an object: four indexes updated in place. */
module AddrManager {
  import opened ChainTypes
  import opened AddrSpec
  import opened AddrProofs

  class Manager {
    var nextId: nat
    var ids: map<Socket, nat>
    var infos: Infos
    var peers: Peers
    var random: seq<nat>

    constructor ()
      ensures State() == EMPTY && Inv(State()) && NoStale(State())
    {
      nextId, ids, infos, peers, random := 0, map[], map[], map[], [];
    }

    function State(): ManagerState
      reads this
    {
      ManagerState(nextId, ids, infos, peers, random)
    }

    /** The count of addresses. */
    method Count() returns (n: nat)
      requires Inv(State())
      ensures n == |PlainOf(State())|
    {
      assert PlainOf(State()).Keys == ids.Keys;
      return |ids|;
    }

    method SwapRandomId(i: nat, j: nat)
      requires Inv(State()) && i < |random| && j < |random|
      modifies this`infos, this`random
      ensures State() == Swap(old(State()), i, j)
    {
      if i == j {
        return;
      }
      infos := infos[random[i] := infos[random[i]].(pos := j)];
      infos := infos[random[j] := infos[random[j]].(pos := i)];
      random := random[i := random[j]][j := random[i]];
    }

    method Remove(a: Multiaddr) returns (r: Option<AddrInfo>)
      requires Inv(State())
      modifies this
      ensures (State(), r) == RemoveNext(old(State()), a)
      ensures Inv(State()) && PlainOf(State()) == PlainRemove(old(PlainOf(State())), a)
    {
      hide Inv, PlainOf, Swap, Unlist, SameEntries, PlainRemove;
      ghost var m := State();
      RemoveKeeps(m, a);
      if a.socket.None? || a.socket.value !in ids {
        return None;
      }
      StoredEntry(m, a.socket.value);
      var id := ids[a.socket.value];
      SwapStores(m, infos[id].pos, |random| - 1, id);
      SwapMovesLast(m, id);
      SwapRandomId(infos[id].pos, |random| - 1);
      ids := ids - {a.socket.value};
      random := random[..|random| - 1];
      peers := Unlist(peers, a.peerId, id);
      r := Some(infos[id]);
      infos := infos - {id};
    }

    method Add(info: AddrInfo)
      requires Inv(State())
      modifies this
      ensures State() == AddNext(old(State()), info)
      ensures Inv(State()) && PlainOf(State()) == PlainAdd(old(PlainOf(State())), info)
    {
      hide Inv, PlainOf, RemoveNext, PlainAdd, PlainRemove, Enlist;
      ghost var m := State();
      AddKeeps(m, info);
      if info.addr.socket.None? {
        return;
      }
      var known := Get(State(), info.addr);
      if known.Some? {
        if info.lastConnected > known.value.lastConnected {
          var _ := Remove(info.addr);
        } else {
          return;
        }
      }
      if info.addr.peerId.Some? {
        Push(info);
      }
    }

    /** Enters a new entry into all indexes. */
    method Push(info: AddrInfo)
      requires info.addr.socket.Some? && info.addr.peerId.Some?
      modifies this
      ensures State() == Append(old(State()), info)
    {
      var id := nextId;
      ids := ids[info.addr.socket.value := id];
      infos := infos[id := info.(pos := |random|)];
      peers := Enlist(peers, info.addr.peerId.value, id);
      random := random + [id];
      nextId := nextId + 1;
    }

    /** `get_mut` followed by one of the updates its callers make. */
    method MarkEntry(a: Multiaddr, mark: Mark)
      requires Inv(State())
      modifies this`infos
      ensures State() == MarkNext(old(State()), a, mark)
      ensures Inv(State()) && PlainOf(State()) == PlainMark(old(PlainOf(State())), a, mark)
    {
      MarkKeeps(State(), a, mark);
      hide Inv, PlainOf;
      var known := Get(State(), a);
      if known.Some? {
        infos := infos[ids[a.socket.value] := Marked(known.value, mark)];
      }
    }

    /** `None` where an indexed id has no entry and the lookup panics. */
    method GetByPeerId(p: PeerId, filter: AddrInfo -> bool, now: nat) returns (r: Option<set<Multiaddr>>)
      requires Inv(State())
      ensures r.None? <==> p in peers && !(peers[p] <= infos.Keys)
      ensures NoStale(State()) ==> r.Some?
      ensures r.Some? ==> forall a :: a in r.value <==>
                exists id :: id in infos && infos[id].addr == a && a.peerId == Some(p) && Wanted(infos[id], filter, now)
    {
      hide Wanted, RandomOk, IdsOk;
      var list := {};
      if p !in peers {
        return Some(list);
      }
      var rest := peers[p];
      ghost var done: set<nat> := {};
      while rest != {}
        invariant done + rest == peers[p] && done <= infos.Keys
        invariant forall a :: a in list <==>
                    exists id :: id in done && infos[id].addr == a && Wanted(infos[id], filter, now)
        decreases rest
      {
        var id :| id in rest;
        rest := rest - {id};
        if id !in infos {
          return None;
        }
        done := done + {id};
        if Wanted(infos[id], filter, now) {
          list := list + {infos[id].addr};
        }
      }
      assert done == peers[p];
      return Some(list);
    }

    method FetchRandom(count: nat, filter: AddrInfo -> bool, now: nat) returns (out: seq<AddrInfo>, ghost cs: seq<nat>)
      requires Inv(State())
      modifies this`infos, this`random
      ensures |cs| <= |old(random)| && State() == Shuffle(old(State()), cs)
      ensures Inv(State()) && |cs| <= |random| && out == Picks(Visited(State(), |cs|), filter, now)
      ensures |cs| == |random| || |out| == count
      ensures count >= 1 ==> |out| <= count
    {
      hide Inv, Shuffle, IsTestIp, IsConnectable, Picks, IpsOf, Visited, Swap, Addressed;
      var ips: set<Ip> := {};
      out, cs := [], [];
      ghost var m := State();
      NoShuffle(m);
      NothingVisited(m, filter, now);
      for i := 0 to |random|
        invariant |random| == |m.random| && |cs| == i && State() == Shuffle(m, cs)
        invariant out == Picks(Visited(State(), i), filter, now) && ips == IpsOf(Visited(State(), i))
        invariant count >= 1 ==> |out| < count
      {
        var j :| i <= j < |random|;
        SwapKeepsVisited(State(), i, j);
        ShuffleStep(m, cs, j);
        SwapRandomId(j, i);
        cs := cs + [j - i];
        VisitedStep(State(), i, filter, now);
        var info := infos[random[i]];
        var ip := info.addr.socket.value.ip;
        var isUnique := ip !in ips;
        ips := ips + {ip};
        if (IsTestIp(ip) || isUnique) && IsConnectable(info, now) && filter(info) {
          out := out + [info];
        }
        if |out| == count {
          return;
        }
      }
    }
  }

  lemma ShuffleStep(m: ManagerState, cs: seq<nat>, j: nat)
    requires Inv(m) && |cs| <= j < |m.random|
    ensures Inv(Shuffle(m, cs)) && Shuffle(m, cs + [j - |cs|]) == Swap(Shuffle(m, cs), j, |cs|)
  {
    hide Swap, Inv, PlainOf, Draw;
    DrawAny(|cs|, j, |m.random|);
    ListedIsStored(Shuffle(m, cs), j);
    ListedIsStored(Shuffle(m, cs), |cs|);
    var more := cs + [j - |cs|];
    assert more[..|cs|] == cs;
  }

  lemma ListedIsStored(m: ManagerState, i: nat)
    requires Inv(m) && i < |m.random|
    ensures m.random[i] in m.infos
  {
  }

  lemma NoShuffle(m: ManagerState)
    requires Inv(m)
    ensures Shuffle(m, []) == m
  {
  }

  lemma NothingVisited(m: ManagerState, filter: AddrInfo -> bool, now: nat)
    requires Inv(m)
    ensures Picks(Visited(m, 0), filter, now) == [] && IpsOf(Visited(m, 0)) == {}
  {
  }

  /** What one more visited place adds. */
  lemma VisitedStep(m: ManagerState, i: nat, filter: AddrInfo -> bool, now: nat)
    requires Inv(m) && i < |m.random|
    ensures m.random[i] in m.infos && m.infos[m.random[i]].addr.socket.Some?
    ensures
      var e, before := m.infos[m.random[i]], Visited(m, i);
      && IpsOf(Visited(m, i + 1)) == IpsOf(before) + {IpOf(e)}
      && Picks(Visited(m, i + 1), filter, now) ==
         if (IsTestIp(IpOf(e)) || IpOf(e) !in IpsOf(before)) && IsConnectable(e, now) && filter(e)
         then Picks(before, filter, now) + [e] else Picks(before, filter, now)
  {
    hide IsTestIp, IsConnectable, RandomOk, PeersOk;
    ListedIsStored(m, i);
    assert Visited(m, i + 1)[..i] == Visited(m, i) && Visited(m, i + 1)[i] == m.infos[m.random[i]];
  }
}

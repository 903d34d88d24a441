/** The priority pool as an object. Iteration orders of the concurrent maps and of the heap, which the source
    leaves open, are parameters. */
module PoolObject {
  import opened ChainTypes
  import opened PoolSpec
  import opened PoolProofs

  class PriorityPool {
    const capacity: nat
    var sysData: map<Hash, Bytes>
    var sysBuckets: map<Bytes, map<Hash, Tx>>
    var occupied: SlotMap
    var coQueue: seq<nat>
    var realQueue: seq<nat>
    var txMap: map<Hash, Tx>
    var mem: seq<TxDigest>
    ghost var refused: bool

    constructor (capacity: nat)
      ensures State() == EmptyPool(capacity)
    {
      this.capacity := capacity;
      sysData, sysBuckets, occupied, coQueue, realQueue := map[], map[], map[], [], [];
      txMap, mem, refused := map[], [], false;
    }

    ghost function State(): PoolState
      reads this
    {
      PoolState(capacity, sysData, sysBuckets, occupied, coQueue, realQueue, txMap, mem, refused)
    }

    method Occupy(p: nat)
      requires p < |mem| && SlotsOk(State())
      modifies this`occupied, this`mem
      ensures State() == OccupyNonce(old(State()), p)
    {
      var d := mem[p];
      var slots: map<nat, nat> := if d.sender in occupied then occupied[d.sender] else map[];
      occupied := occupied[d.sender := slots[d.nonce := p]];
      if d.nonce in slots {
        assert HasSlot(old(occupied), d.sender, d.nonce);
        mem := SetDropped(mem, slots[d.nonce]);
      }
    }

    method Insert(tx: Tx) returns (ok: bool)
      requires SlotsOk(State())
      modifies this
      ensures (State(), ok) == InsertNext(old(State()), tx)
    {
      if |txMap| > capacity {
        return false;
      }
      var p := |mem|;
      mem := mem + [DigestOf(tx)];
      if |coQueue| < capacity {
        coQueue := coQueue + [p];
      } else {
        refused := true;
      }
      Occupy(p);
      txMap := txMap[tx.hash := tx];
      return true;
    }

    method InsertSystemScriptTx(tx: Tx)
      modifies this`sysData, this`sysBuckets
      ensures State() == InsertSystemNext(old(State()), tx)
    {
      sysData := sysData[tx.hash := tx.data];
      var bucket: map<Hash, Tx> := if tx.data in sysBuckets then sysBuckets[tx.data] else map[];
      sysBuckets := sysBuckets[tx.data := bucket[tx.hash := tx]];
    }

    /** `pop_all_item` into the heap: as many pops as the queue was long. */
    method Drain()
      modifies this`coQueue, this`realQueue
      ensures State() == DrainNext(old(State()))
    {
      var len := |coQueue|;
      for i := 0 to len
        invariant |coQueue| == len - i
        invariant coQueue == old(coQueue)[i..] && realQueue == old(realQueue) + old(coQueue)[..i]
      {
        var p := coQueue[0];
        coQueue := coQueue[1..];
        realQueue := realQueue + [p];
      }
      assert old(coQueue)[..len] == old(coQueue);
    }

    method FirstKey(bucket: map<Hash, Tx>) returns (h: Hash)
      requires bucket.Keys != {}
      ensures IsFirst(bucket, h)
    {
      h :| h in bucket.Keys;
      var rest := bucket.Keys;
      while rest != {}
        invariant rest <= bucket.Keys && h in bucket
        invariant forall k :: k in bucket && k !in rest ==> h <= k
        decreases rest
      {
        var k :| k in rest;
        if k < h { h := k; }
        rest := rest - {k};
      }
    }

    /** `SystemScriptTxBucket::package`: the first hash of every bucket. */
    method PackageSystem(buckets: seq<Bytes>, ghost txOf: Hash -> Tx) returns (hashes: seq<Hash>)
      requires SysOk(txOf, State()) && ListsBuckets(State(), buckets)
      ensures |hashes| == |buckets|
      ensures forall i :: 0 <= i < |buckets| ==> buckets[i] in sysBuckets && IsFirst(sysBuckets[buckets[i]], hashes[i])
    {
      hashes := [];
      for i := 0 to |buckets|
        invariant |hashes| == i
        invariant forall j :: 0 <= j < i ==> buckets[j] in sysBuckets && IsFirst(sysBuckets[buckets[j]], hashes[j])
      {
        assert buckets[i] in buckets;
        var h := FirstKey(sysBuckets[buckets[i]]);
        hashes := hashes + [h];
      }
    }

    method PickLive(order: seq<nat>, limit: nat) returns (taken: seq<nat>)
      requires Allocated(mem, order)
      ensures taken == Pick(mem, order, limit)
    {
      hide Pick;
      taken := [];
      var i := 0;
      assert order[0..] == order;
      while i < |order| && |taken| < limit
        invariant 0 <= i <= |order| && |taken| <= limit
        invariant Pick(mem, order, limit) == taken + Pick(mem, order[i..], limit - |taken|)
      {
        var room := limit - |taken|;
        PickStep(mem, order, i, room);
        if !mem[order[i]].isDropped {
          assert taken + ([order[i]] + Pick(mem, order[i + 1..], room - 1)) ==
                 taken + [order[i]] + Pick(mem, order[i + 1..], room - 1);
          taken := taken + [order[i]];
        }
        i := i + 1;
      }
      PickDone(mem, order, i, limit - |taken|);
      assert taken + [] == taken;
    }

    /** System hashes first, one per bucket, then the live pointers of the heap. */
    method Package(limit: nat, order: seq<nat>, buckets: seq<Bytes>,
        ghost txOf: Hash -> Tx) returns (system: seq<Hash>, picked: seq<Hash>)
      requires Inv(txOf, State())
      requires ListsHeap(DrainNext(State()), order) && ListsBuckets(State(), buckets)
      modifies this`coQueue, this`realQueue
      ensures State() == DrainNext(old(State())) && Inv(txOf, State())
      ensures |system| == |buckets|
      ensures forall i :: 0 <= i < |buckets| ==> buckets[i] in sysBuckets && IsFirst(sysBuckets[buckets[i]], system[i])
      ensures Allocated(mem, Pick(mem, order, limit)) && picked == HashesOf(mem, Pick(mem, order, limit))
    {
      system := PackageSystem(buckets, txOf);
      DrainKeepsInv(txOf, State());
      if coQueue != [] {
        Drain();
      }
      assert old(realQueue) + [] == old(realQueue);
      var taken := PickLive(order, limit);
      PickSound(mem, order, limit);
      picked := HashesOf(mem, taken);
    }

    method GetByHash(h: Hash) returns (r: Option<Tx>)
      ensures r == PoolSpec.GetByHash(State(), h)
    {
      if h in txMap { return Some(txMap[h]); }
      if h in sysData {
        if sysData[h] in sysBuckets && h in sysBuckets[sysData[h]] {
          return Some(sysBuckets[sysData[h]][h]);
        }
      }
      return None;
    }

    method Contains(h: Hash) returns (r: bool)
      ensures r == PoolSpec.Contains(State(), h)
    {
      if h in txMap { return true; }
      if h in sysData && sysData[h] in sysBuckets { return h in sysBuckets[sysData[h]]; }
      return false;
    }

    /** The live pointers of a sender are all of the sender's slots. */
    method GetTxCountByAddress(a: Address) returns (count: nat)
      requires SlotsOk(State())
      ensures count == |Slots(State(), a)|
    {
      count := 0;
      if a in occupied {
        var rest := occupied[a].Keys;
        while rest != {}
          invariant rest <= occupied[a].Keys && count == |occupied[a].Keys| - |rest|
          decreases rest
        {
          var n :| n in rest;
          assert HasSlot(occupied, a, n);
          if !mem[occupied[a][n]].isDropped {
            count := count + 1;
          }
          rest := rest - {n};
        }
        assert |occupied[a]| == |occupied[a].Keys|;
      }
    }

    method RemoveCommitted(hashes: seq<Hash>)
      modifies this`txMap
      ensures forall h :: h in txMap <==> h in old(txMap) && h !in hashes
      ensures forall h :: h in txMap ==> txMap[h] == old(txMap)[h]
    {
      for i := 0 to |hashes|
        invariant forall h :: h in txMap <==> h in old(txMap) && h !in hashes[..i]
        invariant forall h :: h in txMap ==> txMap[h] == old(txMap)[h]
      {
        txMap := txMap - {hashes[i]};
      }
      assert hashes[..|hashes|] == hashes;
    }

    method RemoveDropped(drained: seq<nat>)
      requires Allocated(mem, drained)
      modifies this`txMap
      ensures forall h :: h in txMap <==> h in old(txMap) && !HasDropped(mem, drained, h)
      ensures forall h :: h in txMap ==> txMap[h] == old(txMap)[h]
    {
      for i := 0 to |drained|
        invariant forall h :: h in txMap <==> h in old(txMap) && !HasDropped(mem, drained[..i], h)
        invariant forall h :: h in txMap ==> txMap[h] == old(txMap)[h]
      {
        HasDroppedStep(mem, drained, i);
        if mem[drained[i]].isDropped {
          txMap := txMap - {mem[drained[i]].hash};
        }
      }
      assert drained[..|drained|] == drained;
    }

    method RetainChecked(check: Tx -> bool)
      modifies this`txMap
      ensures forall h :: h in txMap <==> h in old(txMap) && check(old(txMap)[h])
      ensures forall h :: h in txMap ==> txMap[h] == old(txMap)[h]
    {
      var rest := txMap.Keys;
      while rest != {}
        invariant rest <= old(txMap).Keys
        invariant forall h :: h in txMap <==> h in old(txMap) && (h in rest || check(old(txMap)[h]))
        invariant forall h :: h in txMap ==> txMap[h] == old(txMap)[h]
        decreases rest
      {
        var h :| h in rest;
        if !check(txMap[h]) {
          txMap := txMap - {h};
        }
        rest := rest - {h};
      }
    }

    /** `get_residual`: committed hashes out, hashes with a dropped queued pointer out, then the nonce check. */
    method GetResidual(hashes: seq<Hash>, check: Tx -> bool)
      requires QueuesOk(State())
      modifies this`txMap, this`coQueue, this`realQueue
      ensures txMap == Residual(old(State()), hashes, check) && coQueue == [] && realQueue == []
    {
      RemoveCommitted(hashes);
      var drained := realQueue + coQueue;
      coQueue, realQueue := [], [];
      DrainedDropped(old(State()), drained);
      RemoveDropped(drained);
      RetainChecked(check);
    }

    method FlushSystem(hashes: seq<Hash>)
      modifies this`sysData, this`sysBuckets
      ensures sysData == FlushedData(old(sysData), hashes)
      ensures sysBuckets == FlushedBuckets(old(sysData), old(sysBuckets), hashes)
    {
      for i := 0 to |hashes|
        invariant sysData == FlushedData(old(sysData), hashes[..i])
        invariant sysBuckets == FlushedBuckets(old(sysData), old(sysBuckets), hashes[..i])
      {
        var h := hashes[i];
        SystemFlushStep(old(sysData), old(sysBuckets), hashes, i);
        if h in sysData {
          sysBuckets := sysBuckets - {sysData[h]};
          sysData := sysData - {h};
        }
      }
      assert hashes[..|hashes|] == hashes;
    }

    method RequeueTx(tx: Tx)
      requires SlotsOk(State())
      modifies this`mem, this`occupied, this`realQueue
      ensures State() == Requeue(old(State()), tx)
    {
      var p := |mem|;
      mem := mem + [DigestOf(tx)];
      assert SlotsOk(State());
      Occupy(p);
      realQueue := realQueue + [p];
    }

    method Flush(hashes: seq<Hash>, check: Tx -> bool, order: seq<Tx>)
      requires QueuesOk(State()) && ListsTxs(Residual(State(), hashes, check), order)
      modifies this
      ensures State() == FlushNext(old(State()), hashes, check, order)
    {
      hide Residual, FlushedData, FlushedBuckets, Requeue, SlotsOk, ListsTxs;
      GetResidual(hashes, check);
      occupied := map[];
      FlushSystem(hashes);
      refused := false;
      ghost var c := Cleared(old(State()), hashes, check);
      assert State() == c;
      for i := 0 to |order|
        invariant State() == RequeueAll(c, order[..i])
      {
        assert order[..i + 1][..i] == order[..i];
        RequeueAllRefills(c, order[..i]);
        RequeueTx(order[i]);
      }
      assert order[..|order|] == order;
    }
  }

  lemma PickDone(mem: seq<TxDigest>, order: seq<nat>, i: nat, room: nat)
    requires Allocated(mem, order) && i <= |order| && (i == |order| || room == 0)
    ensures Pick(mem, order[i..], room) == []
  {
  }

  ghost predicate HasDropped(mem: seq<TxDigest>, ps: seq<nat>, h: Hash)
    requires Allocated(mem, ps)
  {
    exists j :: 0 <= j < |ps| && mem[ps[j]].isDropped && mem[ps[j]].hash == h
  }

  lemma HasDroppedStep(mem: seq<TxDigest>, ps: seq<nat>, i: nat)
    requires Allocated(mem, ps) && i < |ps|
    ensures forall h :: HasDropped(mem, ps[..i + 1], h) <==>
              HasDropped(mem, ps[..i], h) || (mem[ps[i]].isDropped && mem[ps[i]].hash == h)
  {
    forall h
      ensures HasDropped(mem, ps[..i + 1], h) <==>
              HasDropped(mem, ps[..i], h) || (mem[ps[i]].isDropped && mem[ps[i]].hash == h)
    {
      if HasDropped(mem, ps[..i], h) {
        var j :| 0 <= j < i && mem[ps[..i][j]].isDropped && mem[ps[..i][j]].hash == h;
        assert ps[..i + 1][j] == ps[..i][j];
      }
      if mem[ps[i]].isDropped && mem[ps[i]].hash == h {
        assert ps[..i + 1][i] == ps[i];
      }
    }
  }

  /** The drained pointers are the queued ones. */
  lemma DrainedDropped(s: PoolState, drained: seq<nat>)
    requires QueuesOk(s) && drained == s.realQueue + s.coQueue
    ensures Allocated(s.mem, drained)
    ensures forall h :: DroppedQueued(s, h) <==> HasDropped(s.mem, drained, h)
  {
    forall h
      ensures DroppedQueued(s, h) <==> HasDropped(s.mem, drained, h)
    {
      if DroppedQueued(s, h) {
        var p: nat :| InQueue(s, p) && p < |s.mem| && s.mem[p].isDropped && s.mem[p].hash == h;
        assert p in drained;
      }
      if HasDropped(s.mem, drained, h) {
        var j :| 0 <= j < |drained| && s.mem[drained[j]].isDropped && s.mem[drained[j]].hash == h;
        assert InQueue(s, drained[j]);
      }
    }
  }

  /** One more flushed hash takes out its own entry and its bucket. */
  lemma SystemFlushStep(data: DataMap, buckets: BucketMap, hashes: seq<Hash>, i: nat)
    requires i < |hashes|
    ensures
      var h := hashes[i];
      var d, b := FlushedData(data, hashes[..i]), FlushedBuckets(data, buckets, hashes[..i]);
      && FlushedData(data, hashes[..i + 1]) == d - {h}
      && FlushedBuckets(data, buckets, hashes[..i + 1]) == (if h in d then b - {d[h]} else b)
  {
    var h := hashes[i];
    var seen, more := hashes[..i], hashes[..i + 1];
    assert more == seen + [h];
    forall d
      ensures BucketHit(data, more, d) <==> BucketHit(data, seen, d) || (h in data && data[h] == d)
    {
      if h in data && data[h] == d {
        assert h in more;
      }
      if BucketHit(data, seen, d) {
        var k :| k in seen && k in data && data[k] == d;
        assert k in more;
      }
    }
    if h in data && h in seen {
      assert BucketHit(data, seen, data[h]);
    }
  }
}

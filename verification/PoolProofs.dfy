/** What every pool operation keeps, what flush and package produce. */
module PoolProofs {
  import opened ChainTypes
  import opened PoolSpec

  // ---------------------------------------------------------------- occupying a slot

  /** Pointer p holds slot (a0, n0) in t; other slots are as in s; exactly the displaced pointer is marked. */
  ghost predicate SlotTaken(s: PoolState, t: PoolState, a0: Address, n0: nat, p: nat) {
    && Occupies(t.occupied, a0, n0, p)
    && (forall a, n :: HasSlot(t.occupied, a, n) && (a != a0 || n != n0) ==>
          HasSlot(s.occupied, a, n) && t.occupied[a][n] == s.occupied[a][n])
    && (forall a, n :: HasSlot(s.occupied, a, n) ==> HasSlot(t.occupied, a, n))
    && |s.mem| <= |t.mem|
    && (forall q :: 0 <= q < |s.mem| ==>
          t.mem[q] == s.mem[q].(isDropped := s.mem[q].isDropped || Occupies(s.occupied, a0, n0, q)))
  }

  lemma OccupyTakesSlot(s: PoolState, p: nat)
    requires SlotsOk(s) && p < |s.mem|
    ensures SlotTaken(s, OccupyNonce(s, p), s.mem[p].sender, s.mem[p].nonce, p)
    ensures |OccupyNonce(s, p).mem| == |s.mem|
  {
    var a0, n0 := s.mem[p].sender, s.mem[p].nonce;
    if HasSlot(s.occupied, a0, n0) {
      assert s.occupied[a0][n0] < |s.mem|;
    }
  }

  /** A slot taken by a fresh live pointer of that sender and nonce leaves all slots in order. */
  lemma SlotTakenOk(s: PoolState, t: PoolState, a0: Address, n0: nat, p: nat)
    requires SlotsOk(s) && SlotTaken(s, t, a0, n0, p) && |s.mem| <= p < |t.mem|
    requires !t.mem[p].isDropped && t.mem[p].sender == a0 && t.mem[p].nonce == n0
    ensures SlotsOk(t)
  {
    forall a, n | HasSlot(t.occupied, a, n)
      ensures var q := t.occupied[a][n];
              q < |t.mem| && !t.mem[q].isDropped && t.mem[q].sender == a && t.mem[q].nonce == n
    {
      if a != a0 || n != n0 {
        var q := s.occupied[a][n];
        assert !Occupies(s.occupied, a0, n0, q);
      }
    }
  }

  /** Allocating a transaction's digest and taking its slot. */
  lemma FreshPointer(s: PoolState, u: PoolState, tx: Tx)
    requires SlotsOk(s) && u.occupied == s.occupied && u.mem == s.mem + [DigestOf(tx)]
    ensures
      var p := |s.mem|;
      var t := OccupyNonce(u, p);
      SlotTaken(s, t, tx.sender, tx.nonce, p) && SlotsOk(t) && |t.mem| == p + 1 && t.mem[p] == DigestOf(tx)
  {
    var p := |s.mem|;
    assert SlotsOk(u);
    OccupyTakesSlot(u, p);
    var t := OccupyNonce(u, p);
    assert !Occupies(s.occupied, tx.sender, tx.nonce, p);
    assert SlotTaken(s, t, tx.sender, tx.nonce, p);
    SlotTakenOk(s, t, tx.sender, tx.nonce, p);
  }

  lemma OccupyFields(s: PoolState, p: nat)
    requires p < |s.mem|
    ensures
      var t := OccupyNonce(s, p);
      && t.coQueue == s.coQueue && t.realQueue == s.realQueue && t.txMap == s.txMap && t.refused == s.refused
      && t.sysData == s.sysData && t.sysBuckets == s.sysBuckets && t.capacity == s.capacity
  {
  }

  /** What an accepted insertion does to the fields. */
  ghost predicate Added(s: PoolState, tx: Tx, t: PoolState) {
    && SlotTaken(s, t, tx.sender, tx.nonce, |s.mem|) && SlotsOk(t)
    && |t.mem| == |s.mem| + 1 && t.mem[|s.mem|] == DigestOf(tx)
    && t.coQueue == (if |s.coQueue| < s.capacity then s.coQueue + [|s.mem|] else s.coQueue)
    && t.realQueue == s.realQueue && t.txMap == s.txMap[tx.hash := tx]
    && t.sysData == s.sysData && t.sysBuckets == s.sysBuckets
    && t.refused == (s.refused || |s.coQueue| >= s.capacity)
  }

  lemma InsertAdds(s: PoolState, tx: Tx)
    requires SlotsOk(s) && !ReachLimit(s)
    ensures Added(s, tx, InsertNext(s, tx).0)
  {
    hide OccupyNonce, SlotTaken, SlotsOk;
    var u := PushQueue(Alloc(s, tx), |s.mem|);
    FreshPointer(s, u, tx);
    OccupyFields(u, |s.mem|);
    SameSlotTaken(s, OccupyNonce(u, |s.mem|), InsertNext(s, tx).0, tx.sender, tx.nonce, |s.mem|);
  }

  /** Only slots and memory matter. */
  lemma SameSlotTaken(s: PoolState, t: PoolState, u: PoolState, a: Address, n: nat, p: nat)
    requires t.occupied == u.occupied && t.mem == u.mem
    ensures SlotTaken(s, t, a, n, p) == SlotTaken(s, u, a, n, p) && SlotsOk(t) == SlotsOk(u)
  {
  }

  /** An insertion is accepted exactly up to one transaction above the capacity. The transaction is then found by its
      hash and its pointer, live, holds its slot and is queued if there is room; other hashes are found as before. */
  lemma InsertFound(s: PoolState, tx: Tx)
    requires SlotsOk(s)
    ensures
      var (t, ok) := InsertNext(s, tx);
      && (ok <==> |s.txMap| <= s.capacity) && (!ok ==> t == s)
      && (ok ==>
            && GetByHash(t, tx.hash) == Some(tx) && Contains(t, tx.hash)
            && (forall h :: h != tx.hash ==> GetByHash(t, h) == GetByHash(s, h))
            && (exists p: nat :: p < |t.mem| && Occupies(t.occupied, tx.sender, tx.nonce, p)
                  && t.mem[p] == TxDigest(tx.hash, tx.gasPrice, tx.nonce, tx.sender, false)
                  && (|s.coQueue| < s.capacity ==> InQueue(t, p)))
            && |t.txMap| <= s.capacity + 1)
  {
    if !ReachLimit(s) {
      InsertAdds(s, tx);
      var t := InsertNext(s, tx).0;
      hide InsertNext, SlotTaken;
      TakenSlot(s, t, tx.sender, tx.nonce, |s.mem|);
      assert |s.coQueue| < s.capacity ==> t.coQueue[|s.coQueue|] == |s.mem|;
      assert t.txMap.Keys == s.txMap.Keys + {tx.hash};
    }
  }

  lemma TakenSlot(s: PoolState, t: PoolState, a: Address, n: nat, p: nat)
    requires SlotTaken(s, t, a, n, p)
    ensures Occupies(t.occupied, a, n, p)
  {
  }

  /** A system transaction is found by its hash; other hashes are found as before. */
  lemma SystemInsertFound(s: PoolState, tx: Tx)
    ensures
      var t := InsertSystemNext(s, tx);
      && SysLookup(t, tx.hash) == Some(tx) && Contains(t, tx.hash)
      && (forall h :: h != tx.hash ==> SysLookup(t, h) == SysLookup(s, h))
      && (forall h :: h != tx.hash || h in s.txMap ==> GetByHash(t, h) == GetByHash(s, h))
  {
  }

  lemma AddedLinks(txOf: Hash -> Tx, s: PoolState, tx: Tx, t: PoolState)
    requires MemOk(txOf, s) && LinksOk(s) && Genuine(txOf, tx) && Added(s, tx, t)
    ensures LinksOk(t) && MemOk(txOf, t)
  {
    var p := |s.mem|;
    forall q: nat | InQueue(t, q) && q < |t.mem|
      ensures t.mem[q].hash in t.txMap
      ensures !t.mem[q].isDropped ==> Occupies(t.occupied, t.mem[q].sender, t.mem[q].nonce, q)
    {
      if q != p {
        assert InQueue(s, q);
        if !t.mem[q].isDropped {
          assert Occupies(s.occupied, s.mem[q].sender, s.mem[q].nonce, q);
        }
      }
    }
  }

  lemma AddedQueues(s: PoolState, tx: Tx, t: PoolState)
    requires QueuesOk(s) && Queued(s) && Added(s, tx, t)
    ensures QueuesOk(t) && Queued(t)
  {
    var p := |s.mem|;
    forall a, n | HasSlot(t.occupied, a, n) && !t.refused
      ensures InQueue(t, t.occupied[a][n])
    {
      if a != tx.sender || n != tx.nonce {
        assert InQueue(s, s.occupied[a][n]);
      } else {
        assert t.coQueue[|s.coQueue|] == p;
      }
    }
    assert p !in s.coQueue && p !in s.realQueue;
    NoDupConcat(s.coQueue, [p]);
  }

  lemma InsertKeepsInv(txOf: Hash -> Tx, s: PoolState, tx: Tx)
    requires Inv(txOf, s) && Genuine(txOf, tx)
    ensures Inv(txOf, InsertNext(s, tx).0)
  {
    if !ReachLimit(s) {
      InsertAdds(s, tx);
      hide InsertNext, MemOk, QueuesOk, LinksOk, Queued, SlotsOk, SlotTaken;
      AddedLinks(txOf, s, tx, InsertNext(s, tx).0);
      AddedQueues(s, tx, InsertNext(s, tx).0);
    }
  }

  lemma InsertSystemKeepsInv(txOf: Hash -> Tx, s: PoolState, tx: Tx)
    requires Inv(txOf, s) && Genuine(txOf, tx)
    ensures Inv(txOf, InsertSystemNext(s, tx))
  {
    var t := InsertSystemNext(s, tx);
    assert tx.hash in t.sysBuckets[tx.data];
  }

  lemma DrainKeepsInv(txOf: Hash -> Tx, s: PoolState)
    requires Inv(txOf, s)
    ensures Inv(txOf, DrainNext(s))
  {
    var t := DrainNext(s);
    NoDupConcat(s.realQueue, s.coQueue);
    assert forall p :: InQueue(t, p) <==> InQueue(s, p);
  }

  // ---------------------------------------------------------------- flush

  /** t is c, emptied, with one fresh pointer per transaction of the list in the heap. */
  ghost predicate Refilled(c: PoolState, txs: seq<Tx>, t: PoolState) {
    && |t.mem| == |c.mem| + |txs| && |t.realQueue| == |txs| && t.coQueue == []
    && (forall i :: 0 <= i < |txs| ==> t.realQueue[i] == |c.mem| + i)
    && (forall q :: 0 <= q < |c.mem| ==> t.mem[q] == c.mem[q])
    && (forall q :: |c.mem| <= q < |t.mem| ==>
          t.mem[q] == DigestOf(txs[q - |c.mem|]).(isDropped := t.mem[q].isDropped))
    && SlotsOk(t)
    && (forall a, n :: HasSlot(t.occupied, a, n) ==> t.occupied[a][n] >= |c.mem|)
    && (forall q :: |c.mem| <= q < |t.mem| && !t.mem[q].isDropped ==>
          Occupies(t.occupied, t.mem[q].sender, t.mem[q].nonce, q))
    && t.txMap == c.txMap && t.sysData == c.sysData && t.sysBuckets == c.sysBuckets && t.refused == c.refused
  }

  ghost predicate Emptied(c: PoolState) {
    c.occupied == map[] && c.coQueue == [] && c.realQueue == []
  }

  lemma RequeueRefills(c: PoolState, txs: seq<Tx>, m: PoolState, tx: Tx)
    requires Refilled(c, txs, m)
    ensures Refilled(c, txs + [tx], Requeue(m, tx))
  {
    hide OccupyNonce, SlotsOk, HasSlot;
    var u, p := Alloc(m, tx), |m.mem|;
    FreshPointer(m, u, tx);
    OccupyFields(u, p);
    var t := Requeue(m, tx);
    SlotsFrame(OccupyNonce(u, p), t);
    forall q | |c.mem| <= q < |t.mem| && !t.mem[q].isDropped
      ensures Occupies(t.occupied, t.mem[q].sender, t.mem[q].nonce, q)
    {
      if q != p {
        assert Occupies(m.occupied, m.mem[q].sender, m.mem[q].nonce, q);
      }
    }
  }

  lemma SlotsFrame(s: PoolState, t: PoolState)
    requires SlotsOk(s) && t.occupied == s.occupied && t.mem == s.mem
    ensures SlotsOk(t)
  {
  }

  lemma {:induction false} RequeueAllRefills(c: PoolState, txs: seq<Tx>)
    requires Emptied(c)
    ensures Refilled(c, txs, RequeueAll(c, txs))
  {
    if txs != [] {
      var front := txs[..|txs| - 1];
      RequeueAllRefills(c, front);
      RequeueRefills(c, front, RequeueAll(c, front), txs[|txs| - 1]);
      assert front + [txs[|txs| - 1]] == txs;
    }
  }

  lemma RefilledLinks(txOf: Hash -> Tx, c: PoolState, txs: seq<Tx>, t: PoolState)
    requires Refilled(c, txs, t) && MemOk(txOf, c) && MapOk(txOf, c) && ListsTxs(c.txMap, txs)
    ensures MemOk(txOf, t) && LinksOk(t) && QueuesOk(t) && Queued(t) && MapOk(txOf, t)
  {
    forall q: nat | InQueue(t, q) && q < |t.mem|
      ensures t.mem[q].hash in t.txMap
      ensures !t.mem[q].isDropped ==> Occupies(t.occupied, t.mem[q].sender, t.mem[q].nonce, q)
    {
      assert |c.mem| <= q;
      assert txs[q - |c.mem|].hash in c.txMap;
    }
    forall q | 0 <= q < |t.mem|
      ensures t.mem[q] == DigestOf(txOf(t.mem[q].hash)).(isDropped := t.mem[q].isDropped)
    {
      if q >= |c.mem| {
        assert txs[q - |c.mem|].hash in c.txMap;
      }
    }
    forall a, n | HasSlot(t.occupied, a, n)
      ensures InQueue(t, t.occupied[a][n])
    {
      var q := t.occupied[a][n];
      assert t.realQueue[q - |c.mem|] == q;
    }
  }

  lemma FlushKeepsInv(txOf: Hash -> Tx, s: PoolState, hashes: seq<Hash>, check: Tx -> bool, order: seq<Tx>)
    requires Inv(txOf, s) && ListsTxs(Residual(s, hashes, check), order)
    ensures Inv(txOf, FlushNext(s, hashes, check, order))
  {
    var c := Cleared(s, hashes, check);
    RequeueAllRefills(c, order);
    RefilledLinks(txOf, c, order, FlushNext(s, hashes, check, order));
    hide RequeueAll, MemOk, LinksOk, QueuesOk, Queued, MapOk, SlotsOk;
    var t := FlushNext(s, hashes, check, order);
    forall d, h | d in t.sysBuckets && h in t.sysBuckets[d]
      ensures h in t.sysData && t.sysData[h] == d
    {
      assert h in s.sysBuckets[d] && h in s.sysData && s.sysData[h] == d;
      assert !BucketHit(s.sysData, hashes, d);
    }
  }

  /** Exactly these transactions survive a flush: not committed, still passing the nonce check, and with no
      dropped pointer of their hash in either queue. */
  lemma FlushSurvivors(s: PoolState, hashes: seq<Hash>, check: Tx -> bool, order: seq<Tx>, h: Hash)
    ensures
      var t := FlushNext(s, hashes, check, order);
      && (h in t.txMap <==>
            h in s.txMap && h !in hashes && check(s.txMap[h]) &&
            !(exists p: nat :: InQueue(s, p) && p < |s.mem| && s.mem[p].isDropped && s.mem[p].hash == h))
      && (h in t.txMap ==> t.txMap[h] == s.txMap[h])
  {
    var c := Cleared(s, hashes, check);
    RequeueAllRefills(c, order);
    hide RequeueAll, FlushNext;
    assert FlushNext(s, hashes, check, order).txMap == Residual(s, hashes, check);
  }

  /** After a flush the bounded queue is empty and the heap holds one fresh pointer per surviving transaction,
      also for those the bounded queue had refused. */
  lemma FlushRefillsHeap(s: PoolState, hashes: seq<Hash>, check: Tx -> bool, order: seq<Tx>)
    requires ListsTxs(Residual(s, hashes, check), order)
    ensures
      var t := FlushNext(s, hashes, check, order);
      && t.coQueue == [] && |t.realQueue| == |t.txMap| && Allocated(t.mem, t.realQueue) && !t.refused
      && NoDup(HashesOf(t.mem, t.realQueue))
      && (forall h :: h in t.txMap <==> h in HashesOf(t.mem, t.realQueue))
      && (forall p :: p in t.realQueue ==> p >= |s.mem|)
  {
    hide RequeueAll, Refilled, Residual, ListsTxs, HashesOf, Allocated;
    var c := Cleared(s, hashes, check);
    RequeueAllRefills(c, order);
    RefilledHeap(c, order, FlushNext(s, hashes, check, order));
  }

  lemma RefilledHeap(c: PoolState, order: seq<Tx>, t: PoolState)
    requires Refilled(c, order, t) && ListsTxs(c.txMap, order)
    ensures t.coQueue == [] && |t.realQueue| == |t.txMap| && Allocated(t.mem, t.realQueue) && t.refused == c.refused
    ensures NoDup(HashesOf(t.mem, t.realQueue))
    ensures forall h :: h in t.txMap <==> h in HashesOf(t.mem, t.realQueue)
    ensures forall p :: p in t.realQueue ==> p >= |c.mem|
  {
    hide SlotsOk, Occupies, HasSlot;
    ListingSize(c.txMap, order);
    assert HashesOf(t.mem, t.realQueue) == Hashes(order);
    forall h | h in Hashes(order)
      ensures h in t.txMap
    {
      var i :| 0 <= i < |order| && Hashes(order)[i] == h;
      assert order[i].hash in c.txMap;
    }
  }

  /** A flush removes exactly the system buckets that a flushed hash mapped to. */
  lemma FlushBuckets(s: PoolState, hashes: seq<Hash>, check: Tx -> bool, order: seq<Tx>, d: Bytes)
    ensures
      var t := FlushNext(s, hashes, check, order);
      && (d in t.sysBuckets <==>
            d in s.sysBuckets && !(exists h :: h in hashes && h in s.sysData && s.sysData[h] == d))
      && (d in t.sysBuckets ==> t.sysBuckets[d] == s.sysBuckets[d])
  {
    RequeueAllRefills(Cleared(s, hashes, check), order);
    hide RequeueAll, FlushNext;
    assert FlushNext(s, hashes, check, order).sysBuckets == FlushedBuckets(s.sysData, s.sysBuckets, hashes);
  }

  /** A listing has one entry per key. */
  lemma {:induction false} ListingSize(m: map<Hash, Tx>, order: seq<Tx>)
    requires ListsTxs(m, order)
    ensures |order| == |m|
    decreases |order|
  {
    if order == [] {
      assert forall h :: h in m ==> h in Hashes(order);
      assert m.Keys == {};
    } else {
      var last := |order| - 1;
      var h, rest := order[last].hash, order[..last];
      assert ListsTxs(m - {h}, rest) by {
        assert Hashes(rest) == Hashes(order)[..last];
        forall k | k in m - {h} ensures k in Hashes(rest) {
          var i :| 0 <= i < |order| && Hashes(order)[i] == k;
          assert Hashes(rest)[i] == k;
        }
        forall i | 0 <= i < |rest| ensures rest[i].hash in m - {h} {
          assert Hashes(order)[i] != Hashes(order)[last];
        }
      }
      ListingSize(m - {h}, rest);
      assert (m - {h}).Keys == m.Keys - {h};
      assert |m| == |m.Keys|;
    }
  }

  /** A committed hash is gone from the pool for good. */
  lemma FlushedAreGone(txOf: Hash -> Tx, s: PoolState, hashes: seq<Hash>, check: Tx -> bool, order: seq<Tx>, h: Hash)
    requires Inv(txOf, s) && ListsTxs(Residual(s, hashes, check), order) && h in hashes
    ensures
      var t := FlushNext(s, hashes, check, order);
      && !Contains(t, h) && GetByHash(t, h).None?
      && forall d :: d in t.sysBuckets ==> h !in t.sysBuckets[d]
  {
    var c, t := Cleared(s, hashes, check), FlushNext(s, hashes, check, order);
    RequeueAllRefills(c, order);
    FlushKeepsInv(txOf, s, hashes, check, order);
    hide RequeueAll, FlushNext, Residual;
    assert t.txMap == Residual(s, hashes, check);
    ResidualExcludes(s, hashes, check, h);
  }

  lemma ResidualExcludes(s: PoolState, hashes: seq<Hash>, check: Tx -> bool, h: Hash)
    requires h in hashes
    ensures h !in Residual(s, hashes, check)
  {
  }

  // ---------------------------------------------------------------- package

  /** Some order of the heap's pointers. */
  ghost predicate ListsHeap(s: PoolState, order: seq<nat>) {
    NoDup(order) && (forall p :: p in order <==> p in s.realQueue) && Allocated(s.mem, order)
  }

  lemma {:induction false} PickSound(mem: seq<TxDigest>, order: seq<nat>, limit: nat)
    requires Allocated(mem, order) && NoDup(order)
    ensures
      var picked := Pick(mem, order, limit);
      && |picked| <= limit && |picked| <= |order| && NoDup(picked) && Allocated(mem, picked)
      && (forall p :: p in picked ==> p in order && p < |mem| && !mem[p].isDropped)
    decreases |order|
  {
    if order != [] && limit > 0 {
      var rest := order[1..];
      PickSound(mem, rest, limit);
      PickSound(mem, rest, limit - 1);
      if !mem[order[0]].isDropped {
        var tail := Pick(mem, rest, limit - 1);
        assert order[0] !in rest;
        NoDupConcat([order[0]], tail);
      }
    }
  }

  /** One step of the traversal from index i, with `room` places left. */
  lemma PickStep(mem: seq<TxDigest>, order: seq<nat>, i: nat, room: nat)
    requires Allocated(mem, order) && i < |order| && room > 0
    ensures Pick(mem, order[i..], room) ==
            if mem[order[i]].isDropped then Pick(mem, order[i + 1..], room)
            else [order[i]] + Pick(mem, order[i + 1..], room - 1)
  {
    assert order[i..][1..] == order[i + 1..];
  }

  lemma {:induction false} PickComplete(mem: seq<TxDigest>, order: seq<nat>, limit: nat, p: nat)
    requires Allocated(mem, order) && limit >= |order| && p in order && p < |mem| && !mem[p].isDropped
    ensures p in Pick(mem, order, limit)
    decreases |order|
  {
    if p != order[0] {
      PickComplete(mem, order[1..], limit - 1, p);
      if mem[order[0]].isDropped {
        PickComplete(mem, order[1..], limit, p);
      }
    }
  }

  /** What `package` hands out resolves, stays within the limit and has one entry per sender and nonce. */
  lemma PackageSound(txOf: Hash -> Tx, s: PoolState, order: seq<nat>, limit: nat)
    requires Inv(txOf, s) && s.coQueue == [] && ListsHeap(s, order)
    ensures Allocated(s.mem, Pick(s.mem, order, limit))
    ensures
      var hashes := HashesOf(s.mem, Pick(s.mem, order, limit));
      && |hashes| <= limit
      && (forall i :: 0 <= i < |hashes| ==> hashes[i] in s.txMap && GetByHash(s, hashes[i]) == Some(s.txMap[hashes[i]]))
      && (forall i, j :: 0 <= i < j < |hashes| ==>
            s.txMap[hashes[i]].sender != s.txMap[hashes[j]].sender ||
            s.txMap[hashes[i]].nonce != s.txMap[hashes[j]].nonce)
  {
    var picked := Pick(s.mem, order, limit);
    PickSound(s.mem, order, limit);
    hide Pick;
    forall i | 0 <= i < |picked|
      ensures
        var d := s.mem[picked[i]];
        && d.hash in s.txMap && s.txMap[d.hash].sender == d.sender && s.txMap[d.hash].nonce == d.nonce
        && Occupies(s.occupied, d.sender, d.nonce, picked[i])
    {
      var p := picked[i];
      assert p in picked;
      assert InQueue(s, p);
    }
  }

  /** When nothing was refused since the last flush and the limit is not in the way, exactly the slots'
      pointers are handed out. */
  lemma PackageComplete(txOf: Hash -> Tx, s: PoolState, order: seq<nat>, limit: nat)
    requires Inv(txOf, s) && s.coQueue == [] && ListsHeap(s, order)
    requires !s.refused && limit >= |order|
    ensures
      var picked := Pick(s.mem, order, limit);
      && NoDup(picked)
      && (forall a, n :: HasSlot(s.occupied, a, n) ==> s.occupied[a][n] in picked)
      && (forall p :: p in picked ==> p < |s.mem| && Occupies(s.occupied, s.mem[p].sender, s.mem[p].nonce, p))
  {
    PickSound(s.mem, order, limit);
    forall a, n | HasSlot(s.occupied, a, n)
      ensures s.occupied[a][n] in Pick(s.mem, order, limit)
    {
      assert InQueue(s, s.occupied[a][n]);
      PickComplete(s.mem, order, limit, s.occupied[a][n]);
    }
    hide Pick;
    forall p | p in Pick(s.mem, order, limit)
      ensures p < |s.mem| && Occupies(s.occupied, s.mem[p].sender, s.mem[p].nonce, p)
    {
      assert InQueue(s, p);
    }
  }

  /** The head of a bucket resolves, to a transaction of that bucket. */
  lemma SystemHeadResolves(txOf: Hash -> Tx, s: PoolState, d: Bytes, h: Hash)
    requires Inv(txOf, s) && d in s.sysBuckets && IsFirst(s.sysBuckets[d], h)
    ensures GetByHash(s, h) == Some(txOf(h)) && txOf(h).data == d && SysLookup(s, h) == Some(s.sysBuckets[d][h])
  {
    assert h in s.sysBuckets[d];
  }
}

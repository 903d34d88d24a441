/** The pool under threads. Inserters test the limit without the flush lock and then push, swap the nonce slot,
    mark the displaced pointer and record the transaction one step at a time; poppers (the drain task and any
    packager) empty the bounded queue one pointer at a time under the heap lock; insertions of system transactions
    write the hash map and then the bucket; a flush runs alone. */
module PoolConcurrency {
  import opened ChainTypes
  import opened PoolSpec
  import opened PoolProofs

  datatype Inserter =
    | Idle
    | Checked(tx: Tx)
    | Entered(tx: Tx)
    | Pushed(tx: Tx, p: nat)
    | Swapped(tx: Tx, p: nat, displaced: Option<nat>)
    | Slotted(tx: Tx, p: nat)

  datatype Popper = Resting | Reading | Popping(left: nat)

  /** A system insertion: resting, holding the lock, or with the hash map written and the bucket not yet. */
  datatype SysInserter = Off | Holding(tx: Tx) | Half(tx: Tx)

  datatype World = World(
    pool: PoolState, inserters: seq<Inserter>, poppers: seq<Popper>, systems: seq<SysInserter>, panicked: bool)

  datatype Step =
    | Check(i: nat, tx: Tx)
    | Enter(i: nat)
    | Push(i: nat)
    | Swap(i: nat)
    | Mark(i: nat)
    | Record(i: nat)
    | SysEnter(k: nat, tx: Tx)
    | SysHash(k: nat)
    | SysBucket(k: nat)
    | PopEnter(j: nat)
    | PopLock(j: nat)
    | Pop(j: nat)
    | PopEnd(j: nat)
    | Flush(hashes: seq<Hash>, check: Tx -> bool, order: seq<Tx>)

  predicate InFlight(pc: Inserter) {
    pc.Pushed? || pc.Swapped? || pc.Slotted?
  }

  predicate HoldsLock(pc: Inserter) {
    pc.Entered? || InFlight(pc)
  }

  // ---------------------------------------------------------------- steps

  function SwapSlot(s: PoolState, p: nat): PoolState
    requires p < |s.mem|
  {
    var d := s.mem[p];
    s.(occupied := s.occupied[d.sender := Slots(s, d.sender)[d.nonce := p]])
  }

  function Displaced(s: PoolState, p: nat): Option<nat>
    requires p < |s.mem|
  {
    var d := s.mem[p];
    if d.nonce in Slots(s, d.sender) then Some(Slots(s, d.sender)[d.nonce]) else None
  }

  function MarkDropped(s: PoolState, p: Option<nat>): PoolState {
    if p.Some? && p.value < |s.mem| then s.(mem := SetDropped(s.mem, p.value)) else s
  }

  function InserterNext(w: World, i: nat, step: Step): World
    requires i < |w.inserters|
  {
    var s, pc := w.pool, w.inserters[i];
    match step
    case Check(_, tx) =>
      if pc.Idle? && !ReachLimit(s) then w.(inserters := w.inserters[i := Checked(tx)]) else w
    case Enter(_) =>
      if pc.Checked? then w.(inserters := w.inserters[i := Entered(pc.tx)]) else w
    case Push(_) =>
      if pc.Entered?
      then w.(pool := PushQueue(Alloc(s, pc.tx), |s.mem|), inserters := w.inserters[i := Pushed(pc.tx, |s.mem|)])
      else w
    case Swap(_) =>
      if pc.Pushed? && pc.p < |s.mem|
      then w.(pool := SwapSlot(s, pc.p), inserters := w.inserters[i := Swapped(pc.tx, pc.p, Displaced(s, pc.p))])
      else w
    case Mark(_) =>
      if pc.Swapped?
      then w.(pool := MarkDropped(s, pc.displaced), inserters := w.inserters[i := Slotted(pc.tx, pc.p)])
      else w
    case Record(_) =>
      if pc.Slotted?
      then w.(pool := s.(txMap := s.txMap[pc.tx.hash := pc.tx]), inserters := w.inserters[i := Idle])
      else w
    case _ => w
  }

  function PopHead(s: PoolState): PoolState
    requires s.coQueue != []
  {
    s.(coQueue := s.coQueue[1..], realQueue := s.realQueue + [s.coQueue[0]])
  }

  ghost function PopperNext(w: World, j: nat, step: Step): World
    requires j < |w.poppers|
  {
    var pc := w.poppers[j];
    match step
    case PopEnter(_) => if pc.Resting? then w.(poppers := w.poppers[j := Reading]) else w
    case PopLock(_) =>
      if pc.Reading? && (forall k :: 0 <= k < |w.poppers| ==> !w.poppers[k].Popping?)
      then w.(poppers := w.poppers[j := Popping(|w.pool.coQueue|)])
      else w
    case Pop(_) =>
      if pc.Popping? && pc.left > 0 then
        if w.pool.coQueue == [] then w.(panicked := true)
        else w.(pool := PopHead(w.pool), poppers := w.poppers[j := Popping(pc.left - 1)])
      else w
    case PopEnd(_) => if pc.Popping? && pc.left == 0 then w.(poppers := w.poppers[j := Resting]) else w
    case _ => w
  }

  function SysHashNext(s: PoolState, tx: Tx): PoolState {
    s.(sysData := s.sysData[tx.hash := tx.data])
  }

  function SysBucketNext(s: PoolState, tx: Tx): PoolState {
    s.(sysBuckets := s.sysBuckets[tx.data := Bucket(s, tx.data)[tx.hash := tx]])
  }

  /** The two writes together are the sequential insertion. */
  lemma SystemIsTwoWrites(s: PoolState, tx: Tx)
    ensures SysBucketNext(SysHashNext(s, tx), tx) == InsertSystemNext(s, tx)
  {
  }

  function SystemNext(w: World, k: nat, step: Step): World
    requires k < |w.systems|
  {
    var s, pc := w.pool, w.systems[k];
    match step
    case SysEnter(_, tx) => if pc.Off? then w.(systems := w.systems[k := Holding(tx)]) else w
    case SysHash(_) =>
      if pc.Holding? then w.(pool := SysHashNext(s, pc.tx), systems := w.systems[k := Half(pc.tx)]) else w
    case SysBucket(_) =>
      if pc.Half? then w.(pool := SysBucketNext(s, pc.tx), systems := w.systems[k := Off]) else w
    case _ => w
  }

  /** The write lock is free when nobody holds the read lock. */
  ghost predicate Exclusive(w: World) {
    && (forall k :: 0 <= k < |w.systems| ==> w.systems[k].Off?)
    && (forall i :: 0 <= i < |w.inserters| ==> !HoldsLock(w.inserters[i]))
    && (forall j :: 0 <= j < |w.poppers| ==> w.poppers[j].Resting?)
  }

  ghost function Next(w: World, step: Step): World {
    match step
    case SysEnter(k, _) => if k < |w.systems| then SystemNext(w, k, step) else w
    case SysHash(k) => if k < |w.systems| then SystemNext(w, k, step) else w
    case SysBucket(k) => if k < |w.systems| then SystemNext(w, k, step) else w
    case Flush(hashes, check, order) =>
      if Exclusive(w) && ListsTxs(Residual(w.pool, hashes, check), order)
      then w.(pool := FlushNext(w.pool, hashes, check, order))
      else w
    case PopEnter(j) => if j < |w.poppers| then PopperNext(w, j, step) else w
    case PopLock(j) => if j < |w.poppers| then PopperNext(w, j, step) else w
    case Pop(j) => if j < |w.poppers| then PopperNext(w, j, step) else w
    case PopEnd(j) => if j < |w.poppers| then PopperNext(w, j, step) else w
    case _ => if step.i < |w.inserters| then InserterNext(w, step.i, step) else w
  }

  ghost predicate GenuineStep(txOf: Hash -> Tx, step: Step) {
    match step
    case Check(_, tx) => Genuine(txOf, tx)
    case SysEnter(_, tx) => Genuine(txOf, tx)
    case _ => true
  }

  ghost function Run(w: World, steps: seq<Step>): World {
    if steps == [] then w else Next(Run(w, steps[..|steps| - 1]), steps[|steps| - 1])
  }

  // ---------------------------------------------------------------- one thread at a time

  lemma RunSnoc(w: World, steps: seq<Step>, step: Step)
    ensures Run(w, steps + [step]) == Next(Run(w, steps), step)
  {
    hide Next;
    assert (steps + [step])[..|steps|] == steps;
  }

  lemma RunThree(w: World, a: Step, b: Step, c: Step)
    ensures Run(w, [a, b, c]) == Next(Next(Next(w, a), b), c)
  {
    hide Next;
    RunSnoc(w, [], a);
    RunSnoc(w, [a], b);
    RunSnoc(w, [a, b], c);
    assert [] + [a] == [a] && [a] + [b] == [a, b] && [a, b] + [c] == [a, b, c];
  }

  /** The first three steps of an inserter below the limit: check, lock and push. */
  lemma SoloPush(w: World, i: nat, tx: Tx)
    requires i < |w.inserters| && w.inserters[i].Idle? && !ReachLimit(w.pool)
    ensures Next(Next(Next(w, Check(i, tx)), Enter(i)), Push(i)) ==
            w.(pool := PushQueue(Alloc(w.pool, tx), |w.pool.mem|),
               inserters := w.inserters[i := Pushed(tx, |w.pool.mem|)])
  {
    hide ReachLimit, PushQueue, Alloc;
    assert Next(w, Check(i, tx)) == w.(inserters := w.inserters[i := Checked(tx)]);
    var w2 := w.(inserters := w.inserters[i := Checked(tx)][i := Entered(tx)]);
    assert Next(Next(w, Check(i, tx)), Enter(i)) == w2;
    assert w.inserters[i := Checked(tx)][i := Entered(tx)][i := Pushed(tx, |w.pool.mem|)] ==
           w.inserters[i := Pushed(tx, |w.pool.mem|)];
  }

  /** The last three: take the slot, mark the displaced pointer, record the transaction. */
  lemma SoloRecord(w: World, i: nat, tx: Tx, p: nat)
    requires i < |w.inserters| && w.inserters[i] == Pushed(tx, p) && p < |w.pool.mem|
    ensures
      var s := OccupyNonce(w.pool, p);
      Next(Next(Next(w, Swap(i)), Mark(i)), Record(i)) ==
        w.(pool := s.(txMap := s.txMap[tx.hash := tx]), inserters := w.inserters[i := Idle])
  {
    var displaced := Displaced(w.pool, p);
    OccupyIsSwapAndMark(w.pool, p);
    hide SwapSlot, MarkDropped, Displaced, OccupyNonce;
    var w1 := w.(pool := SwapSlot(w.pool, p), inserters := w.inserters[i := Swapped(tx, p, displaced)]);
    assert Next(w, Swap(i)) == w1;
    var w2 := w1.(pool := MarkDropped(w1.pool, displaced), inserters := w1.inserters[i := Slotted(tx, p)]);
    assert Next(w1, Mark(i)) == w2;
    assert w2.inserters[i := Idle] == w.inserters[i := Idle];
  }

  lemma OccupyIsSwapAndMark(s: PoolState, p: nat)
    requires p < |s.mem|
    ensures MarkDropped(SwapSlot(s, p), Displaced(s, p)) == OccupyNonce(s, p)
  {
  }

  /** The steps of an inserter, uninterrupted and below the limit, are the sequential insertion, whatever the other
      threads hold. */
  lemma SoloInsertIsSequential(w: World, i: nat, tx: Tx)
    requires i < |w.inserters| && w.inserters[i].Idle? && !ReachLimit(w.pool)
    ensures
      var pushed := Run(w, [Check(i, tx), Enter(i), Push(i)]);
      Run(pushed, [Swap(i), Mark(i), Record(i)]) == w.(pool := InsertNext(w.pool, tx).0)
  {
    hide Next, Run, OccupyNonce;
    RunThree(w, Check(i, tx), Enter(i), Push(i));
    SoloPush(w, i, tx);
    var pushed := Run(w, [Check(i, tx), Enter(i), Push(i)]);
    RunThree(pushed, Swap(i), Mark(i), Record(i));
    SoloRecord(pushed, i, tx, |w.pool.mem|);
    assert w.inserters[i := Pushed(tx, |w.pool.mem|)][i := Idle] == w.inserters;
  }

  /** n pops in a row. */
  function Pops(j: nat, n: nat): seq<Step> {
    if n == 0 then [] else Pops(j, n - 1) + [Pop(j)]
  }

  /** The world after popper j, with `left` to go, moved n pointers. */
  ghost function Moved(w: World, j: nat, n: nat, left: nat): World
    requires j < |w.poppers| && n <= |w.pool.coQueue| && n <= left
  {
    w.(pool := w.pool.(coQueue := w.pool.coQueue[n..], realQueue := w.pool.realQueue + w.pool.coQueue[..n]),
       poppers := w.poppers[j := Popping(left - n)])
  }

  lemma MoveOne(w: World, j: nat, n: nat, left: nat)
    requires j < |w.poppers| && 0 < n <= |w.pool.coQueue| && n <= left
    ensures Next(Moved(w, j, n - 1, left), Pop(j)) == Moved(w, j, n, left)
  {
    var q := w.pool.coQueue;
    var m := Moved(w, j, n - 1, left);
    assert q[n - 1..][1..] == q[n..] && q[n - 1..][0] == q[n - 1];
    assert w.pool.realQueue + q[..n - 1] + [q[n - 1]] == w.pool.realQueue + q[..n];
    assert m.poppers[j := Popping(left - n)] == w.poppers[j := Popping(left - n)];
  }

  lemma {:induction false} PopsMove(w: World, j: nat, n: nat, left: nat)
    requires j < |w.poppers| && w.poppers[j] == Popping(left) && n <= left && n <= |w.pool.coQueue|
    ensures Run(w, Pops(j, n)) == Moved(w, j, n, left)
  {
    hide Next;
    if n == 0 {
      assert w.pool.realQueue + w.pool.coQueue[..0] == w.pool.realQueue && w.poppers[j := Popping(left)] == w.poppers;
    } else {
      PopsMove(w, j, n - 1, left);
      hide Moved;
      RunSnoc(w, Pops(j, n - 1), Pop(j));
      MoveOne(w, j, n, left);
    }
  }

  /** A popper that gets the heap lock and pops all it counted, uninterrupted, is the sequential drain. */
  lemma SoloDrainIsSequential(w: World, j: nat)
    requires j < |w.poppers| && w.poppers[j].Resting?
    requires forall k :: 0 <= k < |w.poppers| ==> !w.poppers[k].Popping?
    ensures
      var locked := Next(Next(w, PopEnter(j)), PopLock(j));
      Next(Run(locked, Pops(j, |w.pool.coQueue|)), PopEnd(j)) == w.(pool := DrainNext(w.pool))
  {
    var n, q := |w.pool.coQueue|, w.pool.coQueue;
    var locked := w.(poppers := w.poppers[j := Popping(n)]);
    SoloLock(w, j);
    PopsMove(locked, j, n, n);
    hide Run, Pops;
    assert q[..n] == q && q[n..] == [];
    var moved := Moved(locked, j, n, n);
    assert moved.poppers[j := Resting] == w.poppers;
  }

  lemma SoloLock(w: World, j: nat)
    requires j < |w.poppers| && w.poppers[j].Resting?
    requires forall k :: 0 <= k < |w.poppers| ==> !w.poppers[k].Popping?
    ensures Next(Next(w, PopEnter(j)), PopLock(j)) == w.(poppers := w.poppers[j := Popping(|w.pool.coQueue|)])
  {
    var w1 := w.(poppers := w.poppers[j := Reading]);
    assert Next(w, PopEnter(j)) == w1;
    assert w1.poppers[j := Popping(|w.pool.coQueue|)] == w.poppers[j := Popping(|w.pool.coQueue|)];
  }

  // ---------------------------------------------------------------- invariant

  function Busy(ts: seq<Inserter>): nat {
    if ts == [] then 0 else Busy(ts[..|ts| - 1]) + (if ts[|ts| - 1].Idle? then 0 else 1)
  }

  lemma {:induction false} BusyUpdate(ts: seq<Inserter>, i: nat, pc: Inserter)
    requires i < |ts|
    ensures Busy(ts[i := pc]) == Busy(ts) - (if ts[i].Idle? then 0 else 1) + (if pc.Idle? then 0 else 1)
    ensures Busy(ts) <= |ts|
  {
    var last := |ts| - 1;
    if i == last {
      assert ts[i := pc][..last] == ts[..last];
      BusyBound(ts);
    } else {
      assert ts[i := pc][..last] == ts[..last][i := pc];
      BusyUpdate(ts[..last], i, pc);
    }
  }

  lemma {:induction false} BusyBound(ts: seq<Inserter>)
    ensures Busy(ts) <= |ts|
  {
    if ts != [] {
      BusyBound(ts[..|ts| - 1]);
    }
  }

  /** Every inserter past the limit test may still add one transaction. */
  ghost predicate SizeOk(w: World) {
    |w.pool.txMap| + Busy(w.inserters) <= w.pool.capacity + |w.inserters|
  }

  /** One popper at a time pops, and never more than what is in the queue. */
  ghost predicate PoppersOk(w: World) {
    && !w.panicked
    && (forall j :: 0 <= j < |w.poppers| && w.poppers[j].Popping? ==> w.poppers[j].left <= |w.pool.coQueue|)
    && (forall j, k :: 0 <= j < k < |w.poppers| ==> !(w.poppers[j].Popping? && w.poppers[k].Popping?))
  }

  ghost predicate Base(txOf: Hash -> Tx, s: PoolState) {
    MemOk(txOf, s) && QueuesOk(s) && MapOk(txOf, s) && SlotsOk(s) && SysOk(txOf, s) && Queued(s)
  }

  ghost predicate NotInSlot(s: PoolState, p: nat) {
    forall a, n :: HasSlot(s.occupied, a, n) ==> s.occupied[a][n] != p
  }

  /** What one inserter's program counter says about the pool. */
  ghost predicate FlightOk(txOf: Hash -> Tx, s: PoolState, pc: Inserter) {
    && (!pc.Idle? ==> Genuine(txOf, pc.tx))
    && (InFlight(pc) ==>
          && pc.p < |s.mem| && s.mem[pc.p].hash == pc.tx.hash
          && s.mem[pc.p].sender == pc.tx.sender && s.mem[pc.p].nonce == pc.tx.nonce)
    && (pc.Pushed? ==> !s.mem[pc.p].isDropped && NotInSlot(s, pc.p) && (!s.refused ==> InQueue(s, pc.p)))
    && (pc.Swapped? && pc.displaced.Some? ==> pc.displaced.value < |s.mem| && NotInSlot(s, pc.displaced.value))
  }

  ghost predicate FlightsOk(txOf: Hash -> Tx, w: World) {
    && (forall i :: 0 <= i < |w.inserters| ==> FlightOk(txOf, w.pool, w.inserters[i]))
    && (forall i, k :: 0 <= i < |w.inserters| && 0 <= k < |w.inserters| && i != k ==>
          Apart(w.inserters[i], w.inserters[k]))
  }

  /** Different inserters hold different pointers, and nobody displaces a pointer that is not in a slot yet. */
  predicate Apart(a: Inserter, b: Inserter) {
    && (InFlight(a) && InFlight(b) ==> a.p != b.p)
    && (a.Pushed? && b.Swapped? && b.displaced.Some? ==> b.displaced.value != a.p)
    && (b.Pushed? && a.Swapped? && a.displaced.Some? ==> a.displaced.value != b.p)
  }

  ghost predicate HeldBy(ts: seq<Inserter>, p: nat) {
    exists i :: 0 <= i < |ts| && InFlight(ts[i]) && ts[i].p == p
  }

  ghost predicate AboutToSwap(ts: seq<Inserter>, p: nat) {
    exists i :: 0 <= i < |ts| && ts[i].Pushed? && ts[i].p == p
  }

  ghost predicate AboutToDrop(ts: seq<Inserter>, p: nat) {
    exists i :: 0 <= i < |ts| && ts[i].Swapped? && ts[i].displaced == Some(p)
  }

  /** The sequential link between queue, map and slots, with the insertions under way allowed for. */
  ghost predicate LinksUnderWay(s: PoolState, ts: seq<Inserter>) {
    forall p: nat :: InQueue(s, p) && p < |s.mem| ==>
      && (s.mem[p].hash in s.txMap || HeldBy(ts, p))
      && (!s.mem[p].isDropped ==>
            Occupies(s.occupied, s.mem[p].sender, s.mem[p].nonce, p) || AboutToSwap(ts, p) || AboutToDrop(ts, p))
  }

  /** A half-done system insertion already has its hash written. */
  ghost predicate SystemsOk(txOf: Hash -> Tx, data: map<Hash, Bytes>, systems: seq<SysInserter>) {
    forall k :: 0 <= k < |systems| && !systems[k].Off? ==>
      && Genuine(txOf, systems[k].tx)
      && (systems[k].Half? ==> systems[k].tx.hash in data && data[systems[k].tx.hash] == systems[k].tx.data)
  }

  ghost predicate WInv(txOf: Hash -> Tx, w: World) {
    && Base(txOf, w.pool) && FlightsOk(txOf, w) && LinksUnderWay(w.pool, w.inserters)
    && SystemsOk(txOf, w.pool.sysData, w.systems) && PoppersOk(w) && SizeOk(w)
  }

  // ---------------------------------------------------------------- preservation

  lemma CheckKeeps(txOf: Hash -> Tx, w: World, i: nat, tx: Tx)
    requires WInv(txOf, w) && i < |w.inserters| && Genuine(txOf, tx)
    ensures WInv(txOf, InserterNext(w, i, Check(i, tx)))
  {
    var w' := InserterNext(w, i, Check(i, tx));
    if w' != w {
      BusyUpdate(w.inserters, i, Checked(tx));
      BusyBound(w'.inserters);
      SamePointers(w.pool, w.inserters, i, Checked(tx));
    }
  }

  lemma EnterKeeps(txOf: Hash -> Tx, w: World, i: nat)
    requires WInv(txOf, w) && i < |w.inserters|
    ensures WInv(txOf, InserterNext(w, i, Enter(i)))
  {
    var w' := InserterNext(w, i, Enter(i));
    if w' != w {
      BusyUpdate(w.inserters, i, Entered(w.inserters[i].tx));
      SamePointers(w.pool, w.inserters, i, Entered(w.inserters[i].tx));
    }
  }

  /** A step of an inserter that holds no pointer before or after changes no link. */
  lemma SamePointers(s: PoolState, ts: seq<Inserter>, i: nat, pc: Inserter)
    requires LinksUnderWay(s, ts) && i < |ts| && !InFlight(ts[i]) && !InFlight(pc)
    ensures LinksUnderWay(s, ts[i := pc])
  {
    var us := ts[i := pc];
    forall p: nat | InQueue(s, p) && p < |s.mem|
      ensures s.mem[p].hash in s.txMap || HeldBy(us, p)
      ensures !s.mem[p].isDropped ==>
                Occupies(s.occupied, s.mem[p].sender, s.mem[p].nonce, p) || AboutToSwap(us, p) || AboutToDrop(us, p)
    {
      KeepWitness(ts, i, pc, p);
    }
  }

  lemma KeepWitness(ts: seq<Inserter>, i: nat, pc: Inserter, p: nat)
    requires i < |ts|
    ensures HeldBy(ts, p) && !(InFlight(ts[i]) && ts[i].p == p) ==> HeldBy(ts[i := pc], p)
    ensures AboutToSwap(ts, p) && !(ts[i].Pushed? && ts[i].p == p) ==> AboutToSwap(ts[i := pc], p)
    ensures AboutToDrop(ts, p) && !(ts[i].Swapped? && ts[i].displaced == Some(p)) ==> AboutToDrop(ts[i := pc], p)
    ensures InFlight(pc) && pc.p == p ==> HeldBy(ts[i := pc], p)
    ensures pc.Pushed? && pc.p == p ==> AboutToSwap(ts[i := pc], p)
    ensures pc.Swapped? && pc.displaced == Some(p) ==> AboutToDrop(ts[i := pc], p)
  {
    var us := ts[i := pc];
    assert us[i] == pc;
    if HeldBy(ts, p) && !(InFlight(ts[i]) && ts[i].p == p) {
      var k :| 0 <= k < |ts| && InFlight(ts[k]) && ts[k].p == p;
      assert us[k] == ts[k];
    }
    if AboutToSwap(ts, p) && !(ts[i].Pushed? && ts[i].p == p) {
      var k :| 0 <= k < |ts| && ts[k].Pushed? && ts[k].p == p;
      assert us[k] == ts[k];
    }
    if AboutToDrop(ts, p) && !(ts[i].Swapped? && ts[i].displaced == Some(p)) {
      var k :| 0 <= k < |ts| && ts[k].Swapped? && ts[k].displaced == Some(p);
      assert us[k] == ts[k];
    }
  }

  // Push: a fresh pointer enters memory and, if there is room, the bounded queue.

  lemma PushMemory(txOf: Hash -> Tx, s: PoolState, tx: Tx)
    requires MemOk(txOf, s) && MapOk(txOf, s) && SlotsOk(s) && SysOk(txOf, s) && Genuine(txOf, tx)
    ensures
      var t := PushQueue(Alloc(s, tx), |s.mem|);
      MemOk(txOf, t) && MapOk(txOf, t) && SlotsOk(t) && SysOk(txOf, t)
  {
    hide MapOk, SysOk;
    SameTables(txOf, s, PushQueue(Alloc(s, tx), |s.mem|));
  }

  lemma SameTables(txOf: Hash -> Tx, s: PoolState, t: PoolState)
    requires t.txMap == s.txMap && t.sysData == s.sysData && t.sysBuckets == s.sysBuckets
    ensures MapOk(txOf, t) == MapOk(txOf, s) && SysOk(txOf, t) == SysOk(txOf, s)
  {
  }

  lemma PushQueues(s: PoolState, tx: Tx)
    requires QueuesOk(s) && Queued(s)
    ensures var t := PushQueue(Alloc(s, tx), |s.mem|); QueuesOk(t) && Queued(t)
  {
    var p, t := |s.mem|, PushQueue(Alloc(s, tx), |s.mem|);
    assert p !in s.coQueue && p !in s.realQueue;
    NoDupConcat(s.coQueue, [p]);
    forall a, n | HasSlot(t.occupied, a, n) && !t.refused
      ensures InQueue(t, t.occupied[a][n])
    {
      assert InQueue(s, s.occupied[a][n]);
    }
  }

  lemma PushBase(txOf: Hash -> Tx, s: PoolState, tx: Tx)
    requires Base(txOf, s) && Genuine(txOf, tx)
    ensures Base(txOf, PushQueue(Alloc(s, tx), |s.mem|))
  {
    hide MemOk, MapOk, SlotsOk, SysOk, QueuesOk, Queued, PushQueue;
    PushMemory(txOf, s, tx);
    PushQueues(s, tx);
  }

  lemma PushFlights(txOf: Hash -> Tx, w: World, i: nat)
    requires Base(txOf, w.pool) && FlightsOk(txOf, w) && i < |w.inserters| && w.inserters[i].Entered?
    ensures FlightsOk(txOf, InserterNext(w, i, Push(i)))
  {
    var w' := InserterNext(w, i, Push(i));
    var s, t, p := w.pool, w'.pool, |w.pool.mem|;
    assert NotInSlot(s, p);
    forall k | 0 <= k < |w'.inserters|
      ensures FlightOk(txOf, t, w'.inserters[k])
    {
      var pc := w'.inserters[k];
      if k != i {
        assert FlightOk(txOf, s, pc);
        if pc.Pushed? && !t.refused {
          assert InQueue(s, pc.p);
        }
      } else if !t.refused {
        assert t.coQueue[|s.coQueue|] == p;
      }
    }
    forall k, l | 0 <= k < |w'.inserters| && 0 <= l < |w'.inserters| && k != l
      ensures Apart(w'.inserters[k], w'.inserters[l])
    {
      if k != i && l != i {
        assert Apart(w.inserters[k], w.inserters[l]);
      } else {
        assert FlightOk(txOf, s, w.inserters[if k == i then l else k]);
      }
    }
  }

  lemma PushLinks(txOf: Hash -> Tx, w: World, i: nat)
    requires Base(txOf, w.pool) && LinksUnderWay(w.pool, w.inserters) && i < |w.inserters| && w.inserters[i].Entered?
    ensures LinksUnderWay(InserterNext(w, i, Push(i)).pool, InserterNext(w, i, Push(i)).inserters)
  {
    var w' := InserterNext(w, i, Push(i));
    var s, t := w.pool, w'.pool;
    forall p: nat | InQueue(t, p) && p < |t.mem|
      ensures t.mem[p].hash in t.txMap || HeldBy(w'.inserters, p)
      ensures !t.mem[p].isDropped ==>
                Occupies(t.occupied, t.mem[p].sender, t.mem[p].nonce, p) ||
                AboutToSwap(w'.inserters, p) || AboutToDrop(w'.inserters, p)
    {
      KeepWitness(w.inserters, i, w'.inserters[i], p);
      if p != |s.mem| {
        assert InQueue(s, p);
      }
    }
  }

  lemma PushKeeps(txOf: Hash -> Tx, w: World, i: nat)
    requires WInv(txOf, w) && i < |w.inserters|
    ensures WInv(txOf, InserterNext(w, i, Push(i)))
  {
    if w.inserters[i].Entered? {
      assert FlightOk(txOf, w.pool, w.inserters[i]);
      PushBase(txOf, w.pool, w.inserters[i].tx);
      PushFlights(txOf, w, i);
      PushLinks(txOf, w, i);
      BusyUpdate(w.inserters, i, Pushed(w.inserters[i].tx, |w.pool.mem|));
      hide Base, FlightsOk, LinksUnderWay;
    }
  }

  // Swap: the pointer takes its slot; the pointer it displaces is remembered.

  ghost predicate SlotSwapped(s: PoolState, t: PoolState, p: nat)
    requires p < |s.mem|
  {
    && Occupies(t.occupied, s.mem[p].sender, s.mem[p].nonce, p)
    && (forall a, n :: HasSlot(t.occupied, a, n) && (a != s.mem[p].sender || n != s.mem[p].nonce) ==>
          HasSlot(s.occupied, a, n) && t.occupied[a][n] == s.occupied[a][n])
    && (forall a, n :: HasSlot(s.occupied, a, n) ==> HasSlot(t.occupied, a, n))
    && t.mem == s.mem && t.coQueue == s.coQueue && t.realQueue == s.realQueue && t.txMap == s.txMap
    && t.refused == s.refused && t.sysData == s.sysData && t.sysBuckets == s.sysBuckets && t.capacity == s.capacity
  }

  lemma SwapSwaps(s: PoolState, p: nat)
    requires p < |s.mem|
    ensures SlotSwapped(s, SwapSlot(s, p), p)
    ensures Displaced(s, p).Some? <==> HasSlot(s.occupied, s.mem[p].sender, s.mem[p].nonce)
    ensures Displaced(s, p).Some? ==> Displaced(s, p).value == s.occupied[s.mem[p].sender][s.mem[p].nonce]
  {
  }

  lemma SwapBase(txOf: Hash -> Tx, s: PoolState, t: PoolState, p: nat)
    requires Base(txOf, s) && p < |s.mem| && SlotSwapped(s, t, p)
    requires !s.mem[p].isDropped && (!s.refused ==> InQueue(s, p))
    ensures Base(txOf, t)
  {
    forall a, n | HasSlot(t.occupied, a, n)
      ensures var q := t.occupied[a][n];
              q < |t.mem| && !t.mem[q].isDropped && t.mem[q].sender == a && t.mem[q].nonce == n
      ensures !t.refused ==> InQueue(t, t.occupied[a][n])
    {
      if a != s.mem[p].sender || n != s.mem[p].nonce {
        assert HasSlot(s.occupied, a, n);
        assert !s.refused ==> InQueue(s, s.occupied[a][n]);
      }
    }
  }

  /** After the swap a pointer sits in a slot exactly if it did before, except p and the displaced one. */
  lemma SwapSlots(s: PoolState, t: PoolState, p: nat, q: nat)
    requires SlotsOk(s) && p < |s.mem| && SlotSwapped(s, t, p) && q != p
    requires NotInSlot(s, q) || Displaced(s, p) == Some(q)
    ensures NotInSlot(t, q)
  {
    SwapSwaps(s, p);
    forall a, n | HasSlot(t.occupied, a, n)
      ensures t.occupied[a][n] != q
    {
      if a != s.mem[p].sender || n != s.mem[p].nonce {
        assert HasSlot(s.occupied, a, n);
      }
    }
  }

  lemma SwapFlights(txOf: Hash -> Tx, w: World, i: nat)
    requires Base(txOf, w.pool) && FlightsOk(txOf, w) && i < |w.inserters| && w.inserters[i].Pushed?
    ensures FlightsOk(txOf, InserterNext(w, i, Swap(i)))
  {
    var w' := InserterNext(w, i, Swap(i));
    var s, t := w.pool, w'.pool;
    assert FlightOk(txOf, s, w.inserters[i]);
    var p := w.inserters[i].p;
    SwapSwaps(s, p);
    var gone := Displaced(s, p);
    hide SwapSlot, Displaced;
    forall k | 0 <= k < |w'.inserters|
      ensures FlightOk(txOf, t, w'.inserters[k])
    {
      var pc := w'.inserters[k];
      if k != i {
        assert FlightOk(txOf, s, pc) && Apart(w.inserters[i], pc);
        if pc.Pushed? { SwapSlots(s, t, p, pc.p); }
        if pc.Swapped? && pc.displaced.Some? { SwapSlots(s, t, p, pc.displaced.value); }
      } else if gone.Some? {
        assert HasSlot(s.occupied, s.mem[p].sender, s.mem[p].nonce);
        SwapSlots(s, t, p, gone.value);
      }
    }
    forall k, l | 0 <= k < |w'.inserters| && 0 <= l < |w'.inserters| && k != l
      ensures Apart(w'.inserters[k], w'.inserters[l])
    {
      assert Apart(w.inserters[k], w.inserters[l]);
      assert FlightOk(txOf, s, w.inserters[k]) && FlightOk(txOf, s, w.inserters[l]);
      if gone.Some? {
        assert HasSlot(s.occupied, s.mem[p].sender, s.mem[p].nonce);
      }
    }
  }

  lemma SwapLinks(txOf: Hash -> Tx, w: World, i: nat)
    requires Base(txOf, w.pool) && FlightsOk(txOf, w) && LinksUnderWay(w.pool, w.inserters)
    requires i < |w.inserters| && w.inserters[i].Pushed?
    ensures LinksUnderWay(InserterNext(w, i, Swap(i)).pool, InserterNext(w, i, Swap(i)).inserters)
  {
    var w' := InserterNext(w, i, Swap(i));
    var s, t := w.pool, w'.pool;
    assert FlightOk(txOf, s, w.inserters[i]);
    var p := w.inserters[i].p;
    SwapSwaps(s, p);
    hide SwapSlot, Displaced;
    forall q: nat | InQueue(t, q) && q < |t.mem|
      ensures t.mem[q].hash in t.txMap || HeldBy(w'.inserters, q)
      ensures !t.mem[q].isDropped ==>
                Occupies(t.occupied, t.mem[q].sender, t.mem[q].nonce, q) ||
                AboutToSwap(w'.inserters, q) || AboutToDrop(w'.inserters, q)
    {
      assert InQueue(s, q);
      KeepWitness(w.inserters, i, w'.inserters[i], q);
    }
  }

  lemma SwapKeeps(txOf: Hash -> Tx, w: World, i: nat)
    requires WInv(txOf, w) && i < |w.inserters|
    ensures WInv(txOf, InserterNext(w, i, Swap(i)))
  {
    if w.inserters[i].Pushed? {
      var p := w.inserters[i].p;
      assert FlightOk(txOf, w.pool, w.inserters[i]);
      SwapSwaps(w.pool, p);
      SwapBase(txOf, w.pool, SwapSlot(w.pool, p), p);
      SwapFlights(txOf, w, i);
      SwapLinks(txOf, w, i);
      BusyUpdate(w.inserters, i, Swapped(w.inserters[i].tx, p, Displaced(w.pool, p)));
      hide Base, FlightsOk, LinksUnderWay;
    }
  }

  // Mark: the displaced pointer's flag goes up.

  lemma MarkBase(txOf: Hash -> Tx, s: PoolState, q: Option<nat>)
    requires Base(txOf, s) && (q.Some? ==> NotInSlot(s, q.value))
    ensures Base(txOf, MarkDropped(s, q))
  {
  }

  lemma MarkFlights(txOf: Hash -> Tx, w: World, i: nat)
    requires FlightsOk(txOf, w) && i < |w.inserters| && w.inserters[i].Swapped?
    ensures FlightsOk(txOf, InserterNext(w, i, Mark(i)))
  {
    var w' := InserterNext(w, i, Mark(i));
    forall k | 0 <= k < |w'.inserters|
      ensures FlightOk(txOf, w'.pool, w'.inserters[k])
    {
      assert FlightOk(txOf, w.pool, w.inserters[k]);
      if k != i {
        assert Apart(w.inserters[k], w.inserters[i]);
      }
    }
    forall k, l | 0 <= k < |w'.inserters| && 0 <= l < |w'.inserters| && k != l
      ensures Apart(w'.inserters[k], w'.inserters[l])
    {
      assert Apart(w.inserters[k], w.inserters[l]);
    }
  }

  lemma MarkLinks(w: World, i: nat)
    requires LinksUnderWay(w.pool, w.inserters) && i < |w.inserters| && w.inserters[i].Swapped?
    ensures LinksUnderWay(InserterNext(w, i, Mark(i)).pool, InserterNext(w, i, Mark(i)).inserters)
  {
    var w' := InserterNext(w, i, Mark(i));
    var s, t := w.pool, w'.pool;
    forall q: nat | InQueue(t, q) && q < |t.mem|
      ensures t.mem[q].hash in t.txMap || HeldBy(w'.inserters, q)
      ensures !t.mem[q].isDropped ==>
                Occupies(t.occupied, t.mem[q].sender, t.mem[q].nonce, q) ||
                AboutToSwap(w'.inserters, q) || AboutToDrop(w'.inserters, q)
    {
      assert InQueue(s, q);
      KeepWitness(w.inserters, i, w'.inserters[i], q);
    }
  }

  lemma MarkKeeps(txOf: Hash -> Tx, w: World, i: nat)
    requires WInv(txOf, w) && i < |w.inserters|
    ensures WInv(txOf, InserterNext(w, i, Mark(i)))
  {
    if w.inserters[i].Swapped? {
      assert FlightOk(txOf, w.pool, w.inserters[i]);
      MarkBase(txOf, w.pool, w.inserters[i].displaced);
      MarkFlights(txOf, w, i);
      MarkLinks(w, i);
      BusyUpdate(w.inserters, i, Slotted(w.inserters[i].tx, w.inserters[i].p));
      hide Base, FlightsOk, LinksUnderWay;
    }
  }

  // Record: the transaction enters the map and the insertion is complete.

  lemma RecordLinks(txOf: Hash -> Tx, w: World, i: nat)
    requires FlightsOk(txOf, w) && LinksUnderWay(w.pool, w.inserters) && i < |w.inserters| && w.inserters[i].Slotted?
    ensures LinksUnderWay(InserterNext(w, i, Record(i)).pool, InserterNext(w, i, Record(i)).inserters)
  {
    var w' := InserterNext(w, i, Record(i));
    var s, t := w.pool, w'.pool;
    assert FlightOk(txOf, s, w.inserters[i]);
    forall q: nat | InQueue(t, q) && q < |t.mem|
      ensures t.mem[q].hash in t.txMap || HeldBy(w'.inserters, q)
      ensures !t.mem[q].isDropped ==>
                Occupies(t.occupied, t.mem[q].sender, t.mem[q].nonce, q) ||
                AboutToSwap(w'.inserters, q) || AboutToDrop(w'.inserters, q)
    {
      assert InQueue(s, q);
      KeepWitness(w.inserters, i, Idle, q);
    }
  }

  lemma RecordFlights(txOf: Hash -> Tx, w: World, i: nat)
    requires FlightsOk(txOf, w) && i < |w.inserters| && w.inserters[i].Slotted?
    ensures FlightsOk(txOf, InserterNext(w, i, Record(i)))
  {
    var w' := InserterNext(w, i, Record(i));
    forall k | 0 <= k < |w'.inserters|
      ensures FlightOk(txOf, w'.pool, w'.inserters[k])
    {
      assert FlightOk(txOf, w.pool, w.inserters[k]);
    }
    forall k, l | 0 <= k < |w'.inserters| && 0 <= l < |w'.inserters| && k != l
      ensures Apart(w'.inserters[k], w'.inserters[l])
    {
      assert Apart(w.inserters[k], w.inserters[l]);
    }
  }

  lemma RecordKeeps(txOf: Hash -> Tx, w: World, i: nat)
    requires WInv(txOf, w) && i < |w.inserters|
    ensures WInv(txOf, InserterNext(w, i, Record(i)))
  {
    if w.inserters[i].Slotted? {
      var s, tx := w.pool, w.inserters[i].tx;
      assert FlightOk(txOf, s, w.inserters[i]);
      RecordLinks(txOf, w, i);
      RecordFlights(txOf, w, i);
      BusyUpdate(w.inserters, i, Idle);
      RecordBase(txOf, s, tx);
      assert |s.txMap[tx.hash := tx]| <= |s.txMap| + 1;
      hide Base, FlightsOk, LinksUnderWay;
    }
  }

  lemma RecordBase(txOf: Hash -> Tx, s: PoolState, tx: Tx)
    requires Base(txOf, s) && Genuine(txOf, tx)
    ensures Base(txOf, s.(txMap := s.txMap[tx.hash := tx]))
  {
  }

  // Poppers and flush.

  lemma PopBase(txOf: Hash -> Tx, s: PoolState)
    requires Base(txOf, s) && s.coQueue != []
    ensures Base(txOf, PopHead(s))
    ensures forall p :: InQueue(PopHead(s), p) <==> InQueue(s, p)
  {
    var t, h := PopHead(s), s.coQueue[0];
    assert s.coQueue == [h] + s.coQueue[1..];
    assert h in s.coQueue;
    NoDupConcat(s.realQueue, [h]);
    forall p
      ensures InQueue(t, p) <==> InQueue(s, p)
    {
      assert p in s.coQueue <==> p == h || p in s.coQueue[1..];
    }
    forall p | p in t.coQueue
      ensures p !in t.realQueue
    {
      assert p in s.coQueue;
    }
  }

  lemma PopLinks(txOf: Hash -> Tx, w: World, t: PoolState)
    requires FlightsOk(txOf, w) && LinksUnderWay(w.pool, w.inserters)
    requires t == w.pool.(coQueue := t.coQueue, realQueue := t.realQueue)
    requires forall p :: InQueue(t, p) <==> InQueue(w.pool, p)
    ensures FlightsOk(txOf, w.(pool := t)) && LinksUnderWay(t, w.inserters)
  {
    forall k | 0 <= k < |w.inserters|
      ensures FlightOk(txOf, t, w.inserters[k])
    {
      assert FlightOk(txOf, w.pool, w.inserters[k]);
    }
  }

  lemma PopperKeeps(txOf: Hash -> Tx, w: World, j: nat, step: Step)
    requires WInv(txOf, w) && j < |w.poppers|
    ensures WInv(txOf, PopperNext(w, j, step))
  {
    hide Base, FlightsOk, LinksUnderWay;
    var w' := PopperNext(w, j, step);
    if w'.pool != w.pool {
      PopBase(txOf, w.pool);
      PopLinks(txOf, w, PopHead(w.pool));
      FlightsSame(txOf, w.(pool := PopHead(w.pool)), w');
    } else {
      FlightsSame(txOf, w, w');
    }
  }

  lemma FlightsSame(txOf: Hash -> Tx, w: World, w': World)
    requires FlightsOk(txOf, w) && w'.pool == w.pool && w'.inserters == w.inserters
    ensures FlightsOk(txOf, w')
  {
  }

  /** With no insertion between its push and its map entry, the sequential invariant holds. */
  lemma QuietIsSequential(txOf: Hash -> Tx, w: World)
    requires WInv(txOf, w) && forall i :: 0 <= i < |w.inserters| ==> !InFlight(w.inserters[i])
    ensures Inv(txOf, w.pool)
  {
  }

  lemma FlushKeeps(txOf: Hash -> Tx, w: World, hashes: seq<Hash>, check: Tx -> bool, order: seq<Tx>)
    requires WInv(txOf, w) && Exclusive(w) && ListsTxs(Residual(w.pool, hashes, check), order)
    ensures WInv(txOf, w.(pool := FlushNext(w.pool, hashes, check, order)))
  {
    QuietIsSequential(txOf, w);
    FlushKeepsInv(txOf, w.pool, hashes, check, order);
    var t := FlushNext(w.pool, hashes, check, order);
    assert |t.txMap| <= |w.pool.txMap| && t.capacity == w.pool.capacity by {
      RequeueAllRefills(Cleared(w.pool, hashes, check), order);
      RequeueCapacity(Cleared(w.pool, hashes, check), order);
      hide RequeueAll;
      assert t.txMap == Residual(w.pool, hashes, check);
      Shrinks(w.pool.txMap, t.txMap);
    }
    hide FlushNext;
    forall k | 0 <= k < |w.inserters|
      ensures FlightOk(txOf, t, w.inserters[k])
    {
      assert FlightOk(txOf, w.pool, w.inserters[k]);
    }
  }

  lemma {:induction false} RequeueCapacity(c: PoolState, txs: seq<Tx>)
    ensures RequeueAll(c, txs).capacity == c.capacity
  {
    if txs != [] {
      RequeueCapacity(c, txs[..|txs| - 1]);
    }
  }

  lemma Shrinks(m: map<Hash, Tx>, n: map<Hash, Tx>)
    requires n.Keys <= m.Keys
    ensures |n| <= |m|
  {
    assert |n| == |n.Keys| && |m| == |m.Keys|;
    assert m.Keys == n.Keys + (m.Keys - n.Keys);
  }

  lemma HashBase(txOf: Hash -> Tx, s: PoolState, tx: Tx)
    requires Base(txOf, s) && Genuine(txOf, tx)
    ensures Base(txOf, SysHashNext(s, tx))
  {
    hide SysOk;
    HashBuckets(txOf, s, tx);
  }

  lemma HashBuckets(txOf: Hash -> Tx, s: PoolState, tx: Tx)
    requires SysOk(txOf, s) && Genuine(txOf, tx)
    ensures SysOk(txOf, SysHashNext(s, tx))
  {
  }

  lemma BucketBase(txOf: Hash -> Tx, s: PoolState, tx: Tx)
    requires Base(txOf, s) && Genuine(txOf, tx) && tx.hash in s.sysData && s.sysData[tx.hash] == tx.data
    ensures Base(txOf, SysBucketNext(s, tx))
  {
    hide SysOk;
    BucketBuckets(txOf, s, tx);
  }

  lemma BucketBuckets(txOf: Hash -> Tx, s: PoolState, tx: Tx)
    requires SysOk(txOf, s) && Genuine(txOf, tx) && tx.hash in s.sysData && s.sysData[tx.hash] == tx.data
    ensures SysOk(txOf, SysBucketNext(s, tx))
  {
    var t := SysBucketNext(s, tx);
    assert tx.hash in t.sysBuckets[tx.data];
    forall d, h | d in t.sysBuckets && h in t.sysBuckets[d]
      ensures t.sysBuckets[d][h] == txOf(h) && txOf(h).hash == h && txOf(h).data == d
      ensures h in t.sysData && t.sysData[h] == d
    {
      if h != tx.hash || d != tx.data {
        assert d in s.sysBuckets && h in s.sysBuckets[d];
      }
    }
  }

  /** Nothing but the system maps changes, so flights and links stay. */
  lemma SystemFlights(txOf: Hash -> Tx, w: World, t: PoolState)
    requires FlightsOk(txOf, w) && LinksUnderWay(w.pool, w.inserters)
    requires t == w.pool.(sysData := t.sysData, sysBuckets := t.sysBuckets)
    ensures FlightsOk(txOf, w.(pool := t)) && LinksUnderWay(t, w.inserters)
  {
    forall k | 0 <= k < |w.inserters|
      ensures FlightOk(txOf, t, w.inserters[k])
    {
      assert FlightOk(txOf, w.pool, w.inserters[k]);
    }
  }

  /** Genuine transactions agree on the data of a hash, so a second write of it changes nothing. */
  lemma HashSystems(txOf: Hash -> Tx, data: map<Hash, Bytes>, systems: seq<SysInserter>, k: nat, tx: Tx)
    requires SystemsOk(txOf, data, systems) && k < |systems| && Genuine(txOf, tx)
    ensures SystemsOk(txOf, data[tx.hash := tx.data], systems[k := Half(tx)])
  {
  }

  lemma SystemKeeps(txOf: Hash -> Tx, w: World, k: nat, step: Step)
    requires WInv(txOf, w) && k < |w.systems| && GenuineStep(txOf, step)
    ensures WInv(txOf, SystemNext(w, k, step))
  {
    hide Base, FlightsOk, LinksUnderWay;
    var w' := SystemNext(w, k, step);
    SystemFlights(txOf, w, w'.pool);
    FlightsSame(txOf, w.(pool := w'.pool), w');
    if w'.pool != w.pool && step.SysHash? {
      HashBase(txOf, w.pool, w.systems[k].tx);
      HashSystems(txOf, w.pool.sysData, w.systems, k, w.systems[k].tx);
    } else if w'.pool != w.pool {
      BucketBase(txOf, w.pool, w.systems[k].tx);
    } else if step.SysHash? && w.systems[k].Holding? {
      HashSystems(txOf, w.pool.sysData, w.systems, k, w.systems[k].tx);
    }
  }

  lemma StepKeeps(txOf: Hash -> Tx, w: World, step: Step)
    requires WInv(txOf, w) && GenuineStep(txOf, step)
    ensures WInv(txOf, Next(w, step))
  {
    hide WInv, InserterNext, PopperNext, SystemNext;
    match step
    case SysEnter(k, _) => if k < |w.systems| { SystemKeeps(txOf, w, k, step); }
    case SysHash(k) => if k < |w.systems| { SystemKeeps(txOf, w, k, step); }
    case SysBucket(k) => if k < |w.systems| { SystemKeeps(txOf, w, k, step); }
    case Flush(hashes, check, order) =>
      if Exclusive(w) && ListsTxs(Residual(w.pool, hashes, check), order) {
        FlushKeeps(txOf, w, hashes, check, order);
      }
    case PopEnter(j) => if j < |w.poppers| { PopperKeeps(txOf, w, j, step); }
    case PopLock(j) => if j < |w.poppers| { PopperKeeps(txOf, w, j, step); }
    case Pop(j) => if j < |w.poppers| { PopperKeeps(txOf, w, j, step); }
    case PopEnd(j) => if j < |w.poppers| { PopperKeeps(txOf, w, j, step); }
    case Check(i, tx) => if i < |w.inserters| { CheckKeeps(txOf, w, i, tx); }
    case Enter(i) => if i < |w.inserters| { EnterKeeps(txOf, w, i); }
    case Push(i) => if i < |w.inserters| { PushKeeps(txOf, w, i); }
    case Swap(i) => if i < |w.inserters| { SwapKeeps(txOf, w, i); }
    case Mark(i) => if i < |w.inserters| { MarkKeeps(txOf, w, i); }
    case Record(i) => if i < |w.inserters| { RecordKeeps(txOf, w, i); }
  }

  ghost predicate Fresh(w: World) {
    && w.pool == EmptyPool(w.pool.capacity) && !w.panicked
    && (forall i :: 0 <= i < |w.inserters| ==> w.inserters[i].Idle?)
    && (forall j :: 0 <= j < |w.poppers| ==> w.poppers[j].Resting?)
    && (forall k :: 0 <= k < |w.systems| ==> w.systems[k].Off?)
  }

  lemma FreshOk(txOf: Hash -> Tx, w: World)
    requires Fresh(w)
    ensures WInv(txOf, w)
  {
    BusyBound(w.inserters);
  }

  /** Every interleaving of any number of inserters and poppers with flushes keeps the invariant. */
  lemma {:induction false} EveryInterleaving(txOf: Hash -> Tx, w: World, steps: seq<Step>)
    requires Fresh(w) && forall i :: 0 <= i < |steps| ==> GenuineStep(txOf, steps[i])
    ensures WInv(txOf, Run(w, steps))
  {
    if steps == [] {
      FreshOk(txOf, w);
    } else {
      hide WInv, Next;
      EveryInterleaving(txOf, w, steps[..|steps| - 1]);
      StepKeeps(txOf, Run(w, steps[..|steps| - 1]), steps[|steps| - 1]);
    }
  }

  lemma StepSizes(w: World, step: Step)
    ensures Next(w, step).pool.capacity == w.pool.capacity
    ensures |Next(w, step).inserters| == |w.inserters|
  {
    if step.Flush? {
      RequeueCapacity(Cleared(w.pool, step.hashes, step.check), step.order);
      hide RequeueAll;
    }
  }

  lemma {:induction false} RunSizes(w: World, steps: seq<Step>)
    ensures Run(w, steps).pool.capacity == w.pool.capacity
    ensures |Run(w, steps).inserters| == |w.inserters|
  {
    if steps != [] {
      hide Next;
      RunSizes(w, steps[..|steps| - 1]);
      StepSizes(Run(w, steps[..|steps| - 1]), steps[|steps| - 1]);
    }
  }

  /** In every interleaving the map stays within capacity plus the number of inserters, no pop meets an empty
      queue, and whenever no insertion is half done the pool is as consistent as in a sequential run. */
  lemma PoolIsSafe(txOf: Hash -> Tx, w: World, steps: seq<Step>)
    requires Fresh(w) && forall i :: 0 <= i < |steps| ==> GenuineStep(txOf, steps[i])
    ensures
      var e := Run(w, steps);
      && |e.pool.txMap| <= w.pool.capacity + |w.inserters|
      && !e.panicked
      && ((forall i :: 0 <= i < |e.inserters| ==> !InFlight(e.inserters[i])) ==> Inv(txOf, e.pool))
  {
    EveryInterleaving(txOf, w, steps);
    RunSizes(w, steps);
    hide Run;
    var e := Run(w, steps);
    if forall i :: 0 <= i < |e.inserters| ==> !InFlight(e.inserters[i]) {
      QuietIsSequential(txOf, e);
    }
  }

  // ---------------------------------------------------------------- packaging while insertions are under way

  /** Every hash handed out resolves. */
  ghost predicate AllResolve(s: PoolState, picked: seq<nat>)
    requires Allocated(s.mem, picked)
  {
    forall i :: 0 <= i < |picked| ==> GetByHash(s, s.mem[picked[i]].hash).Some?
  }

  /** Every insertion under way whose pointer is handed out is of a transaction that the pool already knows. */
  ghost predicate FlightsRecorded(w: World, picked: seq<nat>) {
    forall i :: 0 <= i < |w.inserters| && InFlight(w.inserters[i]) && w.inserters[i].p in picked ==>
      GetByHash(w.pool, w.inserters[i].tx.hash).Some?
  }

  predicate SameSlot(mem: seq<TxDigest>, p: nat, q: nat)
    requires p < |mem| && q < |mem|
  {
    mem[p].sender == mem[q].sender && mem[p].nonce == mem[q].nonce
  }

  /** Never two pointers of one sender and nonce. */
  ghost predicate OnePerSlot(mem: seq<TxDigest>, picked: seq<nat>)
    requires Allocated(mem, picked)
  {
    forall i, j :: 0 <= i < j < |picked| ==> !SameSlot(mem, picked[i], picked[j])
  }

  /** A pointer that has not taken its slot yet, or that lost it and is not marked yet. */
  ghost predicate BetweenSlots(ts: seq<Inserter>, p: nat) {
    AboutToSwap(ts, p) || AboutToDrop(ts, p)
  }

  /** Every pointer between slots that is handed out is the only one of its sender and nonce. */
  ghost predicate BetweenAlone(w: World, picked: seq<nat>)
    requires Allocated(w.pool.mem, picked)
  {
    forall i, j :: 0 <= i < |picked| && 0 <= j < |picked| && i != j && BetweenSlots(w.inserters, picked[i]) ==>
      !SameSlot(w.pool.mem, picked[i], picked[j])
  }

  lemma PickedQueued(s: PoolState, order: seq<nat>, limit: nat)
    requires ListsHeap(s, order)
    ensures
      var picked := Pick(s.mem, order, limit);
      && Allocated(s.mem, picked) && NoDup(picked)
      && forall i :: 0 <= i < |picked| ==> InQueue(s, picked[i]) && !s.mem[picked[i]].isDropped
  {
    PickSound(s.mem, order, limit);
    hide Pick;
    var picked := Pick(s.mem, order, limit);
    forall i | 0 <= i < |picked|
      ensures InQueue(s, picked[i]) && !s.mem[picked[i]].isDropped
    {
      assert picked[i] in picked;
    }
  }

  lemma ResolveIff(txOf: Hash -> Tx, w: World, picked: seq<nat>)
    requires FlightsOk(txOf, w) && LinksUnderWay(w.pool, w.inserters) && Allocated(w.pool.mem, picked)
    requires forall i :: 0 <= i < |picked| ==> InQueue(w.pool, picked[i])
    ensures AllResolve(w.pool, picked) <==> FlightsRecorded(w, picked)
  {
    if AllResolve(w.pool, picked) {
      forall i | 0 <= i < |w.inserters| && InFlight(w.inserters[i]) && w.inserters[i].p in picked
        ensures GetByHash(w.pool, w.inserters[i].tx.hash).Some?
      {
        assert FlightOk(txOf, w.pool, w.inserters[i]);
      }
    }
    if FlightsRecorded(w, picked) {
      forall i | 0 <= i < |picked|
        ensures GetByHash(w.pool, w.pool.mem[picked[i]].hash).Some?
      {
        assert InQueue(w.pool, picked[i]);
        if HeldBy(w.inserters, picked[i]) {
          var k :| 0 <= k < |w.inserters| && InFlight(w.inserters[k]) && w.inserters[k].p == picked[i];
          assert FlightOk(txOf, w.pool, w.inserters[k]);
        }
      }
    }
  }

  lemma OnePerSlotIff(w: World, picked: seq<nat>)
    requires LinksUnderWay(w.pool, w.inserters) && Allocated(w.pool.mem, picked) && NoDup(picked)
    requires forall i :: 0 <= i < |picked| ==> InQueue(w.pool, picked[i]) && !w.pool.mem[picked[i]].isDropped
    ensures OnePerSlot(w.pool.mem, picked) <==> BetweenAlone(w, picked)
  {
    var s := w.pool;
    if BetweenAlone(w, picked) {
      forall i, j | 0 <= i < j < |picked|
        ensures !SameSlot(s.mem, picked[i], picked[j])
      {
        assert InQueue(s, picked[i]) && InQueue(s, picked[j]);
        if !BetweenSlots(w.inserters, picked[i]) && !BetweenSlots(w.inserters, picked[j]) {
          assert Occupies(s.occupied, s.mem[picked[i]].sender, s.mem[picked[i]].nonce, picked[i]);
          assert Occupies(s.occupied, s.mem[picked[j]].sender, s.mem[picked[j]].nonce, picked[j]);
        }
      }
    }
  }

  /** In every reachable world: all packaged hashes resolve exactly when the insertions under way whose pointers
      are packaged are of known transactions, and no sender and nonce is packaged twice exactly when every packaged
      pointer between slots is alone. */
  lemma PackagingIff(txOf: Hash -> Tx, w: World, steps: seq<Step>, order: seq<nat>, limit: nat)
    requires Fresh(w) && forall i :: 0 <= i < |steps| ==> GenuineStep(txOf, steps[i])
    requires ListsHeap(Run(w, steps).pool, order)
    ensures Allocated(Run(w, steps).pool.mem, Pick(Run(w, steps).pool.mem, order, limit))
    ensures
      var e := Run(w, steps);
      var picked := Pick(e.pool.mem, order, limit);
      && |picked| <= limit
      && (AllResolve(e.pool, picked) <==> FlightsRecorded(e, picked))
      && (OnePerSlot(e.pool.mem, picked) <==> BetweenAlone(e, picked))
  {
    hide Run, Base, FlightsOk, LinksUnderWay, AllResolve, FlightsRecorded, OnePerSlot, BetweenAlone, Pick;
    EveryInterleaving(txOf, w, steps);
    var e := Run(w, steps);
    var picked := Pick(e.pool.mem, order, limit);
    PickSound(e.pool.mem, order, limit);
    PickedQueued(e.pool, order, limit);
    ResolveIff(txOf, e, picked);
    OnePerSlotIff(e, picked);
  }

  // ---------------------------------------------------------------- an interleaving for each failure

  function OneThread(capacity: nat): World {
    World(EmptyPool(capacity), [Idle], [Resting], [], false)
  }

  lemma RunNone(w: World)
    ensures Run(w, []) == w
  {
  }

  lemma {:induction false} RunConcat(w: World, a: seq<Step>, b: seq<Step>)
    ensures Run(w, a + b) == Run(Run(w, a), b)
  {
    if b == [] {
      assert a + b == a;
    } else {
      assert (a + b)[..|a + b| - 1] == a + b[..|b| - 1];
      RunConcat(w, a, b[..|b| - 1]);
    }
  }

  /** The first half of an insertion. */
  function Begin(tx: Tx): seq<Step> { [Check(0, tx)] + [Enter(0)] + [Push(0)] }

  /** The second half. */
  function Finish(): seq<Step> { [Swap(0)] + [Mark(0)] + [Record(0)] }

  lemma BeginRun(w: World, tx: Tx)
    requires w.inserters == [Idle] && !ReachLimit(w.pool) && |w.pool.coQueue| < w.pool.capacity
    ensures
      var s := w.pool;
      Run(w, Begin(tx)) ==
      w.(pool := s.(mem := s.mem + [DigestOf(tx)], coQueue := s.coQueue + [|s.mem|]),
         inserters := [Pushed(tx, |s.mem|)])
  {
    hide Next, Run;
    assert Begin(tx) == [Check(0, tx), Enter(0), Push(0)];
    RunThree(w, Check(0, tx), Enter(0), Push(0));
    SoloPush(w, 0, tx);
    assert w.inserters[0 := Pushed(tx, |w.pool.mem|)] == [Pushed(tx, |w.pool.mem|)];
  }

  lemma FinishRun(w: World, tx: Tx, p: nat)
    requires w.inserters == [Pushed(tx, p)] && p < |w.pool.mem| && w.pool.mem[p] == DigestOf(tx)
    requires w.pool.occupied == map[]
    ensures
      Run(w, Finish()) ==
      w.(pool := w.pool.(occupied := map[tx.sender := map[tx.nonce := p]], txMap := w.pool.txMap[tx.hash := tx]),
         inserters := [Idle])
  {
    hide Next, Run;
    assert Finish() == [Swap(0), Mark(0), Record(0)];
    RunThree(w, Swap(0), Mark(0), Record(0));
    SoloRecord(w, 0, tx, p);
    assert w.inserters[0 := Idle] == [Idle];
  }

  /** A packager takes the heap lock. */
  function Lock(): seq<Step> { [PopEnter(0)] + [PopLock(0)] }

  lemma LockRun(w: World)
    requires w.poppers == [Resting]
    ensures Run(w, Lock()) == w.(poppers := [Popping(|w.pool.coQueue|)])
  {
    hide Next, Run;
    RunNone(w);
    RunSnoc(w, [], PopEnter(0));
    assert [] + [PopEnter(0)] == [PopEnter(0)];
    RunSnoc(w, [PopEnter(0)], PopLock(0));
    SoloLock(w, 0);
    assert w.poppers[0 := Popping(|w.pool.coQueue|)] == [Popping(|w.pool.coQueue|)];
  }

  /** One insertion stopped after its push, then a packager's pop. */
  function HalfInserted(tx: Tx): seq<Step> { Begin(tx) + Lock() + [Pop(0)] }

  lemma HalfInsertedRun(tx: Tx)
    ensures Run(OneThread(1), HalfInserted(tx)).pool == EmptyPool(1).(realQueue := [0], mem := [DigestOf(tx)])
  {
    hide Run, Next;
    var w := OneThread(1);
    BeginRun(w, tx);
    var w1 := Run(w, Begin(tx));
    LockRun(w1);
    var w2 := Run(w1, Lock());
    assert w1.pool.coQueue == [0] && w1.pool.mem == [DigestOf(tx)];
    PopsMove(w2, 0, 1, 1);
    assert Pops(0, 1) == [Pop(0)] && [0][1..] == [] && [] + [0][..1] == [0];
    RunConcat(w, Begin(tx), Lock());
    RunConcat(w, Begin(tx) + Lock(), [Pop(0)]);
  }

  /** A pointer that is pushed but not yet recorded is handed out by a packager although its hash does not
      resolve. */
  lemma HalfInsertedIsPackaged(tx: Tx)
    ensures
      var s := Run(OneThread(1), HalfInserted(tx)).pool;
      && s.coQueue == [] && ListsHeap(s, [0]) && Pick(s.mem, [0], 1) == [0]
      && s.mem[0].hash == tx.hash && GetByHash(s, tx.hash).None?
  {
    hide Run;
    HalfInsertedRun(tx);
    assert [0][1..] == [] && Pick([DigestOf(tx)], [], 0) == [];
  }

  /** One insertion completed, a second one of the same sender and nonce stopped after its push, then a
      packager's two pops. */
  function Doubled(a: Tx, b: Tx): seq<Step> { Begin(a) + Finish() + Begin(b) + Lock() + [Pop(0)] + [Pop(0)] }

  lemma TwoPops(w: World, p: nat, q: nat)
    requires w.poppers == [Popping(2)] && w.pool.coQueue == [p, q] && w.pool.realQueue == []
    ensures Run(w, [Pop(0)] + [Pop(0)]) ==
            w.(pool := w.pool.(coQueue := [], realQueue := [p, q]), poppers := [Popping(0)])
  {
    hide Next, Run;
    PopsMove(w, 0, 2, 2);
    assert Pops(0, 1) == [Pop(0)] && Pops(0, 2) == [Pop(0)] + [Pop(0)];
    assert [p, q][2..] == [] && [] + [p, q][..2] == [p, q] && w.poppers[0 := Popping(0)] == [Popping(0)];
  }

  function DoubledPool(a: Tx, b: Tx): PoolState {
    EmptyPool(2).(occupied := map[a.sender := map[a.nonce := 0]], realQueue := [0, 1], txMap := map[a.hash := a],
                  mem := [DigestOf(a), DigestOf(b)])
  }

  lemma DoubledRun(a: Tx, b: Tx)
    ensures Run(OneThread(2), Doubled(a, b)).pool == DoubledPool(a, b)
  {
    hide Run;
    var w := OneThread(2);
    BeginRun(w, a);
    var w1 := Run(w, Begin(a));
    assert w1.pool.mem == [DigestOf(a)] && w1.pool.coQueue == [0];
    FinishRun(w1, a, 0);
    var w2 := Run(w1, Finish());
    assert |w2.pool.txMap| == 1;
    BeginRun(w2, b);
    var w3 := Run(w2, Begin(b));
    assert w3.pool.mem == [DigestOf(a), DigestOf(b)] && w3.pool.coQueue == [0, 1];
    LockRun(w3);
    TwoPops(Run(w3, Lock()), 0, 1);
    DoubledIsSequence(w, a, b);
  }

  /** Both pointers are handed out: two for one sender and nonce. */
  lemma DoubledSlotIsPackaged(a: Tx, b: Tx)
    requires a.sender == b.sender && a.nonce == b.nonce
    ensures
      var s := Run(OneThread(2), Doubled(a, b)).pool;
      && s.coQueue == [] && ListsHeap(s, [0, 1]) && Pick(s.mem, [0, 1], 2) == [0, 1]
      && |s.mem| == 2 && SameSlot(s.mem, 0, 1) && s.mem[0].hash == a.hash && s.mem[1].hash == b.hash
  {
    hide Run;
    DoubledRun(a, b);
    var mem := DoubledPool(a, b).mem;
    assert [0, 1][1..] == [1] && [1][1..] == [];
    assert Pick(mem, [], 0) == [];
    assert Pick(mem, [1], 1) == [1];
  }

  lemma DoubledIsSequence(w: World, a: Tx, b: Tx)
    ensures Run(w, Doubled(a, b)) ==
            Run(Run(Run(Run(Run(w, Begin(a)), Finish()), Begin(b)), Lock()), [Pop(0)] + [Pop(0)])
  {
    hide Run;
    var pops := [Pop(0)] + [Pop(0)];
    assert Doubled(a, b) == Begin(a) + Finish() + Begin(b) + Lock() + pops;
    RunConcat(w, Begin(a) + Finish() + Begin(b) + Lock(), pops);
    RunConcat(w, Begin(a) + Finish() + Begin(b), Lock());
    RunConcat(w, Begin(a) + Finish(), Begin(b));
    RunConcat(w, Begin(a), Finish());
  }
}

/** The mempool's priority pool as a value: a bounded queue, a heap, a transaction map, nonce slots and the
    system-transaction buckets. Pointers are indices into `mem`, so every structure that holds a pointer sees
    the same "dropped" flag. */
module PoolSpec {
  import opened ChainTypes

  datatype Tx = Tx(hash: Hash, sender: Address, nonce: nat, gasPrice: nat, data: Bytes)

  datatype TxDigest = TxDigest(hash: Hash, gasPrice: nat, nonce: nat, sender: Address, isDropped: bool)

  /** sender to nonce to pointer */
  type SlotMap = map<Address, map<nat, nat>>

  datatype PoolState = PoolState(
    capacity: nat,
    sysData: map<Hash, Bytes>,
    sysBuckets: map<Bytes, map<Hash, Tx>>,
    occupied: SlotMap,
    coQueue: seq<nat>,
    realQueue: seq<nat>,
    txMap: map<Hash, Tx>,
    mem: seq<TxDigest>,
    /** whether the bounded queue refused a pointer since the last flush */
    refused: bool)

  function EmptyPool(capacity: nat): PoolState {
    PoolState(capacity, map[], map[], map[], [], [], map[], [], false)
  }

  function DigestOf(tx: Tx): TxDigest {
    TxDigest(tx.hash, tx.gasPrice, tx.nonce, tx.sender, false)
  }

  predicate InQueue(s: PoolState, p: nat) {
    p in s.coQueue || p in s.realQueue
  }

  predicate HasSlot(o: SlotMap, a: Address, n: nat) {
    a in o && n in o[a]
  }

  predicate Occupies(o: SlotMap, a: Address, n: nat, p: nat) {
    HasSlot(o, a, n) && o[a][n] == p
  }

  // ---------------------------------------------------------------- operations

  function ReachLimit(s: PoolState): bool {
    |s.txMap| > s.capacity
  }

  /** `TxWrapper::from`: a new digest; its address is the old size of the memory. */
  function Alloc(s: PoolState, tx: Tx): PoolState {
    s.(mem := s.mem + [DigestOf(tx)])
  }

  function SetDropped(mem: seq<TxDigest>, p: nat): seq<TxDigest>
    requires p < |mem|
  {
    mem[p := mem[p].(isDropped := true)]
  }

  function Slots(s: PoolState, a: Address): map<nat, nat> {
    if a in s.occupied then s.occupied[a] else map[]
  }

  /** `occupy_nonce`: the slot's former pointer, if any, is marked dropped. */
  function OccupyNonce(s: PoolState, p: nat): PoolState
    requires p < |s.mem|
  {
    var d := s.mem[p];
    var slots := Slots(s, d.sender);
    s.(occupied := s.occupied[d.sender := slots[d.nonce := p]],
       mem := if d.nonce in slots && slots[d.nonce] < |s.mem| then SetDropped(s.mem, slots[d.nonce]) else s.mem)
  }

  function PushQueue(s: PoolState, p: nat): PoolState {
    if |s.coQueue| < s.capacity then s.(coQueue := s.coQueue + [p]) else s.(refused := true)
  }

  function InsertNext(s: PoolState, tx: Tx): (PoolState, bool) {
    if ReachLimit(s) then (s, false)
    else
      var p := |s.mem|;
      var t := OccupyNonce(PushQueue(Alloc(s, tx), p), p);
      (t.(txMap := t.txMap[tx.hash := tx]), true)
  }

  function Bucket(s: PoolState, data: Bytes): map<Hash, Tx> {
    if data in s.sysBuckets then s.sysBuckets[data] else map[]
  }

  function InsertSystemNext(s: PoolState, tx: Tx): PoolState {
    s.(sysData := s.sysData[tx.hash := tx.data],
       sysBuckets := s.sysBuckets[tx.data := Bucket(s, tx.data)[tx.hash := tx]])
  }

  /** Moving everything from the bounded queue to the heap. */
  function DrainNext(s: PoolState): PoolState {
    s.(realQueue := s.realQueue + s.coQueue, coQueue := [])
  }

  function SysLookup(s: PoolState, h: Hash): Option<Tx> {
    if h in s.sysData && s.sysData[h] in s.sysBuckets && h in s.sysBuckets[s.sysData[h]]
    then Some(s.sysBuckets[s.sysData[h]][h])
    else None
  }

  function GetByHash(s: PoolState, h: Hash): Option<Tx> {
    if h in s.txMap then Some(s.txMap[h]) else SysLookup(s, h)
  }

  function Contains(s: PoolState, h: Hash): bool {
    h in s.txMap || SysLookup(s, h).Some?
  }

  predicate Allocated(mem: seq<TxDigest>, ps: seq<nat>) {
    forall i :: 0 <= i < |ps| ==> ps[i] < |mem|
  }

  /** The live pointers met in iteration order, at most `limit` of them. */
  function Pick(mem: seq<TxDigest>, order: seq<nat>, limit: nat): seq<nat>
    requires Allocated(mem, order)
  {
    if order == [] || limit == 0 then []
    else if mem[order[0]].isDropped then Pick(mem, order[1..], limit)
    else [order[0]] + Pick(mem, order[1..], limit - 1)
  }

  /** The smallest hash of a bucket. */
  ghost predicate IsFirst(bucket: map<Hash, Tx>, h: Hash) {
    h in bucket && forall k :: k in bucket ==> h <= k
  }

  /** A traversal of all buckets in some order. */
  ghost predicate ListsBuckets(s: PoolState, order: seq<Bytes>) {
    NoDup(order) && forall d :: d in order <==> d in s.sysBuckets
  }

  function HashesOf(mem: seq<TxDigest>, ps: seq<nat>): seq<Hash>
    requires Allocated(mem, ps)
  {
    seq<Hash>(|ps|, i requires 0 <= i < |ps| => mem[ps[i]].hash)
  }

  // ---------------------------------------------------------------- flush

  ghost predicate DroppedQueued(s: PoolState, h: Hash) {
    exists p: nat :: InQueue(s, p) && p < |s.mem| && s.mem[p].isDropped && s.mem[p].hash == h
  }

  /** The transactions that survive a flush. */
  ghost function Residual(s: PoolState, hashes: seq<Hash>, check: Tx -> bool): map<Hash, Tx> {
    map h | h in s.txMap && h !in hashes && !DroppedQueued(s, h) && check(s.txMap[h]) :: s.txMap[h]
  }

  type DataMap = map<Hash, Bytes>
  type BucketMap = map<Bytes, map<Hash, Tx>>

  ghost function FlushedData(data: DataMap, hashes: seq<Hash>): DataMap {
    map h | h in data && h !in hashes :: data[h]
  }

  ghost predicate BucketHit(data: DataMap, hashes: seq<Hash>, d: Bytes) {
    exists h :: h in hashes && h in data && data[h] == d
  }

  ghost function FlushedBuckets(data: DataMap, buckets: BucketMap, hashes: seq<Hash>): BucketMap {
    map d | d in buckets && !BucketHit(data, hashes, d) :: buckets[d]
  }

  /** The pool between emptying and refilling. */
  ghost function Cleared(s: PoolState, hashes: seq<Hash>, check: Tx -> bool): PoolState {
    s.(txMap := Residual(s, hashes, check), coQueue := [], realQueue := [], occupied := map[],
       sysData := FlushedData(s.sysData, hashes), sysBuckets := FlushedBuckets(s.sysData, s.sysBuckets, hashes),
       refused := false)
  }

  function Requeue(s: PoolState, tx: Tx): PoolState {
    var p := |s.mem|;
    var t := OccupyNonce(Alloc(s, tx), p);
    t.(realQueue := t.realQueue + [p])
  }

  function RequeueAll(s: PoolState, txs: seq<Tx>): PoolState {
    if txs == [] then s else Requeue(RequeueAll(s, txs[..|txs| - 1]), txs[|txs| - 1])
  }

  function Hashes(txs: seq<Tx>): seq<Hash> {
    seq<Hash>(|txs|, i requires 0 <= i < |txs| => txs[i].hash)
  }

  /** A traversal of a transaction map in some order. */
  ghost predicate ListsTxs(m: map<Hash, Tx>, order: seq<Tx>) {
    && NoDup(Hashes(order))
    && (forall i :: 0 <= i < |order| ==> order[i].hash in m && m[order[i].hash] == order[i])
    && (forall h :: h in m ==> h in Hashes(order))
  }

  ghost function FlushNext(s: PoolState, hashes: seq<Hash>, check: Tx -> bool, order: seq<Tx>): PoolState {
    RequeueAll(Cleared(s, hashes, check), order)
  }

  // ---------------------------------------------------------------- invariant

  /** A hash belongs to one transaction. */
  ghost predicate Genuine(txOf: Hash -> Tx, tx: Tx) {
    txOf(tx.hash) == tx
  }

  ghost predicate MemOk(txOf: Hash -> Tx, s: PoolState) {
    forall p :: 0 <= p < |s.mem| ==>
      var d := s.mem[p];
      d == DigestOf(txOf(d.hash)).(isDropped := d.isDropped)
  }

  ghost predicate QueuesOk(s: PoolState) {
    && NoDup(s.coQueue) && NoDup(s.realQueue)
    && Allocated(s.mem, s.coQueue) && Allocated(s.mem, s.realQueue)
    && (forall p :: p in s.coQueue ==> p !in s.realQueue)
  }

  ghost predicate MapOk(txOf: Hash -> Tx, s: PoolState) {
    forall h :: h in s.txMap ==> s.txMap[h].hash == h && s.txMap[h] == txOf(h)
  }

  /** A slot holds a live pointer of its own sender and nonce. */
  ghost predicate SlotsOk(s: PoolState) {
    forall a, n :: HasSlot(s.occupied, a, n) ==>
      var p := s.occupied[a][n];
      p < |s.mem| && !s.mem[p].isDropped && s.mem[p].sender == a && s.mem[p].nonce == n
  }

  /** Every queued pointer is known by hash, and if live it holds its slot. */
  ghost predicate LinksOk(s: PoolState) {
    forall p: nat :: InQueue(s, p) && p < |s.mem| ==>
      && s.mem[p].hash in s.txMap
      && (!s.mem[p].isDropped ==> Occupies(s.occupied, s.mem[p].sender, s.mem[p].nonce, p))
  }

  ghost predicate SysOk(txOf: Hash -> Tx, s: PoolState) {
    forall d :: d in s.sysBuckets ==>
      && s.sysBuckets[d].Keys != {}
      && forall h :: h in s.sysBuckets[d] ==>
           && s.sysBuckets[d][h] == txOf(h) && txOf(h).hash == h && txOf(h).data == d
           && h in s.sysData && s.sysData[h] == d
  }

  /** Unless the bounded queue refused something, every slot's pointer is queued. */
  ghost predicate Queued(s: PoolState) {
    !s.refused ==> forall a, n :: HasSlot(s.occupied, a, n) ==> InQueue(s, s.occupied[a][n])
  }

  ghost predicate Inv(txOf: Hash -> Tx, s: PoolState) {
    && MemOk(txOf, s) && QueuesOk(s) && MapOk(txOf, s) && SlotsOk(s) && LinksOk(s) && SysOk(txOf, s) && Queued(s)
  }
}

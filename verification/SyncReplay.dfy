/** Synchronization replays consensus: a node that syncs from a node which committed through the engine
    accepts every block and ends up with the same chain data and the same status. */
module SyncReplay {
  import opened ChainTypes
  import opened ChainStore
  import opened Quorum
  import opened NodeSpec
  import opened NodeSafety

  /** `get_transactions` at a height, with the missing ones left out. */
  function LookupTxs(s: Store, n: nat, hashes: seq<Hash>): seq<SignedTx> {
    if hashes == [] then []
    else
      (if (n, hashes[0]) in s.txs then [s.txs[(n, hashes[0])]] else []) + LookupTxs(s, n, hashes[1..])
  }

  function LookupReceipts(s: Store, n: nat, hashes: seq<Hash>): seq<Receipt> {
    if hashes == [] then []
    else
      (if (n, hashes[0]) in s.receipts then [s.receipts[(n, hashes[0])]] else []) + LookupReceipts(s, n, hashes[1..])
  }

  /** The proof a node hands out: from the next header, or the latest one. */
  function ServedProof(s: Store, n: nat): Option<Proof> {
    match s.latestProof
    case None => None
    case Some(latest) =>
      if n < latest.number then
        match HeaderAt(s, n + 1)
        case None => None
        case Some(h) => Some(h.proof)
      else if n == latest.number then Some(latest)
      else None
  }

  /** The pull handlers of a node with this store. */
  function ServedBy(s: Store): Remote {
    Remote(
      (n: nat) => BlockAt(s, n),
      (n: nat, hashes: seq<Hash>) => Some(LookupTxs(s, n, hashes)),
      (n: nat) => ServedProof(s, n))
  }

  lemma {:induction false} LookupConcat(s: Store, n: nat, a: seq<Hash>, b: seq<Hash>)
    ensures LookupTxs(s, n, a + b) == LookupTxs(s, n, a) + LookupTxs(s, n, b)
  {
    if a == [] {
      assert a + b == b;
    } else {
      assert (a + b)[1..] == a[1..] + b;
      LookupConcat(s, n, a[1..], b);
    }
  }

  /** Whatever the chunk size, the pieces come together in block order. */
  lemma {:induction false} ChunksConcatenate(s: Store, n: nat, hashes: seq<Hash>, chunk: nat)
    requires chunk > 0
    ensures FetchTxs(ServedBy(s), n, hashes, chunk) == Some(LookupTxs(s, n, hashes))
    decreases |hashes|
  {
    if hashes != [] {
      var k := if |hashes| < chunk then |hashes| else chunk;
      ChunksConcatenate(s, n, hashes[k..], chunk);
      LookupConcat(s, n, hashes[..k], hashes[k..]);
      assert hashes == hashes[..k] + hashes[k..];
    }
  }

  lemma {:induction false} InsertedTx(m: map<(nat, Hash), SignedTx>, n: nat, txs: seq<SignedTx>, j: nat)
    requires j < |txs| && forall k :: j < k < |txs| ==> txs[k].hash != txs[j].hash
    ensures (n, txs[j].hash) in InsertTxs(m, n, txs) && InsertTxs(m, n, txs)[(n, txs[j].hash)] == txs[j]
  {
    var last := |txs| - 1;
    if j < last {
      InsertedTx(m, n, txs[..last], j);
    }
  }

  lemma {:induction false} InsertedReceipt(m: map<(nat, Hash), Receipt>, n: nat, rs: seq<Receipt>, j: nat)
    requires j < |rs| && forall k :: j < k < |rs| ==> rs[k].txHash != rs[j].txHash
    ensures (n, rs[j].txHash) in InsertReceipts(m, n, rs) && InsertReceipts(m, n, rs)[(n, rs[j].txHash)] == rs[j]
  {
    var last := |rs| - 1;
    if j < last {
      InsertedReceipt(m, n, rs[..last], j);
    }
  }

  lemma {:induction false} LookupStored(s: Store, n: nat, txs: seq<SignedTx>)
    requires forall j :: 0 <= j < |txs| ==> (n, txs[j].hash) in s.txs && s.txs[(n, txs[j].hash)] == txs[j]
    ensures LookupTxs(s, n, TxHashes(txs)) == txs
  {
    if txs != [] {
      assert TxHashes(txs)[1..] == TxHashes(txs[1..]);
      LookupStored(s, n, txs[1..]);
    }
  }

  lemma {:induction false} LookupStoredReceipts(s: Store, n: nat, rs: seq<Receipt>)
    requires forall j :: 0 <= j < |rs| ==> (n, rs[j].txHash) in s.receipts && s.receipts[(n, rs[j].txHash)] == rs[j]
    ensures LookupReceipts(s, n, ReceiptHashes(rs)) == rs
  {
    if rs != [] {
      assert ReceiptHashes(rs)[1..] == ReceiptHashes(rs[1..]);
      LookupStoredReceipts(s, n, rs[1..]);
    }
  }

  /** The transactions and receipts of block b, as executed, are what a lookup at its height gives. */
  ghost predicate BodyStored(env: Env, s: Store, b: Block, txs: seq<SignedTx>, resp: ExecResp) {
    && LookupTxs(s, b.header.number, b.txHashes) == txs
    && LookupReceipts(s, b.header.number, b.txHashes) == Receipts(env, b, txs, resp)
  }

  /** The transactions are distinct and listed in the block. */
  ghost predicate Listed(b: Block, txs: seq<SignedTx>) {
    b.txHashes == TxHashes(txs) && NoDup(b.txHashes)
  }

  /** A body consists of listed transactions, each with one response. */
  ghost predicate BodyShape(b: Block, txs: seq<SignedTx>, resp: ExecResp) {
    Listed(b, txs) && |resp.txResp| == |txs|
  }

  lemma LaterHashesDiffer(txs: seq<SignedTx>, j: nat)
    requires NoDup(TxHashes(txs)) && j < |txs|
    ensures forall k :: j < k < |txs| ==> txs[k].hash != txs[j].hash
  {
    forall k | j < k < |txs|
      ensures txs[k].hash != txs[j].hash
    {
      assert TxHashes(txs)[j] != TxHashes(txs)[k];
    }
  }

  lemma SavedTxs(s: Store, t: Store, b: Block, txs: seq<SignedTx>)
    requires Listed(b, txs) && t.txs == InsertTxs(s.txs, b.header.number, txs)
    ensures LookupTxs(t, b.header.number, b.txHashes) == txs
  {
    forall j | 0 <= j < |txs|
      ensures (b.header.number, txs[j].hash) in t.txs && t.txs[(b.header.number, txs[j].hash)] == txs[j]
    {
      LaterHashesDiffer(txs, j);
      InsertedTx(s.txs, b.header.number, txs, j);
    }
    LookupStored(t, b.header.number, txs);
  }

  lemma SavedBody(env: Env, s: Store, t: Store, b: Block, txs: seq<SignedTx>, resp: ExecResp)
    requires BodyShape(b, txs, resp)
    requires t.txs == InsertTxs(s.txs, b.header.number, txs)
    requires t.receipts == InsertReceipts(s.receipts, b.header.number, Receipts(env, b, txs, resp))
    ensures BodyStored(env, t, b, txs, resp)
  {
    var n, rs := b.header.number, Receipts(env, b, txs, resp);
    assert ReceiptHashes(rs) == TxHashes(txs);
    SavedTxs(s, t, b, txs);
    forall j | 0 <= j < |txs|
      ensures (n, rs[j].txHash) in t.receipts && t.receipts[(n, rs[j].txHash)] == rs[j]
    {
      LaterHashesDiffer(txs, j);
      InsertedReceipt(s.receipts, n, rs, j);
    }
    LookupStoredReceipts(t, n, rs);
  }

  lemma {:induction false} LookupFrame(s: Store, t: Store, m: nat, n: nat, hashes: seq<Hash>)
    requires SameBelow(s, t, m) && n < m
    ensures LookupTxs(s, n, hashes) == LookupTxs(t, n, hashes)
    ensures LookupReceipts(s, n, hashes) == LookupReceipts(t, n, hashes)
  {
    if hashes != [] {
      assert (n, hashes[0]) in s.txs <==> (n, hashes[0]) in t.txs;
      assert (n, hashes[0]) in s.receipts <==> (n, hashes[0]) in t.receipts;
      LookupFrame(s, t, m, n, hashes[1..]);
    }
  }

  // ---------------------------------------------------------------- what the engine leaves behind

  /** Block i of the source store was built by `update_status` from the result of executing on `root`. */
  ghost predicate Built(env: Env, src: Store, root: Hash, i: nat, txs: seq<SignedTx>, resp: ExecResp) {
    && i > 0 && i in src.blocks && i - 1 in src.blocks
    && HeaderAt(src, i) == Some(src.blocks[i].header)
    && src.blocks[i] == NewBlock(env, ProposalOf(src.blocks[i]), resp)
    && src.blocks[i].header.number == i
    && src.blocks[i].header.prevHash == env.headerHash(src.blocks[i - 1].header)
    && env.exec(root, ProposalOf(src.blocks[i]), txs) == Some(resp)
    && env.digestTxs(txs) == src.blocks[i].header.signedTxsHash
    && BodyStored(env, src, src.blocks[i], txs, resp)
    && BodyShape(src.blocks[i], txs, resp)
    && ProofCheck(env, src.blocks[i - 1], src.blocks[i].header.proof).Ok?
  }

  ghost predicate BuiltOn(env: Env, src: Store, root: Hash, i: nat) {
    exists txs, resp :: Built(env, src, root, i, txs, resp)
  }

  ghost function SourceRoot(src: Store, from: nat, root: Hash, i: nat): Hash {
    if i <= from || i !in src.blocks then root else src.blocks[i].header.stateRoot
  }

  ghost predicate BuiltAt(env: Env, src: Store, from: nat, root: Hash, i: nat)
    requires i > 0
  {
    BuiltOn(env, src, SourceRoot(src, from, root, i - 1), i)
  }

  /** Every block after `from` up to `to` was built by the engine, and the newest one is proved. */
  ghost predicate BuiltChain(env: Env, src: Store, from: nat, root: Hash, to: nat) {
    && from <= to && from in src.blocks && to in src.blocks
    && (forall i :: from < i <= to ==> BuiltAt(env, src, from, root, i))
    && (from < to ==>
          src.latestProof.Some? && src.latestProof.value.number == to &&
          ProofCheck(env, src.blocks[to], src.latestProof.value).Ok?)
  }

  /** A commit that succeeds at the next height, on content that extends the published block and proves it. */
  ghost predicate GoodCommit(env: Env, s: NodeState, c: CommitInput) {
    && Executed(env, s, c) && CommitNext(env, s, c).1.Ok?
    && c.content.number == c.height == c.proof.number
    && c.content.prevHash == s.status.prevHash
    && s.status.lastNumber in s.store.blocks
    && ProofCheck(env, s.store.blocks[s.status.lastNumber], c.content.proof).Ok?
    && env.digestTxs(c.txs.value) == c.content.signedTxsHash
    && var resp := env.exec(s.status.lastStateRoot, c.content, c.txs.value).value;
       && BodyShape(NewBlock(env, c.content, resp), c.txs.value, resp)
       && ProofCheck(env, NewBlock(env, c.content, resp), c.proof).Ok?
  }

  function CommitAll(env: Env, s: NodeState, cs: seq<CommitInput>): NodeState {
    if cs == [] then s else CommitNext(env, CommitAll(env, s, cs[..|cs| - 1]), cs[|cs| - 1]).0
  }

  ghost predicate GoodCommits(env: Env, s: NodeState, cs: seq<CommitInput>) {
    forall i :: 0 <= i < |cs| ==> GoodCommit(env, CommitAll(env, s, cs[..i]), cs[i])
  }

  /** The status of an engine node describes the block it published. */
  ghost predicate Published(env: Env, s: NodeState) {
    && s.status.lastNumber in s.store.blocks
    && HeaderAt(s.store, s.status.lastNumber) == Some(s.store.blocks[s.status.lastNumber].header)
    && s.status.prevHash == env.headerHash(s.store.blocks[s.status.lastNumber].header)
  }

  lemma CommitBuilds(env: Env, s: NodeState, c: CommitInput)
    requires Published(env, s) && GoodCommit(env, s, c)
    ensures
      var t := CommitNext(env, s, c).0;
      var resp := env.exec(s.status.lastStateRoot, c.content, c.txs.value).value;
      && Published(env, t) && t.status.lastNumber == s.status.lastNumber + 1
      && Built(env, t.store, s.status.lastStateRoot, c.height, c.txs.value, resp)
      && t.status.lastStateRoot == t.store.blocks[c.height].header.stateRoot
      && t.status.baseFeePerGas == t.store.blocks[c.height].header.baseFeePerGas
      && t.store.latestProof == Some(c.proof)
      && ProofCheck(env, t.store.blocks[c.height], c.proof).Ok?
  {
    var resp := env.exec(s.status.lastStateRoot, c.content, c.txs.value).value;
    var b := NewBlock(env, c.content, resp);
    assert ProposalOf(b) == c.content;
    var store1 := Apply(s.store, PutProof(c.proof));
    var body := BodyWrites(b.header.number, c.txs.value, Receipts(env, b, c.txs.value, resp));
    var t := CommitNext(env, s, c).0;
    assert t.store == Replay(store1, body + BlockWrites(env, b));
    SavedBlock(env, store1, body, b);
    ReplayBody(store1, b.header.number, c.txs.value, Receipts(env, b, c.txs.value, resp));
    SavedBody(env, store1, t.store, b, c.txs.value, resp);
    CommitFrame(env, s, c);
    assert BlockAt(s.store, s.status.lastNumber) == BlockAt(t.store, s.status.lastNumber);
  }

  lemma BuiltFrame(env: Env, s: Store, t: Store, root: Hash, i: nat, n: nat)
    requires SameBelow(s, t, n) && 0 < i < n && BuiltOn(env, s, root, i)
    ensures BuiltOn(env, t, root, i)
  {
    var txs, resp :| Built(env, s, root, i, txs, resp);
    assert BlockAt(s, i) == BlockAt(t, i) && BlockAt(s, i - 1) == BlockAt(t, i - 1) && HeaderAt(s, i) == HeaderAt(t, i);
    LookupFrame(s, t, n, i, s.blocks[i].txHashes);
    assert Built(env, t, root, i, txs, resp);
  }

  /** An engine node t that started from height `from`, root `root` and store `origin`. */
  ghost predicate GrownFrom(env: Env, from: nat, root: Hash, origin: Store, t: NodeState) {
    && Published(env, t)
    && BuiltChain(env, t.store, from, root, t.status.lastNumber)
    && t.status.lastStateRoot == SourceRoot(t.store, from, root, t.status.lastNumber)
    && SameBelow(origin, t.store, from + 1)
    && (t.status.lastNumber > from ==>
          t.status.baseFeePerGas == t.store.blocks[t.status.lastNumber].header.baseFeePerGas)
  }

  lemma CommitGrows(env: Env, from: nat, root: Hash, origin: Store, s: NodeState, c: CommitInput)
    requires GrownFrom(env, from, root, origin, s) && GoodCommit(env, s, c)
    ensures GrownFrom(env, from, root, origin, CommitNext(env, s, c).0)
    ensures CommitNext(env, s, c).0.status.lastNumber == s.status.lastNumber + 1
  {
    hide CommitNext, Built, ProofCheck, SameBelow;
    var t := CommitNext(env, s, c).0;
    var n := s.status.lastNumber;
    CommitBuilds(env, s, c);
    CommitFrame(env, s, c);
    SameBelowShrink(s.store, t.store, n + 1, from + 1);
    SameBelowTrans(origin, s.store, t.store, from + 1);
    SameBelowAt(s.store, t.store, n + 1, from);
    forall i | from < i <= n + 1
      ensures BuiltAt(env, t.store, from, root, i)
    {
      SameBelowAt(s.store, t.store, n + 1, i - 1);
      if i <= n {
        assert BuiltAt(env, s.store, from, root, i);
        BuiltFrame(env, s.store, t.store, SourceRoot(s.store, from, root, i - 1), i, n + 1);
      }
    }
  }

  lemma GrownStart(env: Env, s: NodeState)
    requires Published(env, s)
    ensures GrownFrom(env, s.status.lastNumber, s.status.lastStateRoot, s.store, s)
  {
  }

  lemma {:induction false} CommitsGrow(env: Env, s: NodeState, cs: seq<CommitInput>)
    requires Published(env, s) && GoodCommits(env, s, cs)
    ensures GrownFrom(env, s.status.lastNumber, s.status.lastStateRoot, s.store, CommitAll(env, s, cs))
    ensures CommitAll(env, s, cs).status.lastNumber == s.status.lastNumber + |cs|
  {
    hide GrownFrom, GoodCommit, CommitNext, Published;
    if cs == [] {
      GrownStart(env, s);
    } else {
      var front, c := cs[..|cs| - 1], cs[|cs| - 1];
      forall i | 0 <= i < |front|
        ensures GoodCommit(env, CommitAll(env, s, front[..i]), front[i])
      {
        assert front[..i] == cs[..i];
      }
      CommitsGrow(env, s, front);
      CommitGrows(env, s.status.lastNumber, s.status.lastStateRoot, s.store, CommitAll(env, s, front), c);
    }
  }

  // ---------------------------------------------------------------- the syncing side

  /** A status and store that stand exactly where the source stood at height m. */
  ghost predicate InStep(env: Env, src: Store, root: Hash, m: nat, s: SyncState) {
    && s.agent.lastNumber == m && s.agent.lastStateRoot == root
    && m in src.blocks && BlockAt(s.store, m) == Some(src.blocks[m])
    && HeaderAt(s.store, m) == Some(src.blocks[m].header)
    && s.agent.prevHash == env.headerHash(src.blocks[m].header)
  }

  /** The stores answer alike at height i. */
  ghost predicate SameAt(src: Store, s: Store, i: nat) {
    && i in src.blocks && BlockAt(s, i) == Some(src.blocks[i]) && HeaderAt(s, i) == Some(src.blocks[i].header)
    && LookupTxs(s, i, src.blocks[i].txHashes) == LookupTxs(src, i, src.blocks[i].txHashes)
    && LookupReceipts(s, i, src.blocks[i].txHashes) == LookupReceipts(src, i, src.blocks[i].txHashes)
  }

  /** From s at height lo, t has taken over the source's blocks up to hi. */
  ghost predicate CaughtUp(env: Env, src: Store, from: nat, root: Hash, s: SyncState, t: SyncState, lo: nat, hi: nat) {
    && InStep(env, src, SourceRoot(src, from, root, hi), hi, t)
    && t.agent.baseFeePerGas == src.blocks[hi].header.baseFeePerGas
    && SameBelow(s.store, t.store, lo + 1)
    && (forall i :: lo < i <= hi ==> SameAt(src, t.store, i))
  }

  lemma SameAtFrame(src: Store, s: Store, t: Store, i: nat, n: nat)
    requires SameAt(src, s, i) && SameBelow(s, t, n) && i < n
    ensures SameAt(src, t, i)
  {
    assert BlockAt(s, i) == BlockAt(t, i) && HeaderAt(s, i) == HeaderAt(t, i);
    LookupFrame(s, t, n, i, src.blocks[i].txHashes);
  }

  lemma CaughtUpTrans(env: Env, src: Store, from: nat, root: Hash, s: SyncState, m: SyncState, t: SyncState,
      lo: nat, mid: nat, hi: nat)
    requires lo <= mid <= hi
    requires CaughtUp(env, src, from, root, s, m, lo, mid) && CaughtUp(env, src, from, root, m, t, mid, hi)
    ensures CaughtUp(env, src, from, root, s, t, lo, hi)
  {
    forall i | lo < i <= hi
      ensures SameAt(src, t.store, i)
    {
      if i <= mid {
        SameAtFrame(src, m.store, t.store, i, mid + 1);
      }
    }
    SameBelowShrink(m.store, t.store, mid + 1, lo + 1);
    SameBelowTrans(s.store, m.store, t.store, lo + 1);
  }

  /** The proof the source serves for any of its blocks proves that block. */
  lemma ServedProofOk(env: Env, src: Store, from: nat, root: Hash, to: nat, i: nat)
    requires BuiltChain(env, src, from, root, to) && from < i <= to
    ensures i in src.blocks && ServedProof(src, i).Some?
    ensures ProofCheck(env, src.blocks[i], ServedProof(src, i).value).Ok?
  {
    assert BuiltAt(env, src, from, root, i);
    if i < to {
      assert BuiltAt(env, src, from, root, i + 1);
    }
  }

  /** The source's block passes every check on the syncing side. */
  lemma SourceBlockAccepted(env: Env, src: Store, from: nat, root: Hash, to: nat, s: SyncState, i: nat, chunk: nat,
      txs: seq<SignedTx>, resp: ExecResp)
    requires BuiltChain(env, src, from, root, to) && from < i <= to && chunk > 0
    requires Built(env, src, SourceRoot(src, from, root, i - 1), i, txs, resp)
    requires InStep(env, src, SourceRoot(src, from, root, i - 1), i - 1, s)
    ensures FetchRich(ServedBy(src), i, chunk) == Ok(RichBlock(src.blocks[i], txs))
    ensures ServedProof(src, i).Some?
    ensures BlockCheck(env, s.store, RichBlock(src.blocks[i], txs), ServedBy(src)) == Ok(ServedProof(src, i).value)
  {
    hide BuiltChain, ProofCheck, BodyShape, FetchTxs, LookupTxs;
    ChunksConcatenate(src, i, src.blocks[i].txHashes, chunk);
    ServedProofOk(env, src, from, root, to, i);
    assert ServedBy(src).proof(i) == ServedProof(src, i);
  }

  lemma AcceptedBlockWrites(env: Env, src: Store, s: SyncState, i: nat, proof: Proof, txs: seq<SignedTx>,
      resp: ExecResp, fault: Fault)
    requires Built(env, src, s.agent.lastStateRoot, i, txs, resp) && NoFault(fault)
    ensures
      var b := src.blocks[i];
      CommitBlockNext(env, s, RichBlock(b, txs), proof, fault) ==
      (SyncState(Replay(s.store, SyncWrites(env, b, txs, resp)), SyncedStatus(env, b, b.header.stateRoot, proof)),
       Ok(()))
  {
    hide Replay, Receipts, SyncedStatus;
  }

  /** Saving it leaves exactly the source's data at that height. */
  lemma AcceptedBlockSaved(env: Env, src: Store, s: SyncState, i: nat, proof: Proof, txs: seq<SignedTx>,
      resp: ExecResp, fault: Fault)
    requires Built(env, src, s.agent.lastStateRoot, i, txs, resp) && NoFault(fault)
    ensures
      var (t, r) := CommitBlockNext(env, s, RichBlock(src.blocks[i], txs), proof, fault);
      && r.Ok? && SameAt(src, t.store, i) && SameBelow(s.store, t.store, i)
      && t.agent == SyncedStatus(env, src.blocks[i], src.blocks[i].header.stateRoot, proof)
  {
    hide CommitBlockNext, SameBelow, Receipts;
    var b := src.blocks[i];
    var body := BodyWrites(i, txs, Receipts(env, b, txs, resp));
    var t := CommitBlockNext(env, s, RichBlock(b, txs), proof, fault).0;
    AcceptedBlockWrites(env, src, s, i, proof, txs, resp, fault);
    SavedBlock(env, s.store, body + [PutProof(b.header.proof)], b);
    ReplayStep(s.store, body, PutProof(b.header.proof));
    ReplayBody(s.store, i, txs, Receipts(env, b, txs, resp));
    SavedBody(env, s.store, t.store, b, txs, resp);
    CommitWritesAtHeight(env, b, txs, resp);
    ReplayFrame(s.store, SyncWrites(env, b, txs, resp), i);
  }

  lemma SyncOneReplays(env: Env, src: Store, from: nat, root: Hash, to: nat, s: SyncState, i: nat, chunk: nat,
      fault: Fault)
    requires BuiltChain(env, src, from, root, to) && from < i <= to
    requires chunk > 0 && NoFault(fault)
    requires InStep(env, src, SourceRoot(src, from, root, i - 1), i - 1, s)
    ensures SyncOne(env, s, i, ServedBy(src), chunk, fault).1.Ok?
    ensures CaughtUp(env, src, from, root, s, SyncOne(env, s, i, ServedBy(src), chunk, fault).0, i - 1, i)
  {
    hide BlockCheck, FetchRich, CommitBlockNext, ProofCheck, ServedProof, ServedBy;
    assert BuiltAt(env, src, from, root, i);
    var txs, resp :| Built(env, src, SourceRoot(src, from, root, i - 1), i, txs, resp);
    SourceBlockAccepted(env, src, from, root, to, s, i, chunk, txs, resp);
    AcceptedBlockSaved(env, src, s, i, ServedProof(src, i).value, txs, resp, fault);
  }

  lemma {:induction false} SyncLoopReplays(env: Env, src: Store, from: nat, root: Hash, to: nat, s: SyncState,
      current: nat, target: nat, chunk: nat, faults: Faults)
    requires BuiltChain(env, src, from, root, to) && from <= current < target <= to
    requires chunk > 0 && forall n :: NoFault(faults(n))
    requires InStep(env, src, SourceRoot(src, from, root, current), current, s)
    ensures SyncLoop(env, s, current, target, ServedBy(src), chunk, faults).1.Ok?
    ensures CaughtUp(env, src, from, root, s, SyncLoop(env, s, current, target, ServedBy(src), chunk, faults).0,
                     current, target)
    decreases target - current
  {
    var i := current + 1;
    SyncOneReplays(env, src, from, root, to, s, i, chunk, faults(i));
    var m := SyncOne(env, s, i, ServedBy(src), chunk, faults(i)).0;
    assert SyncLoop(env, s, current, target, ServedBy(src), chunk, faults) ==
           SyncLoop(env, m, i, target, ServedBy(src), chunk, faults);
    if i < target {
      SyncLoopReplays(env, src, from, root, to, m, i, target, chunk, faults);
      CaughtUpTrans(env, src, from, root, s, m, SyncLoop(env, m, i, target, ServedBy(src), chunk, faults).0,
                    current, i, target);
    }
  }

  /** Repeated announcements of the source's height, each syncing at most fifty blocks. */
  ghost function ReceiveMany(env: Env, s: NodeState, remote: Remote, n: nat, chunk: nat, faults: Faults,
      rounds: nat): NodeState
    requires chunk > 0
    decreases rounds
  {
    if rounds == 0 then s
    else ReceiveMany(env, ReceiveNext(env, s, remote, n, chunk, faults).0, remote, n, chunk, faults, rounds - 1)
  }

  function View(s: NodeState): SyncState {
    SyncState(s.store, s.status)
  }

  lemma ReceiveReplays(env: Env, src: Store, from: nat, root: Hash, to: nat, s: NodeState, chunk: nat,
      faults: Faults)
    requires BuiltChain(env, src, from, root, to) && from <= s.status.lastNumber < to
    requires chunk > 0 && (forall n :: NoFault(faults(n))) && s.session.None?
    requires InStep(env, src, SourceRoot(src, from, root, s.status.lastNumber), s.status.lastNumber, View(s))
    ensures ReceiveNext(env, s, ServedBy(src), to, chunk, faults).1.Ok?
    ensures ReceiveNext(env, s, ServedBy(src), to, chunk, faults).0.session.None?
    ensures CaughtUp(env, src, from, root, View(s), View(ReceiveNext(env, s, ServedBy(src), to, chunk, faults).0),
                     s.status.lastNumber, SyncTarget(s.status.lastNumber, to))
  {
    var n := s.status.lastNumber;
    assert BuiltAt(env, src, from, root, to);
    assert NeedSync(s, ServedBy(src), to) == Ok(true);
    SyncLoopReplays(env, src, from, root, to, View(s), n, SyncTarget(n, to), chunk, faults);
  }

  lemma {:induction false} ReceiveManyReplays(env: Env, src: Store, from: nat, root: Hash, to: nat, s: NodeState,
      chunk: nat, faults: Faults, rounds: nat)
    requires BuiltChain(env, src, from, root, to) && from <= s.status.lastNumber < to
    requires chunk > 0 && (forall n :: NoFault(faults(n))) && s.session.None?
    requires InStep(env, src, SourceRoot(src, from, root, s.status.lastNumber), s.status.lastNumber, View(s))
    requires to - s.status.lastNumber <= rounds * ONCE_SYNC_BLOCK_LIMIT
    ensures CaughtUp(env, src, from, root, View(s), View(ReceiveMany(env, s, ServedBy(src), to, chunk, faults, rounds)),
                     s.status.lastNumber, to)
    decreases rounds
  {
    hide ReceiveNext, BuiltChain, ServedBy;
    var n := s.status.lastNumber;
    ReceiveReplays(env, src, from, root, to, s, chunk, faults);
    var m := ReceiveNext(env, s, ServedBy(src), to, chunk, faults).0;
    var t := ReceiveMany(env, s, ServedBy(src), to, chunk, faults, rounds);
    assert t == ReceiveMany(env, m, ServedBy(src), to, chunk, faults, rounds - 1);
    if m.status.lastNumber == to {
      ReceiveIdle(env, m, ServedBy(src), to, chunk, faults, rounds - 1);
    } else {
      ReceiveManyReplays(env, src, from, root, to, m, chunk, faults, rounds - 1);
      CaughtUpTrans(env, src, from, root, View(s), View(m), View(t), n, m.status.lastNumber, to);
    }
  }

  lemma {:induction false} ReceiveIdle(env: Env, s: NodeState, remote: Remote, n: nat, chunk: nat,
      faults: Faults, rounds: nat)
    requires chunk > 0 && s.status.lastNumber == n
    ensures ReceiveMany(env, s, remote, n, chunk, faults, rounds) == s
    decreases rounds
  {
    if rounds > 0 {
      assert ReceiveNext(env, s, remote, n, chunk, faults).0 == s;
      ReceiveIdle(env, s, remote, n, chunk, faults, rounds - 1);
    }
  }

  /** Sync replays consensus. Node a commits through the engine; node b, standing where a stood before,
      syncs from a's store, whatever the chunk size, and arrives at the same chain and status. */
  lemma SyncReplaysConsensus(env: Env, a: NodeState, cs: seq<CommitInput>, b: NodeState, chunk: nat,
      faults: Faults, rounds: nat)
    requires Published(env, a) && GoodCommits(env, a, cs) && |cs| > 0
    requires InStep(env, a.store, a.status.lastStateRoot, a.status.lastNumber, View(b))
    requires b.session.None? && chunk > 0 && forall n :: NoFault(faults(n))
    requires |cs| <= rounds * ONCE_SYNC_BLOCK_LIMIT
    ensures
      var a' := CommitAll(env, a, cs);
      var b' := ReceiveMany(env, b, ServedBy(a'.store), a'.status.lastNumber, chunk, faults, rounds);
      && b'.status.prevHash == a'.status.prevHash
      && b'.status.lastNumber == a'.status.lastNumber == a.status.lastNumber + |cs|
      && b'.status.lastStateRoot == a'.status.lastStateRoot
      && b'.status.baseFeePerGas == a'.status.baseFeePerGas
      && (forall i :: a.status.lastNumber < i <= a'.status.lastNumber ==> SameAt(a'.store, b'.store, i))
  {
    CommitsGrow(env, a, cs);
    var a' := CommitAll(env, a, cs);
    assert BlockAt(a.store, a.status.lastNumber) == BlockAt(a'.store, a.status.lastNumber);
    ReceiveManyReplays(env, a'.store, a.status.lastNumber, a.status.lastStateRoot, a'.status.lastNumber, b, chunk,
                       faults, rounds);
  }
}

/** What a finished commit, of consensus or of synchronization, leaves in the store and in the status, field by
    field. */
module StoredBlocks {
  import opened ChainTypes
  import opened ChainStore
  import opened Quorum
  import opened NodeSpec
  import opened NodeSafety
  import opened SyncReplay

  /** The header takes over every field of the proposal. */
  ghost predicate Carries(b: Block, p: Proposal) {
    var h := b.header;
    && h.prevHash == p.prevHash && h.proposer == p.proposer && h.transactionsRoot == p.transactionsRoot
    && h.signedTxsHash == p.signedTxsHash && h.timestamp == p.timestamp && h.number == p.number
    && h.gasLimit == p.gasLimit && h.extraData == p.extraData && h.mixedHash == p.mixedHash
    && h.baseFeePerGas == p.baseFeePerGas && h.proof == p.proof && h.chainId == p.chainId
    && h.lastCheckpointBlockHash == p.lastCheckpointBlockHash && b.txHashes == p.txHashes
  }

  /** The bloom of a block is that of the blooms of its responses' logs, in order. */
  ghost predicate BloomOf(env: Env, bloom: nat, resps: seq<TxResp>) {
    exists blooms :: LogBlooms(env, blooms, resps) && bloom == env.logsBloom(blooms)
  }

  ghost predicate LogBlooms(env: Env, blooms: seq<nat>, resps: seq<TxResp>) {
    |blooms| == |resps| && forall j :: 0 <= j < |resps| ==> blooms[j] == env.logsBloom(resps[j].logs)
  }

  /** The rest comes from the response. */
  ghost predicate Results(env: Env, h: Header, resp: ExecResp) {
    && h.stateRoot == resp.stateRoot && h.receiptsRoot == resp.receiptRoot && h.gasUsed == resp.gasUsed
    && h.difficulty == 1 && h.nonce == 0 && BloomOf(env, h.logBloom, resp.txResp)
  }

  /** The receipt of transaction j of block b. */
  ghost predicate ReceiptOf(env: Env, r: Receipt, b: Block, tx: SignedTx, j: nat, resp: TxResp) {
    && r.txHash == tx.hash && r.sender == tx.sender && r.txIndex == j
    && r.blockNumber == b.header.number && r.blockHash == env.headerHash(b.header)
    && r.stateRoot == b.header.stateRoot && r.usedGas == resp.gasUsed && r.ret == resp.exitReason
    && r.logs == resp.logs && r.logsBloom == env.logsBloom(resp.logs) && r.codeAddress == resp.codeAddress
  }

  /** No later transaction has the hash of transaction j. */
  ghost predicate LastWithHash(txs: seq<SignedTx>, j: nat)
    requires j < |txs|
  {
    forall k :: j < k < |txs| ==> txs[k].hash != txs[j].hash
  }

  /** Every transaction is stored at height n, and its receipt if it has a response. Of several with one hash the
      last is stored. */
  ghost predicate BodyAt(env: Env, t: Store, n: nat, b: Block, txs: seq<SignedTx>, resps: seq<TxResp>) {
    forall j :: 0 <= j < |txs| && LastWithHash(txs, j) ==>
      && (n, txs[j].hash) in t.txs && t.txs[(n, txs[j].hash)] == txs[j]
      && (j < |resps| ==>
            && (n, txs[j].hash) in t.receipts
            && ReceiptOf(env, t.receipts[(n, txs[j].hash)], b, txs[j], j, resps[j]))
  }

  /** The body is at the block's height, and every transaction is recorded with that height. */
  ghost predicate BodySaved(env: Env, t: Store, b: Block, txs: seq<SignedTx>, resps: seq<TxResp>) {
    && BodyAt(env, t, b.header.number, b, txs, resps)
    && (forall j :: 0 <= j < |txs| ==> txs[j].hash in t.txNumbers && t.txNumbers[txs[j].hash] == b.header.number)
  }

  lemma BodyAtFrame(env: Env, s: Store, t: Store, n: nat, m: nat, b: Block, txs: seq<SignedTx>, resps: seq<TxResp>)
    requires SameBelow(s, t, m) && n < m && BodyAt(env, s, n, b, txs, resps)
    ensures BodyAt(env, t, n, b, txs, resps)
  {
    forall j | 0 <= j < |txs| && LastWithHash(txs, j)
      ensures (n, txs[j].hash) in t.txs && t.txs[(n, txs[j].hash)] == txs[j]
      ensures j < |resps| ==> (n, txs[j].hash) in t.receipts &&
                              t.receipts[(n, txs[j].hash)] == s.receipts[(n, txs[j].hash)]
    {
    }
  }

  /** A listed body is what a lookup gives. */
  lemma BodyLookup(env: Env, t: Store, n: nat, b: Block, txs: seq<SignedTx>, resps: seq<TxResp>)
    requires BodyAt(env, t, n, b, txs, resps) && Listed(b, txs)
    ensures LookupTxs(t, n, b.txHashes) == txs
  {
    forall j | 0 <= j < |txs|
      ensures (n, txs[j].hash) in t.txs && t.txs[(n, txs[j].hash)] == txs[j]
    {
      LaterHashesDiffer(txs, j);
    }
    LookupStored(t, n, txs);
  }

  ghost predicate BlockSaved(env: Env, t: Store, b: Block) {
    && b.header.number in t.blocks && t.blocks[b.header.number] == b
    && b.header.number in t.headers && t.headers[b.header.number] == b.header
    && env.headerHash(b.header) in t.blockNumbers && t.blockNumbers[env.headerHash(b.header)] == b.header.number
    && t.latestBlock == Some(b)
  }

  /** The status describes the block and its proof. */
  ghost predicate Describes(env: Env, st: CurrentStatus, b: Block, proof: Proof) {
    && st.prevHash == env.headerHash(b.header) && st.lastNumber == b.header.number
    && st.lastStateRoot == b.header.stateRoot && st.baseFeePerGas == b.header.baseFeePerGas && st.proof == proof
  }

  lemma {:induction false} InsertedNumber(m: map<Hash, nat>, n: nat, hashes: seq<Hash>, h: Hash)
    requires h in hashes || (h in m && m[h] == n)
    ensures h in InsertNumbers(m, n, hashes) && InsertNumbers(m, n, hashes)[h] == n
  {
    if hashes != [] {
      var last := |hashes| - 1;
      if h != hashes[last] {
        assert h in hashes ==> h in hashes[..last];
        InsertedNumber(m, n, hashes[..last], h);
      }
    }
  }

  /** The body writes of a block whose receipts were generated from the responses. */
  lemma BodyWritesSave(env: Env, s: Store, b: Block, txs: seq<SignedTx>, resp: ExecResp)
    ensures
      var t := Replay(s, BodyWrites(b.header.number, txs, Receipts(env, b, txs, resp)));
      BodySaved(env, t, b, txs, resp.txResp)
  {
    var n, rs := b.header.number, Receipts(env, b, txs, resp);
    ReplayBody(s, n, txs, rs);
    hide Replay, BodyWrites, Receipts, InsertTxs, InsertReceipts, InsertNumbers, ReceiptOf;
    forall j | 0 <= j < |txs|
      ensures
        var numbers := InsertNumbers(InsertNumbers(s.txNumbers, n, TxHashes(txs)), n, ReceiptHashes(rs));
        txs[j].hash in numbers && numbers[txs[j].hash] == n
    {
      assert TxHashes(txs)[j] == txs[j].hash;
      InsertedNumber(s.txNumbers, n, TxHashes(txs), txs[j].hash);
      InsertedNumber(InsertNumbers(s.txNumbers, n, TxHashes(txs)), n, ReceiptHashes(rs), txs[j].hash);
    }
    forall j | 0 <= j < |txs| && LastWithHash(txs, j)
      ensures
        var at, m := (n, txs[j].hash), InsertReceipts(s.receipts, n, rs);
        && at in InsertTxs(s.txs, n, txs) && InsertTxs(s.txs, n, txs)[at] == txs[j]
        && (j < |resp.txResp| ==> at in m && ReceiptOf(env, m[at], b, txs[j], j, resp.txResp[j]))
    {
      InsertedTx(s.txs, n, txs, j);
      if j < |resp.txResp| {
        ReceiptAt(env, b, txs, resp, j);
        InsertedReceipt(s.receipts, n, rs, j);
      }
    }
  }

  /** Receipt j is that of transaction and response j, and as last as its transaction. */
  lemma ReceiptAt(env: Env, b: Block, txs: seq<SignedTx>, resp: ExecResp, j: nat)
    requires j < |txs| && j < |resp.txResp| && LastWithHash(txs, j)
    ensures
      var rs := Receipts(env, b, txs, resp);
      && j < |rs| && ReceiptOf(env, rs[j], b, txs[j], j, resp.txResp[j]) && rs[j].txHash == txs[j].hash
      && forall k :: j < k < |rs| ==> rs[k].txHash != rs[j].txHash
  {
  }

  /** Later writes of proof, block, header and numbers do not touch the body. */
  lemma BodyKept(env: Env, s: Store, t: Store, b: Block, txs: seq<SignedTx>, resps: seq<TxResp>)
    requires BodySaved(env, s, b, txs, resps)
    requires t.txs == s.txs && t.receipts == s.receipts && t.txNumbers == s.txNumbers
    ensures BodySaved(env, t, b, txs, resps)
  {
  }

  lemma WritesSave(env: Env, s: Store, mid: seq<Write>, b: Block, txs: seq<SignedTx>, resp: ExecResp)
    requires mid == [] || exists p :: mid == [PutProof(p)]
    ensures
      var body := BodyWrites(b.header.number, txs, Receipts(env, b, txs, resp));
      var t := Replay(s, body + mid + BlockWrites(env, b));
      && BodySaved(env, t, b, txs, resp.txResp) && BlockSaved(env, t, b)
      && t.latestProof == if mid == [] then s.latestProof else Some(mid[0].proof)
  {
    var body := BodyWrites(b.header.number, txs, Receipts(env, b, txs, resp));
    var s1 := Replay(s, body);
    var s2 := Replay(s, body + mid);
    ReplayBody(s, b.header.number, txs, Receipts(env, b, txs, resp));
    if mid == [] {
      assert body + mid == body;
    } else {
      ReplayStep(s, body, mid[0]);
    }
    assert s2.txs == s1.txs && s2.receipts == s1.receipts && s2.txNumbers == s1.txNumbers;
    ReplayConcat(s, body + mid, BlockWrites(env, b));
    ReplayBlock(env, s2, b);
    BodyWritesSave(env, s, b, txs, resp);
    BodyKept(env, s1, Replay(s, body + mid + BlockWrites(env, b)), b, txs, resp.txResp);
  }

  /** The executed block is stored with its body and described by the status, whose limits and checkpoint stay what they
      were. */
  ghost predicate CommitStored(env: Env, s: NodeState, c: CommitInput, t: NodeState) {
    && Executed(env, s, c) && c.content.number in t.store.blocks
    && var resp := env.exec(s.status.lastStateRoot, c.content, c.txs.value).value;
    var b := t.store.blocks[c.content.number];
    && Carries(b, c.content) && Results(env, b.header, resp) && BlockSaved(env, t.store, b)
    && BodySaved(env, t.store, b, c.txs.value, resp.txResp)
    && t.store.latestProof == Some(c.proof) && Describes(env, t.status, b, c.proof)
    && t.status.txNumLimit == s.status.txNumLimit && t.status.gasLimit == s.status.gasLimit
    && t.status.maxTxSize == s.status.maxTxSize
    && t.status.lastCheckpointBlockHash == s.status.lastCheckpointBlockHash
  }

  lemma CommitStores(env: Env, s: NodeState, c: CommitInput)
    requires CommitNext(env, s, c).0.status != s.status
    ensures CommitStored(env, s, c, CommitNext(env, s, c).0)
  {
    hide BodySaved;
    var store1 := Apply(s.store, PutProof(c.proof));
    var resp := env.exec(s.status.lastStateRoot, c.content, c.txs.value).value;
    var b := NewBlock(env, c.content, resp);
    var body := BodyWrites(b.header.number, c.txs.value, Receipts(env, b, c.txs.value, resp));
    assert body + [] + BlockWrites(env, b) == CommitWrites(env, b, c.txs.value, resp);
    assert CommitNext(env, s, c).0.store == Replay(store1, CommitWrites(env, b, c.txs.value, resp));
    WritesSave(env, store1, [], b, c.txs.value, resp);
    NewBlockResults(env, c.content, resp);
  }

  lemma PublishedIsStored(env: Env, s: NodeState, c: CommitInput)
    ensures CommitNext(env, s, c).0.status != s.status ==> CommitStored(env, s, c, CommitNext(env, s, c).0)
  {
    hide CommitNext, CommitStored;
    if CommitNext(env, s, c).0.status != s.status {
      CommitStores(env, s, c);
    }
  }

  /** A commit publishes exactly if it executes, its nine writes succeed and the metadata can be updated. It answers
      exactly if it is a repetition for the published height, or publishes and flush, clean-up and broadcast succeed;
      the answer is the height after the published one. The exemptions are dropped only on the way to the answer. */
  lemma CommitAnswersIff(env: Env, s: NodeState, c: CommitInput)
    requires c.content.number == c.height
    ensures
      var (t, r) := CommitNext(env, s, c);
      var published := Executed(env, s, c) && c.budget >= 9 && c.metadataOk;
      && (t.status != s.status <==> published)
      && (r.Ok? <==>
            s.session.None? &&
            (c.height == s.status.lastNumber || (published && c.flushOk && c.walOk && c.broadcastOk)))
      && (r.Ok? ==> r.value == c.height + 1 == t.status.lastNumber + 1)
      && t.exemption == (if published && c.flushOk && c.walOk then {} else s.exemption)
      && t.session == s.session && t.proposed == s.proposed && t.approved == s.approved
  {
    hide Replay, Apply, Receipts;
  }

  /** A block proposed from a status and committed on it links to that status' block and proof, keeps its base fee and
      checkpoint, and holds what it was proposed with. */
  lemma ProposedThenCommitted(env: Env, s: NodeState, i: ProposalInput, c: CommitInput)
    requires GetBlockNext(env, s, i).1 == Ok(c.content)
    requires CommitNext(env, GetBlockNext(env, s, i).0, c).0.status != s.status
    ensures
      var t := CommitNext(env, GetBlockNext(env, s, i).0, c).0;
      && i.number in t.store.blocks
      && var b := t.store.blocks[i.number];
      && b.header.number == i.number && b.header.prevHash == s.status.prevHash && b.header.proof == s.status.proof
      && b.header.baseFeePerGas == t.status.baseFeePerGas == s.status.baseFeePerGas
      && b.header.lastCheckpointBlockHash == t.status.lastCheckpointBlockHash == s.status.lastCheckpointBlockHash
      && b.txHashes == i.txHashes && b.header.transactionsRoot == env.merkleRoot(i.txHashes)
      && b.header.signedTxsHash == env.digestTxs(i.txs) && b.header.timestamp == i.timestamp
      && b.header.proposer == i.proposer && b.header.chainId == i.chainId
      && b.header.gasLimit == 100_000_000_000 && b.header.extraData == [] && b.header.mixedHash == None
  {
    hide BodySaved, CommitNext;
    CommitStores(env, GetBlockNext(env, s, i).0, c);
  }

  lemma NewBlockResults(env: Env, p: Proposal, resp: ExecResp)
    ensures Carries(NewBlock(env, p, resp), p) && Results(env, NewBlock(env, p, resp).header, resp)
  {
    var blooms := seq<nat>(|resp.txResp|, i requires 0 <= i < |resp.txResp| => env.logsBloom(resp.txResp[i].logs));
    assert LogBlooms(env, blooms, resp.txResp);
    assert NewBlock(env, p, resp).header.logBloom == env.logsBloom(blooms);
  }

  /** A reply of the height asked for is accepted and saved exactly if it links to the session's last block, comes with
      a proof, carries a proof of that last block, lists the digest of its transactions, carries the roots of executing
      them there, and nothing fails. */
  lemma SyncedIff(env: Env, g: Hash, s: SyncState, remote: Remote, chunk: nat, fault: Fault)
    requires chunk > 0 && StatusOk(env, g, s.store, s.agent) && AnswersAsked(remote)
    ensures
      var n := s.agent.lastNumber;
      SyncOne(env, s, n + 1, remote, chunk, fault).1.Ok? <==>
        && FetchRich(remote, n + 1, chunk).Ok? && remote.proof(n + 1).Some?
        && var rich := FetchRich(remote, n + 1, chunk).value;
        && rich.block.header.prevHash == s.agent.prevHash
        && ProofCheck(env, rich.block, remote.proof(n + 1).value).Ok?
        && ProofCheck(env, s.store.blocks[n], rich.block.header.proof).Ok?
        && RootStep(env, s.agent.lastStateRoot, rich.block, rich.txs)
        && fault.budget >= 9 && fault.metadataOk && fault.flushOk
  {
    hide ProofCheck, Replay, Receipts, FetchTxs, ChainOk, SyncedStatus;
  }

  /** The synced block is stored as it came, with the body of its re-execution and the proof in its header; the
      session's status takes the limits and the checkpoint from the metadata of its height. */
  ghost predicate CommitBlockStored(env: Env, s: SyncState, rich: RichBlock, proof: Proof, t: SyncState) {
    var b := rich.block;
    var metadata := env.metadata(b.header.number);
    && env.exec(s.agent.lastStateRoot, ProposalOf(b), rich.txs).Some?
    && var resp := env.exec(s.agent.lastStateRoot, ProposalOf(b), rich.txs).value;
    && Carries(b, ProposalOf(b)) && b.header.stateRoot == resp.stateRoot && b.header.receiptsRoot == resp.receiptRoot
    && BlockSaved(env, t.store, b) && BodySaved(env, t.store, b, rich.txs, resp.txResp)
    && t.store.latestProof == Some(b.header.proof) && Describes(env, t.agent, b, proof)
    && t.agent.txNumLimit == metadata.txNumLimit && t.agent.gasLimit == metadata.gasLimit
    && t.agent.maxTxSize == metadata.maxTxSize
    && t.agent.lastCheckpointBlockHash == metadata.lastCheckpointBlockHash
  }

  lemma CommitBlockStores(env: Env, s: SyncState, rich: RichBlock, proof: Proof, fault: Fault)
    requires CommitBlockNext(env, s, rich, proof, fault).1.Ok?
    ensures CommitBlockStored(env, s, rich, proof, CommitBlockNext(env, s, rich, proof, fault).0)
  {
    hide BodySaved;
    var b := rich.block;
    var resp := env.exec(s.agent.lastStateRoot, ProposalOf(b), rich.txs).value;
    WritesSave(env, s.store, [PutProof(b.header.proof)], b, rich.txs, resp);
  }
}

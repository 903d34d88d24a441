/** What a peer's reply of any height does to a syncing node. `start_sync` asks for one height after the other but
    does not compare the height of a reply with the height it asked for. */
module SyncReplies {
  import opened ChainTypes
  import opened ChainStore
  import opened Quorum
  import opened NodeSpec
  import opened NodeSafety

  /** The number of writes of a synced block before its own record: body and proof. */
  const BODY_WRITES: nat := 5
  const ALL_WRITES: nat := 9

  // ---------------------------------------------------------------- what is written

  lemma ReplayPrefix(s: Store, ws: seq<Write>, k: nat)
    requires k < |ws|
    ensures Replay(s, ws[..k + 1]) == Apply(Replay(s, ws[..k]), ws[k])
  {
    assert ws[..k + 1] == ws[..k] + [ws[k]];
    ReplayStep(s, ws[..k], ws[k]);
  }

  lemma {:induction false} BodyKeepsBlocks(env: Env, s: Store, b: Block, txs: seq<SignedTx>, resp: ExecResp, k: nat)
    requires k <= BODY_WRITES
    ensures
      var t := Replay(s, SyncWrites(env, b, txs, resp)[..k]);
      t.blocks == s.blocks && t.headers == s.headers
  {
    hide Replay, SyncWrites, Apply;
    var ws := SyncWrites(env, b, txs, resp);
    WritesCount(env, b, txs, resp);
    if k == 0 {
      assert ws[..0] == [];
      ReplayNone(s);
    } else {
      BodyKeepsBlocks(env, s, b, txs, resp, k - 1);
      BodyWrite(env, b, txs, resp, k - 1);
      ReplayPrefix(s, ws, k - 1);
      ApplyKeepsBlocks(Replay(s, ws[..k - 1]), ws[k - 1]);
    }
  }

  lemma ApplyKeepsBlocks(s: Store, w: Write)
    requires !w.PutBlock? && !w.PutHeader?
    ensures Apply(s, w).blocks == s.blocks && Apply(s, w).headers == s.headers
  {
  }

  lemma ReplayNone(s: Store)
    ensures Replay(s, []) == s
  {
  }

  lemma BodyWrite(env: Env, b: Block, txs: seq<SignedTx>, resp: ExecResp, k: nat)
    requires k < BODY_WRITES
    ensures !SyncWrites(env, b, txs, resp)[k].PutBlock? && !SyncWrites(env, b, txs, resp)[k].PutHeader?
  {
    hide Receipts;
  }

  /** t is s with the block at b's height replaced by b, and perhaps also the header. */
  ghost predicate Replaced(s: Store, t: Store, b: Block) {
    var m := b.header.number;
    t.blocks == s.blocks[m := b] && (t.headers == s.headers || t.headers == s.headers[m := b.header])
  }

  lemma RecordWrites(env: Env, b: Block, txs: seq<SignedTx>, resp: ExecResp, k: nat)
    requires BODY_WRITES < k < ALL_WRITES
    ensures SyncWrites(env, b, txs, resp)[BODY_WRITES] == PutBlock(b)
    ensures SyncWrites(env, b, txs, resp)[k] == BlockWrites(env, b)[k - BODY_WRITES]
  {
  }

  lemma ApplyReplaced(env: Env, s: Store, t: Store, b: Block, k: nat)
    requires Replaced(s, t, b) && 0 < k < 4
    ensures Replaced(s, Apply(t, BlockWrites(env, b)[k]), b)
  {
    var m := b.header.number;
    assert s.headers[m := b.header][m := b.header] == s.headers[m := b.header];
  }

  lemma {:induction false} RecordReplaces(env: Env, s: Store, b: Block, txs: seq<SignedTx>, resp: ExecResp, k: nat)
    requires BODY_WRITES < k <= ALL_WRITES
    ensures Replaced(s, Replay(s, SyncWrites(env, b, txs, resp)[..k]), b)
  {
    hide Replay, SyncWrites, BlockWrites, Receipts;
    var ws := SyncWrites(env, b, txs, resp);
    WritesCount(env, b, txs, resp);
    ReplayPrefix(s, ws, k - 1);
    if k == BODY_WRITES + 1 {
      RecordWrites(env, b, txs, resp, k);
      BodyKeepsBlocks(env, s, b, txs, resp, BODY_WRITES);
    } else {
      RecordWrites(env, b, txs, resp, k - 1);
      RecordReplaces(env, s, b, txs, resp, k - 1);
      ApplyReplaced(env, s, Replay(s, ws[..k - 1]), b, k - 1 - BODY_WRITES);
    }
  }

  lemma WritesCount(env: Env, b: Block, txs: seq<SignedTx>, resp: ExecResp)
    ensures |SyncWrites(env, b, txs, resp)| == ALL_WRITES && |BlockWrites(env, b)| == 4
  {
  }

  lemma WritesReplace(env: Env, s: Store, b: Block, txs: seq<SignedTx>, resp: ExecResp, budget: nat)
    ensures
      var t := WriteAll(s, SyncWrites(env, b, txs, resp), budget).0;
      && (budget <= BODY_WRITES ==> t.blocks == s.blocks && t.headers == s.headers)
      && (budget > BODY_WRITES ==> Replaced(s, t, b))
  {
    var ws := SyncWrites(env, b, txs, resp);
    var k := if budget < ALL_WRITES then budget else ALL_WRITES;
    assert ws[..ALL_WRITES] == ws;
    if k <= BODY_WRITES {
      BodyKeepsBlocks(env, s, b, txs, resp, k);
    } else {
      RecordReplaces(env, s, b, txs, resp, k);
    }
  }

  // ---------------------------------------------------------------- what is left of a chain

  lemma BlocksFrame(env: Env, g: Hash, s: Store, t: Store, st: CurrentStatus)
    requires t.blocks == s.blocks && t.headers == s.headers
    ensures StatusOk(env, g, t, st) <==> StatusOk(env, g, s, st)
  {
    forall i | 0 < i <= st.lastNumber
      ensures LinkOk(env, g, t, i) <==> LinkOk(env, g, s, i)
    {
    }
  }

  /** The reply carries the header hash of the block it overwrites. */
  predicate SameHeader(env: Env, s: Store, b: Block) {
    b.header.number in s.blocks && env.headerHash(b.header) == env.headerHash(s.blocks[b.header.number].header)
  }

  /** Executed where it is stored, the reply gives its own roots. */
  ghost predicate RunsThere(env: Env, g: Hash, s: Store, rich: RichBlock) {
    var m := rich.block.header.number;
    m > 0 && (m == 1 || m - 1 in s.blocks) && RootStep(env, RootAt(s, g, m - 1), rich.block, rich.txs)
  }

  /** The digest in the header leaves no choice of transactions. */
  lemma ExecutesIff(env: Env, root: Hash, b: Block, txs: seq<SignedTx>)
    requires DigestsInjective(env) && env.digestTxs(txs) == b.header.signedTxsHash
    ensures Executes(env, root, b) <==> RootStep(env, root, b, txs)
  {
    if Executes(env, root, b) {
      var other :| RootStep(env, root, b, other);
      assert other == txs;
    }
  }

  ghost predicate Linked(env: Env, s: Store, b: Block) {
    var m := b.header.number;
    m > 0 && m - 1 in s.blocks && b.header.prevHash == env.headerHash(s.blocks[m - 1].header)
  }

  /** What `verify_block` finds out about the block below. */
  ghost predicate HeaderChecked(env: Env, s: Store, b: Block) {
    var m := b.header.number;
    && m > 0 && m - 1 in s.blocks
    && HeaderAt(s, m - 1).Some? && env.headerHash(HeaderAt(s, m - 1).value) == b.header.prevHash
  }

  lemma CheckedIsLinked(env: Env, g: Hash, s: Store, st: CurrentStatus, b: Block)
    requires StatusOk(env, g, s, st) && HeaderChecked(env, s, b) && b.header.number <= st.lastNumber + 1
    ensures Linked(env, s, b)
  {
    var m := b.header.number;
    if m > 1 {
      assert LinkOk(env, g, s, m - 1);
    }
  }

  /** Overwriting a block of the chain under a status leaves the status good exactly when header hash and
      execution agree. */
  lemma OverwriteIff(env: Env, g: Hash, s: Store, t: Store, st: CurrentStatus, rich: RichBlock)
    requires DigestsInjective(env) && StatusOk(env, g, s, st) && rich.block.header.number <= st.lastNumber
    requires Linked(env, s, rich.block) && env.digestTxs(rich.txs) == rich.block.header.signedTxsHash
    requires Replaced(s, t, rich.block)
    ensures StatusOk(env, g, t, st) <==> SameHeader(env, s, rich.block) && RunsThere(env, g, s, rich)
  {
    if StatusOk(env, g, t, st) {
      OverwriteOnlyIf(env, g, s, t, st, rich);
    }
    if SameHeader(env, s, rich.block) && RunsThere(env, g, s, rich) {
      OverwriteIf(env, g, s, t, st, rich);
    }
  }

  lemma OverwriteOnlyIf(env: Env, g: Hash, s: Store, t: Store, st: CurrentStatus, rich: RichBlock)
    requires DigestsInjective(env) && StatusOk(env, g, s, st) && 0 < rich.block.header.number <= st.lastNumber
    requires env.digestTxs(rich.txs) == rich.block.header.signedTxsHash
    requires Replaced(s, t, rich.block) && StatusOk(env, g, t, st)
    ensures SameHeader(env, s, rich.block) && RunsThere(env, g, s, rich)
  {
    hide Executes, RootStep;
    var m := rich.block.header.number;
    assert LinkOk(env, g, s, m) && LinkOk(env, g, t, m);
    if m < st.lastNumber {
      assert LinkOk(env, g, s, m + 1) && LinkOk(env, g, t, m + 1);
    }
    ExecutesIff(env, RootAt(s, g, m - 1), rich.block, rich.txs);
  }

  lemma OverwriteIf(env: Env, g: Hash, s: Store, t: Store, st: CurrentStatus, rich: RichBlock)
    requires DigestsInjective(env) && StatusOk(env, g, s, st) && rich.block.header.number <= st.lastNumber
    requires Linked(env, s, rich.block)
    requires Replaced(s, t, rich.block) && SameHeader(env, s, rich.block) && RunsThere(env, g, s, rich)
    ensures StatusOk(env, g, t, st)
  {
    var m := rich.block.header.number;
    assert rich.block.header == s.blocks[m].header;
    assert LinkOk(env, g, s, m);
    forall i | 0 < i <= st.lastNumber
      ensures LinkOk(env, g, t, i)
    {
      OverwriteLink(env, g, s, t, rich, i);
    }
  }

  lemma OverwriteLink(env: Env, g: Hash, s: Store, t: Store, rich: RichBlock, i: nat)
    requires i > 0 && LinkOk(env, g, s, i) && Linked(env, s, rich.block)
    requires Replaced(s, t, rich.block) && RunsThere(env, g, s, rich)
    requires rich.block.header.number in s.blocks
    requires rich.block.header == s.blocks[rich.block.header.number].header
    requires HeaderAt(s, rich.block.header.number) == Some(rich.block.header)
    ensures LinkOk(env, g, t, i)
  {
    var m := rich.block.header.number;
    assert RootAt(t, g, i - 1) == RootAt(s, g, i - 1);
    if i == m {
      assert RootStep(env, RootAt(t, g, i - 1), t.blocks[i], rich.txs);
    }
  }

  /** The status that a saved reply leads to is good exactly when the blocks below it are and it runs there. */
  lemma NewStatusIff(env: Env, g: Hash, s: SyncState, t: SyncState, rich: RichBlock)
    requires DigestsInjective(env) && 0 in s.store.blocks && HeaderAt(s.store, 0) == Some(s.store.blocks[0].header)
    requires HeaderChecked(env, s.store, rich.block) && env.digestTxs(rich.txs) == rich.block.header.signedTxsHash
    requires SameBelow(s.store, t.store, rich.block.header.number)
    requires BlockAt(t.store, rich.block.header.number) == Some(rich.block)
    requires HeaderAt(t.store, rich.block.header.number) == Some(rich.block.header)
    requires t.agent == SyncedStatus(env, rich.block, rich.block.header.stateRoot, t.agent.proof)
    requires t.agent.proof.number == rich.block.header.number
    ensures StatusOk(env, g, t.store, t.agent) <==>
            ChainOk(env, g, s.store, rich.block.header.number - 1) && RunsThere(env, g, s.store, rich)
  {
    hide Executes, RootStep, SameBelow;
    var m := rich.block.header.number;
    SameBelowAt(s.store, t.store, m, m - 1);
    SameBelowAt(s.store, t.store, m, 0);
    ExecutesIff(env, RootAt(s.store, g, m - 1), rich.block, rich.txs);
    if ChainOk(env, g, s.store, m - 1) && RunsThere(env, g, s.store, rich) {
      assert m > 1 ==> LinkOk(env, g, s.store, m - 1);
      ExtendChain(env, g, s.store, t.store, rich.block, rich.txs, m - 1);
    }
    if StatusOk(env, g, t.store, t.agent) {
      assert LinkOk(env, g, t.store, m);
      ChainFrame(env, g, t.store, s.store, m - 1);
    }
  }

  lemma ChainFrame(env: Env, g: Hash, s: Store, t: Store, n: nat)
    requires ChainOk(env, g, s, n) && SameBelow(t, s, n + 1)
    ensures ChainOk(env, g, t, n)
  {
    forall i | 0 < i <= n
      ensures LinkOk(env, g, t, i)
    {
      assert LinkOk(env, g, s, i);
      assert BlockAt(s, i) == BlockAt(t, i) && BlockAt(s, i - 1) == BlockAt(t, i - 1);
      assert HeaderAt(s, i) == HeaderAt(t, i);
    }
  }

  // ---------------------------------------------------------------- one turn of the loop, any reply

  /** The reply passes every check, so that its writes begin. */
  ghost predicate Reaches(env: Env, s: SyncState, rich: RichBlock, remote: Remote, fault: Fault) {
    && BlockCheck(env, s.store, rich, remote).Ok?
    && RootStep(env, s.agent.lastStateRoot, rich.block, rich.txs)
    && fault.metadataOk
  }

  /** All writes and the mempool flush succeed. */
  predicate Saves(fault: Fault) { fault.budget >= ALL_WRITES && fault.flushOk }

  lemma CheckedReply(env: Env, s: Store, rich: RichBlock, remote: Remote)
    requires BlockCheck(env, s, rich, remote).Ok?
    ensures HeaderChecked(env, s, rich.block)
    ensures env.digestTxs(rich.txs) == rich.block.header.signedTxsHash
    ensures remote.proof(rich.block.header.number).Some?
    ensures remote.proof(rich.block.header.number).value.number == rich.block.header.number
  {
  }

  ghost function Response(env: Env, s: SyncState, rich: RichBlock): ExecResp
    requires RootStep(env, s.agent.lastStateRoot, rich.block, rich.txs)
  {
    env.exec(s.agent.lastStateRoot, ProposalOf(rich.block), rich.txs).value
  }

  /** A reply either changes nothing and ends the session, or begins to be written. */
  lemma SyncOneOutcome(env: Env, s: SyncState, number: nat, remote: Remote, chunk: nat, fault: Fault)
    requires chunk > 0
    ensures
      var (t, r) := SyncOne(env, s, number, remote, chunk, fault);
      var rich := FetchRich(remote, number, chunk);
      if rich.Err? || !Reaches(env, s, rich.value, remote, fault) then r.Err? && t == s
      else
        var b := rich.value.block;
        var ws := SyncWrites(env, b, rich.value.txs, Response(env, s, rich.value));
        && t.store == WriteAll(s.store, ws, fault.budget).0
        && remote.proof(b.header.number).Some?
        && t.agent == SyncedStatus(env, b, b.header.stateRoot, remote.proof(b.header.number).value)
        && (r.Ok? <==> Saves(fault))
  {
    hide FetchRich, ProofCheck, HeaderCheck, Replay, SyncedStatus;
  }

  /** Blocks above the session's counter, left by earlier sessions, are good links up to below height m. */
  ghost predicate LeftoversLinked(env: Env, g: Hash, s: NodeState, m: nat)
    requires s.session.Some?
  {
    forall i :: s.session.value.current < i < m ==> LinkOk(env, g, s.store, i)
  }

  /** When a reply that passes the checks is safe. At or below the published height it overwrites a published
      block as soon as its record is written, so header hash and execution there have to agree; once it is
      completely saved, the session continues from it, so it has to run where it is stored and the blocks below
      it have to be good. */
  ghost predicate ReplySafe(env: Env, g: Hash, s: NodeState, rich: RichBlock, fault: Fault)
    requires s.session.Some?
  {
    var m := rich.block.header.number;
    && (m <= s.status.lastNumber && fault.budget > BODY_WRITES ==>
          SameHeader(env, s.store, rich.block) && RunsThere(env, g, s.store, rich))
    && (Saves(fault) ==> LeftoversLinked(env, g, s, m) && RunsThere(env, g, s.store, rich))
  }

  /** The published status after the writes. */
  lemma PublishedIff(env: Env, g: Hash, s: NodeState, rich: RichBlock, resp: ExecResp, budget: nat)
    requires DigestsInjective(env) && StatusOk(env, g, s.store, s.status)
    requires HeaderChecked(env, s.store, rich.block) && env.digestTxs(rich.txs) == rich.block.header.signedTxsHash
    ensures
      var t := WriteAll(s.store, SyncWrites(env, rich.block, rich.txs, resp), budget).0;
      StatusOk(env, g, t, s.status) <==>
      (rich.block.header.number <= s.status.lastNumber && budget > BODY_WRITES ==>
         SameHeader(env, s.store, rich.block) && RunsThere(env, g, s.store, rich))
  {
    hide StatusOk, WriteAll, SyncWrites, SameHeader, RunsThere, SameBelow, Replaced;
    var ws := SyncWrites(env, rich.block, rich.txs, resp);
    var t := WriteAll(s.store, ws, budget).0;
    var m, k := rich.block.header.number, s.status.lastNumber;
    WritesReplace(env, s.store, rich.block, rich.txs, resp, budget);
    if m > k {
      CommitWritesAtHeight(env, rich.block, rich.txs, resp);
      WriteAllFrame(s.store, ws, budget, m);
      SameBelowShrink(s.store, t, m, k + 1);
      StatusFrame(env, g, s.store, t, s.status);
    } else if budget <= BODY_WRITES {
      BlocksFrame(env, g, s.store, t, s.status);
    } else {
      CheckedIsLinked(env, g, s.store, s.status, rich.block);
      OverwriteIff(env, g, s.store, t, s.status, rich);
    }
  }

  /** The session's status after a complete save. */
  lemma SessionIff(env: Env, g: Hash, s: NodeState, rich: RichBlock, resp: ExecResp, t: SyncState, budget: nat)
    requires DigestsInjective(env) && Inv(env, g, s) && s.session.Some? && budget >= ALL_WRITES
    requires HeaderChecked(env, s.store, rich.block) && env.digestTxs(rich.txs) == rich.block.header.signedTxsHash
    requires t.store == WriteAll(s.store, SyncWrites(env, rich.block, rich.txs, resp), budget).0
    requires t.agent == SyncedStatus(env, rich.block, rich.block.header.stateRoot, t.agent.proof)
    requires t.agent.proof.number == rich.block.header.number
    ensures StatusOk(env, g, t.store, t.agent) <==>
            LeftoversLinked(env, g, s, rich.block.header.number) && RunsThere(env, g, s.store, rich)
  {
    hide WriteAll, SyncWrites, RunsThere, SameBelow, LinkOk, SyncedStatus;
    var m := rich.block.header.number;
    SavedRecord(env, s.store, rich.block, rich.txs, resp, budget);
    CommitWritesAtHeight(env, rich.block, rich.txs, resp);
    WriteAllFrame(s.store, SyncWrites(env, rich.block, rich.txs, resp), budget, m);
    NewStatusIff(env, g, SyncState(s.store, s.session.value.agent), t, rich);
  }

  lemma SavedRecord(env: Env, s: Store, b: Block, txs: seq<SignedTx>, resp: ExecResp, budget: nat)
    requires budget >= ALL_WRITES
    ensures
      var t := WriteAll(s, SyncWrites(env, b, txs, resp), budget).0;
      BlockAt(t, b.header.number) == Some(b) && HeaderAt(t, b.header.number) == Some(b.header)
  {
    hide Replay, Receipts;
    SavedBlock(env, s, BodyWrites(b.header.number, txs, Receipts(env, b, txs, resp)) + [PutProof(b.header.proof)], b);
  }

  /** For a reply of any height and any failure while it is saved: both statuses describe good chains afterwards
      exactly when the reply does not reach the writes or is safe; and the invariant of all runs is kept exactly
      when, in addition, a completely saved reply is the one asked for. */
  lemma AnyReplyIff(env: Env, g: Hash, s: NodeState, remote: Remote, chunk: nat, fault: Fault)
    requires DigestsInjective(env) && Inv(env, g, s) && chunk > 0
    requires s.session.Some? && s.session.value.current < s.session.value.target
    ensures
      var n := s.session.value.current + 1;
      var t := Next(env, s, SyncBlock(remote, chunk, fault));
      var rich := FetchRich(remote, n, chunk);
      var reached := rich.Ok? && Reaches(env, SyncState(s.store, s.session.value.agent), rich.value, remote, fault);
      && (Sound(env, g, t) <==> (reached ==> ReplySafe(env, g, s, rich.value, fault)))
      && (Inv(env, g, t) <==>
            Sound(env, g, t) && (reached && Saves(fault) ==> rich.value.block.header.number == n))
  {
    hide SyncOne, FetchRich, BlockCheck, StatusOk, RecordsOk, RootStep, WriteAll, SyncWrites, LinkOk;
    var view := SyncState(s.store, s.session.value.agent);
    var n := s.session.value.current + 1;
    SyncOneOutcome(env, view, n, remote, chunk, fault);
    var (t, r) := SyncOne(env, view, n, remote, chunk, fault);
    RecordsFrame(env, s, Next(env, s, SyncBlock(remote, chunk, fault)));
    if FetchRich(remote, n, chunk).Ok? && Reaches(env, view, FetchRich(remote, n, chunk).value, remote, fault) {
      var rich := FetchRich(remote, n, chunk).value;
      var resp := Response(env, view, rich);
      CheckedReply(env, s.store, rich, remote);
      PublishedIff(env, g, s, rich, resp, fault.budget);
      if Saves(fault) {
        SessionIff(env, g, s, rich, resp, t, fault.budget);
      }
    }
  }

  lemma RecordsFrame(env: Env, s: NodeState, t: NodeState)
    requires t == s.(store := t.store, session := t.session)
    ensures RecordsOk(env, t) <==> RecordsOk(env, s)
  {
  }

  /** Comparing heights would be enough: a reply of the height asked for is always safe. */
  lemma AskedReplyIsSafe(env: Env, g: Hash, s: NodeState, rich: RichBlock, remote: Remote, fault: Fault)
    requires Inv(env, g, s) && s.session.Some?
    requires Reaches(env, SyncState(s.store, s.session.value.agent), rich, remote, fault)
    requires rich.block.header.number == s.session.value.current + 1
    ensures ReplySafe(env, g, s, rich, fault)
  {
    hide BlockCheck, RootStep;
    CheckedReply(env, s.store, rich, remote);
  }

  // ---------------------------------------------------------------- an unsafe reply

  /** Digests without collisions, empty blocks that leave the state alone, and verifiers whose proofs hold. */
  ghost predicate QuietWorld(env: Env) {
    && DigestsInjective(env)
    && (forall root, p :: env.exec(root, p, []) == Some(ExecResp(root, 0, 0, [])))
    && (forall b: Block, p: Proof :: b.header.number == p.number && p.blockHash == env.proposalHash(ProposalOf(b)) ==>
          ProofCheck(env, b, p).Ok?)
  }

  function EmptyBlock(env: Env, number: nat, prevHash: Hash, proof: Proof): Block {
    NewBlock(env, Proposal(prevHash, 0, 0, env.digestTxs([]), 0, number, 0, [], None, 0, proof, 0, 0, []),
             ExecResp(0, 0, 0, []))
  }

  function ProofOf(env: Env, b: Block): Proof {
    Proof(b.header.number, 0, env.proposalHash(ProposalOf(b)), [], [])
  }

  function Block0(env: Env): Block { EmptyBlock(env, 0, 0, Proof(0, 0, 0, [], [])) }
  function Block1(env: Env): Block { EmptyBlock(env, 1, env.headerHash(Block0(env).header), Proof(0, 0, 0, [], [])) }
  function Block2(env: Env): Block {
    EmptyBlock(env, 2, env.headerHash(Block1(env).header), ProofOf(env, Block1(env)))
  }

  /** A node at height 2 that is about to ask for block 3. */
  function SyncingNode(env: Env): NodeState {
    var b0, b1, b2 := Block0(env), Block1(env), Block2(env);
    var status := CurrentStatus(env.headerHash(b2.header), 2, 0, 0, 0, 0, 0, ProofOf(env, b2), 0);
    NodeState(status,
              Store(map[0 := b0, 1 := b1, 2 := b2], map[0 := b0.header, 1 := b1.header, 2 := b2.header],
                    map[], map[], map[], map[], None, None),
              {}, Some(Session(status, 2, 3)), {}, {})
  }

  /** Block 1 with another amount of gas used, a field that is outside the proposal and that no check reads. */
  function AlteredBlock(env: Env): Block {
    Block1(env).(header := Block1(env).header.(gasUsed := 1))
  }

  function AlteringPeer(env: Env): Remote {
    Remote((n: nat) => Some(AlteredBlock(env)),
           (n: nat, hs: seq<Hash>) => Some([]),
           (n: nat) => Some(ProofOf(env, Block1(env))))
  }

  lemma SyncingNodeOk(env: Env)
    requires QuietWorld(env)
    ensures Inv(env, 0, SyncingNode(env))
  {
    hide ProofCheck, DigestsInjective;
    var s := SyncingNode(env);
    assert RootStep(env, 0, Block1(env), []) && RootStep(env, 0, Block2(env), []);
    assert LinkOk(env, 0, s.store, 1) && LinkOk(env, 0, s.store, 2);
  }

  lemma AlteredReplyReaches(env: Env)
    requires QuietWorld(env)
    ensures FetchRich(AlteringPeer(env), 3, 1) == Ok(RichBlock(AlteredBlock(env), []))
    ensures Reaches(env, SyncState(SyncingNode(env).store, SyncingNode(env).status), RichBlock(AlteredBlock(env), []),
                    AlteringPeer(env), Fault(9, true, true))
  {
    hide DigestsInjective;
    var b := AlteredBlock(env);
    assert FetchTxs(AlteringPeer(env), 3, [], 1) == Some([]);
    assert ProposalOf(b) == ProposalOf(Block1(env));
    assert ProofCheck(env, b, ProofOf(env, Block1(env))).Ok?;
    assert ProofCheck(env, Block0(env), b.header.proof).Ok?;
    hide ProofCheck;
    assert BlockCheck(env, SyncingNode(env).store, RichBlock(b, []), AlteringPeer(env)).Ok?;
  }

  /** Whatever the digests, the reply is accepted and completely saved, the session's new status describes a good
      chain, and the published status no longer does. */
  lemma AlteredReplyBreaksPublished(env: Env)
    requires QuietWorld(env)
    ensures Inv(env, 0, SyncingNode(env))
    ensures
      var t := Next(env, SyncingNode(env), SyncBlock(AlteringPeer(env), 1, Fault(9, true, true)));
      && t.session.Some? && t.session.value.agent.lastNumber == 1
      && StatusOk(env, 0, t.store, t.session.value.agent)
      && !StatusOk(env, 0, t.store, t.status)
  {
    var s, fault := SyncingNode(env), Fault(9, true, true);
    var rich := RichBlock(AlteredBlock(env), []);
    SyncingNodeOk(env);
    AlteredReplyReaches(env);
    assert RunsThere(env, 0, s.store, rich);
    assert rich.block.header != Block1(env).header;
    assert !SameHeader(env, s.store, rich.block);
    hide SyncOne, FetchRich, Reaches, StatusOk, RunsThere, SameHeader, QuietWorld, ProofCheck, WriteAll, SyncWrites;
    var view := SyncState(s.store, s.status);
    SyncOneOutcome(env, view, 3, AlteringPeer(env), 1, fault);
    var t := SyncOne(env, view, 3, AlteringPeer(env), 1, fault).0;
    AlteredBreaks(env, rich, view, t, fault);
  }

  lemma AlteredBreaks(env: Env, rich: RichBlock, view: SyncState, t: SyncState, fault: Fault)
    requires DigestsInjective(env) && Inv(env, 0, SyncingNode(env)) && fault.budget >= ALL_WRITES
    requires view == SyncState(SyncingNode(env).store, SyncingNode(env).status)
    requires rich == RichBlock(AlteredBlock(env), []) && Reaches(env, view, rich, AlteringPeer(env), fault)
    requires RunsThere(env, 0, view.store, rich) && !SameHeader(env, view.store, rich.block)
    requires
      var ws := SyncWrites(env, rich.block, rich.txs, Response(env, view, rich));
      t.store == WriteAll(view.store, ws, fault.budget).0
    requires t.agent == SyncedStatus(env, rich.block, rich.block.header.stateRoot, ProofOf(env, Block1(env)))
    ensures StatusOk(env, 0, t.store, t.agent) && !StatusOk(env, 0, t.store, view.agent)
  {
    hide BlockCheck, StatusOk, RunsThere, SameHeader, WriteAll, SyncWrites, RootStep, DigestsInjective;
    var s := SyncingNode(env);
    var resp := Response(env, view, rich);
    CheckedReply(env, s.store, rich, AlteringPeer(env));
    PublishedIff(env, 0, s, rich, resp, fault.budget);
    SessionIff(env, 0, s, rich, resp, t, fault.budget);
  }
}

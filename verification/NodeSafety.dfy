/** Chain safety over every run of the node: whatever mixture of proposals, checks, commits, finished and
    failed synchronizations happens, the published status describes a fully linked, correctly executed chain. */
module NodeSafety {
  import opened ChainTypes
  import opened ChainStore
  import opened Quorum
  import opened NodeSpec

  ghost function RootAt(store: Store, genesisRoot: Hash, i: nat): Hash
    requires i == 0 || i in store.blocks
  {
    if i == 0 then genesisRoot else store.blocks[i].header.stateRoot
  }

  /** Executing `txs` for block `b` on top of `root` gives the roots in its header. */
  ghost predicate RootStep(env: Env, root: Hash, b: Block, txs: seq<SignedTx>) {
    && env.digestTxs(txs) == b.header.signedTxsHash
    && match env.exec(root, ProposalOf(b), txs)
       case None => false
       case Some(resp) => resp.stateRoot == b.header.stateRoot && resp.receiptRoot == b.header.receiptsRoot
  }

  ghost predicate Executes(env: Env, root: Hash, b: Block) {
    exists txs :: RootStep(env, root, b, txs)
  }

  /** Block i is at its own height, linked to block i-1 by hash, and carries the roots of its execution. */
  ghost predicate LinkOk(env: Env, g: Hash, store: Store, i: nat)
    requires i > 0
  {
    && i in store.blocks && i - 1 in store.blocks
    && HeaderAt(store, i) == Some(store.blocks[i].header)
    && store.blocks[i].header.number == i
    && store.blocks[i].header.prevHash == env.headerHash(store.blocks[i - 1].header)
    && Executes(env, RootAt(store, g, i - 1), store.blocks[i])
  }

  ghost predicate ChainOk(env: Env, g: Hash, store: Store, n: nat) {
    forall i :: 0 < i <= n ==> LinkOk(env, g, store, i)
  }

  ghost predicate StatusOk(env: Env, g: Hash, store: Store, st: CurrentStatus) {
    && 0 in store.blocks && HeaderAt(store, 0) == Some(store.blocks[0].header)
    && ChainOk(env, g, store, st.lastNumber)
    && st.lastNumber in store.blocks
    && HeaderAt(store, st.lastNumber) == Some(store.blocks[st.lastNumber].header)
    && st.prevHash == env.headerHash(store.blocks[st.lastNumber].header)
    && st.lastStateRoot == RootAt(store, g, st.lastNumber)
    && st.proof.number == st.lastNumber
    && (st.lastNumber > 0 ==> st.baseFeePerGas == store.blocks[st.lastNumber].header.baseFeePerGas)
  }

  /** A recorded proposal made or passed at the current height extends the published block. */
  ghost predicate Extends(st: CurrentStatus, r: (nat, Proposal)) {
    r.0 == st.lastNumber && r.1.number == st.lastNumber + 1 ==> r.1.prevHash == st.prevHash
  }

  ghost predicate RecordsOk(env: Env, s: NodeState) {
    && (forall r :: r in s.proposed ==> r.0 <= s.status.lastNumber && r.1.number == r.0 + 1 && Extends(s.status, r))
    && (forall r :: r in s.approved ==> r.0 <= s.status.lastNumber && Extends(s.status, r))
    && (forall h :: h in s.exemption ==> exists r :: r in s.proposed && env.proposalHash(r.1) == h)
  }

  /** The published status and the session's both describe a good chain. */
  ghost predicate Sound(env: Env, g: Hash, s: NodeState) {
    && StatusOk(env, g, s.store, s.status)
    && RecordsOk(env, s)
    && (s.session.Some? ==> StatusOk(env, g, s.store, s.session.value.agent))
  }

  /** The session's status keeps pace with the loop's counter, at or above the published height. */
  ghost predicate Paced(s: NodeState) {
    s.session.Some? ==>
      && s.session.value.agent.lastNumber == s.session.value.current >= s.status.lastNumber
      && s.session.value.target > s.status.lastNumber
  }

  ghost predicate Inv(env: Env, g: Hash, s: NodeState) {
    Sound(env, g, s) && Paced(s)
  }

  /** The chain up to n only depends on the store below n + 1. */
  lemma StatusFrame(env: Env, g: Hash, s: Store, t: Store, st: CurrentStatus)
    requires StatusOk(env, g, s, st) && SameBelow(s, t, st.lastNumber + 1)
    ensures StatusOk(env, g, t, st)
  {
    var n := st.lastNumber;
    assert forall i :: 0 <= i < n + 1 ==> BlockAt(s, i) == BlockAt(t, i) && HeaderAt(s, i) == HeaderAt(t, i);
    assert BlockAt(s, n) == BlockAt(t, n) && BlockAt(s, 0) == BlockAt(t, 0);
    forall i | 0 < i <= n
      ensures LinkOk(env, g, t, i)
    {
      assert LinkOk(env, g, s, i);
      assert BlockAt(s, i) == BlockAt(t, i) && BlockAt(s, i - 1) == BlockAt(t, i - 1);
    }
  }

  lemma PutProofFrame(s: Store, p: Proof, n: nat)
    ensures SameBelow(s, Apply(s, PutProof(p)), n)
  {
    ApplyFrame(s, PutProof(p), n);
  }

  lemma SameBelowAt(s: Store, t: Store, n: nat, i: nat)
    requires SameBelow(s, t, n) && i < n
    ensures BlockAt(s, i) == BlockAt(t, i) && HeaderAt(s, i) == HeaderAt(t, i)
  {
  }

  lemma SameBelowRefl(a: Store, n: nat)
    ensures SameBelow(a, a, n)
  {
  }

  lemma SameBelowTrans(a: Store, b: Store, c: Store, n: nat)
    requires SameBelow(a, b, n) && SameBelow(b, c, n)
    ensures SameBelow(a, c, n)
  {
    forall i | 0 <= i < n
      ensures BlockAt(a, i) == BlockAt(c, i) && HeaderAt(a, i) == HeaderAt(c, i)
    {
      assert BlockAt(a, i) == BlockAt(b, i) && HeaderAt(a, i) == HeaderAt(b, i);
    }
    forall i, h | 0 <= i < n
      ensures (i, h) in a.txs <==> (i, h) in c.txs
      ensures (i, h) in a.txs ==> a.txs[(i, h)] == c.txs[(i, h)]
      ensures (i, h) in a.receipts <==> (i, h) in c.receipts
      ensures (i, h) in a.receipts ==> a.receipts[(i, h)] == c.receipts[(i, h)]
    {
      assert (i, h) in a.txs <==> (i, h) in b.txs;
      assert (i, h) in a.receipts <==> (i, h) in b.receipts;
    }
  }

  lemma CommitWritesAtHeight(env: Env, b: Block, txs: seq<SignedTx>, resp: ExecResp)
    ensures forall w :: w in CommitWrites(env, b, txs, resp) ==> AtHeight(w, b.header.number)
    ensures forall w :: w in SyncWrites(env, b, txs, resp) ==> AtHeight(w, b.header.number)
  {
  }

  /** Saving a whole block leaves the block and its header at its height. */
  lemma SavedBlock(env: Env, s: Store, body: seq<Write>, b: Block)
    ensures
      var t := Replay(s, body + BlockWrites(env, b));
      && b.header.number in t.blocks && t.blocks[b.header.number] == b
      && HeaderAt(t, b.header.number) == Some(b.header)
      && t.latestProof == Replay(s, body).latestProof && t.latestBlock == Some(b)
      && t.txs == Replay(s, body).txs && t.receipts == Replay(s, body).receipts
  {
    ReplayConcat(s, body, BlockWrites(env, b));
    ReplayBlock(env, Replay(s, body), b);
  }

  /** Block b, saved in t on top of a store s whose chain is good up to b's predecessor, extends the chain. */
  lemma ExtendChain(env: Env, g: Hash, s: Store, t: Store, b: Block, txs: seq<SignedTx>, n: nat)
    requires ChainOk(env, g, s, n) && n in s.blocks && b.header.number == n + 1
    requires SameBelow(s, t, n + 1)
    requires n + 1 in t.blocks && t.blocks[n + 1] == b && HeaderAt(t, n + 1) == Some(b.header)
    requires b.header.prevHash == env.headerHash(s.blocks[n].header)
    requires RootStep(env, RootAt(s, g, n), b, txs)
    ensures ChainOk(env, g, t, n + 1)
  {
    assert BlockAt(s, n) == BlockAt(t, n) && BlockAt(s, 0) == BlockAt(t, 0);
    forall i | 0 < i <= n + 1
      ensures LinkOk(env, g, t, i)
    {
      if i == n + 1 {
        assert RootStep(env, RootAt(t, g, n), t.blocks[i], txs);
      } else {
        assert LinkOk(env, g, s, i);
        assert BlockAt(s, i) == BlockAt(t, i) && BlockAt(s, i - 1) == BlockAt(t, i - 1);
        assert HeaderAt(s, i) == HeaderAt(t, i);
      }
    }
  }

  /** The block a commit builds, when it gets as far as executing. */
  ghost predicate Executed(env: Env, s: NodeState, c: CommitInput) {
    && s.session.None? && c.height == s.status.lastNumber + 1 && c.budget > 0 && c.txs.Some?
    && env.exec(s.status.lastStateRoot, c.content, c.txs.value).Some?
  }

  /** However far a commit gets, it only writes above the published chain. */
  lemma CommitFrame(env: Env, s: NodeState, c: CommitInput)
    requires c.content.number == c.height
    ensures SameBelow(s.store, CommitNext(env, s, c).0.store, s.status.lastNumber + 1)
  {
    hide SameBelow, WriteAll, NewBlock, Apply, CommitWrites;
    var n := s.status.lastNumber;
    var store1 := Apply(s.store, PutProof(c.proof));
    SameBelowRefl(s.store, n + 1);
    PutProofFrame(s.store, c.proof, n + 1);
    if Executed(env, s, c) {
      var resp := env.exec(s.status.lastStateRoot, c.content, c.txs.value).value;
      var b := NewBlock(env, c.content, resp);
      var ws := CommitWrites(env, b, c.txs.value, resp);
      ProposalRoundTrip(env, c.content, resp);
      CommitWritesAtHeight(env, b, c.txs.value, resp);
      WriteAllFrame(store1, ws, c.budget - 1, n + 1);
      var store2 := WriteAll(store1, ws, c.budget - 1).0;
      SameBelowTrans(s.store, store1, store2, n + 1);
      assert CommitNext(env, s, c).0.store == store2;
    }
  }

  /** A commit that publishes a new status publishes the extended chain. */
  lemma CommitPublishes(env: Env, g: Hash, s: NodeState, c: CommitInput)
    requires StatusOk(env, g, s.store, s.status)
    requires Executed(env, s, c) && c.content.number == c.height == c.proof.number
    requires c.content.prevHash == s.status.prevHash
    requires env.digestTxs(c.txs.value) == c.content.signedTxsHash
    ensures CommitNext(env, s, c).0.status != s.status ==>
              StatusOk(env, g, CommitNext(env, s, c).0.store, CommitNext(env, s, c).0.status)
  {
    var n := s.status.lastNumber;
    var store1 := Apply(s.store, PutProof(c.proof));
    var resp := env.exec(s.status.lastStateRoot, c.content, c.txs.value).value;
    var b := NewBlock(env, c.content, resp);
    assert ProposalOf(b) == c.content;
    var ws := CommitWrites(env, b, c.txs.value, resp);
    if |ws| <= c.budget - 1 && c.metadataOk {
      CommitFrame(env, s, c);
      var t := Replay(store1, ws);
      assert CommitNext(env, s, c).0.store == t;
      SavedBlock(env, store1, BodyWrites(b.header.number, c.txs.value, Receipts(env, b, c.txs.value, resp)), b);
      assert RootStep(env, RootAt(s.store, g, n), b, c.txs.value);
      ExtendChain(env, g, s.store, t, b, c.txs.value, n);
    }
  }

  lemma CommitKeepsInv(env: Env, g: Hash, s: NodeState, c: CommitInput)
    requires Inv(env, g, s) && Admissible(env, s, Commit(c))
    ensures Inv(env, g, CommitNext(env, s, c).0)
  {
    hide SameBelow, StatusOk, WriteAll, CommitWrites;
    var s' := CommitNext(env, s, c).0;
    CommitFrame(env, s, c);
    StatusFrame(env, g, s.store, s'.store, s.status);
    if s.session.None? && s'.status != s.status {
      assert Extends(s.status, (s.status.lastNumber, c.content));
      CommitPublishes(env, g, s, c);
    }
  }

  lemma SyncOneFrame(env: Env, s: SyncState, number: nat, remote: Remote, chunk: nat, fault: Fault)
    requires chunk > 0
    ensures remote.block(number).Some? ==>
              SameBelow(s.store, SyncOne(env, s, number, remote, chunk, fault).0.store,
                        remote.block(number).value.header.number)
    ensures remote.block(number).None? ==> SyncOne(env, s, number, remote, chunk, fault).0 == s
  {
    hide ProofCheck, HeaderCheck, FetchTxs;
    if FetchRich(remote, number, chunk).Ok? {
      var rich := FetchRich(remote, number, chunk).value;
      var b := rich.block;
      if BlockCheck(env, s.store, rich, remote).Ok? && env.exec(s.agent.lastStateRoot, ProposalOf(b), rich.txs).Some? {
        var resp := env.exec(s.agent.lastStateRoot, ProposalOf(b), rich.txs).value;
        CommitWritesAtHeight(env, b, rich.txs, resp);
        WriteAllFrame(s.store, SyncWrites(env, b, rich.txs, resp), fault.budget, b.header.number);
      }
    }
  }

  /** What an accepted block was checked for. */
  lemma SyncOneChecked(env: Env, s: SyncState, number: nat, remote: Remote, chunk: nat, fault: Fault)
    requires chunk > 0
    requires SyncOne(env, s, number, remote, chunk, fault).1.Ok?
    ensures FetchRich(remote, number, chunk).Ok?
    ensures
      var rich := FetchRich(remote, number, chunk).value;
      var b := rich.block;
      && remote.block(number) == Some(b)
      && HeaderCheck(env, s.store, ProposalOf(b)).Ok?
      && b.header.number > 0 && b.header.number - 1 in s.store.blocks
      && ProofCheck(env, s.store.blocks[b.header.number - 1], b.header.proof).Ok?
      && RootStep(env, s.agent.lastStateRoot, b, rich.txs)
      && remote.proof(b.header.number).Some?
      && ProofCheck(env, b, remote.proof(b.header.number).value).Ok?
      && SyncOne(env, s, number, remote, chunk, fault) ==
         CommitBlockNext(env, s, rich, remote.proof(b.header.number).value, fault)
  {
    hide ProofCheck, FetchTxs, WriteAll;
  }

  /** The header fields that no check of `verify_block` or `commit_block` reads and the proposal does not
      contain. */
  ghost predicate SameUnchecked(a: Header, b: Header) {
    a.gasUsed == b.gasUsed && a.logBloom == b.logBloom && a.difficulty == b.difficulty && a.nonce == b.nonce
  }

  /** An accepted block is the one the engine would build if and only if the unchecked fields agree. */
  lemma AcceptedIsBuiltIff(env: Env, root: Hash, b: Block, txs: seq<SignedTx>)
    requires RootStep(env, root, b, txs)
    ensures
      var built := NewBlock(env, ProposalOf(b), env.exec(root, ProposalOf(b), txs).value);
      b == built <==> SameUnchecked(b.header, built.header)
  {
  }

  /** Two blocks proved at one height and round and executed on one root are the same block if and only if the
      unchecked fields agree. */
  lemma ProvedBlocksAgreeIff(env: Env, root: Hash, a: Block, p: Proof, txsA: seq<SignedTx>,
                             b: Block, q: Proof, txsB: seq<SignedTx>, faulty: set<Address>,
                             honest: iset<Bytes>, signed: iset<(Bytes, Vote)>)
    requires DigestsInjective(env) && DistinctVoters(env) && Unforgeable(env, honest, signed)
    requires a.header.number == b.header.number > 0 && SaneVerifiers(env, a.header.number)
    requires ProofCheck(env, a, p).Ok? && ProofCheck(env, b, q).Ok? && p.round == q.round
    requires faulty <= WeightMap(env.metadata(a.header.number).verifierList).Keys
    requires
      var weights := WeightMap(env.metadata(a.header.number).verifierList);
      3 * Sums.SumOver(weights, faulty) <= Total(weights)
    requires HonestOutside(env.metadata(a.header.number).verifierList, faulty, honest)
    requires RootStep(env, root, a, txsA) && RootStep(env, root, b, txsB)
    ensures a == b <==> SameUnchecked(a.header, b.header)
  {
    ProofsAgree(env, a, p, b, q, faulty, honest, signed);
    hide ProofCheck, WeightMap;
    assert a.header.signedTxsHash == ProposalOf(a).signedTxsHash;
    assert b.header.signedTxsHash == ProposalOf(b).signedTxsHash;
    assert txsA == txsB;
    SameProposalBlocks(env, root, a, b, txsA);
  }

  lemma SameProposalBlocks(env: Env, root: Hash, a: Block, b: Block, txs: seq<SignedTx>)
    requires ProposalOf(a) == ProposalOf(b) && RootStep(env, root, a, txs) && RootStep(env, root, b, txs)
    ensures a == b <==> SameUnchecked(a.header, b.header)
  {
    var resp := env.exec(root, ProposalOf(a), txs).value;
    AcceptedIsBuiltIff(env, root, a, txs);
    AcceptedIsBuiltIff(env, root, b, txs);
  }

  /** What a saved block leaves in the store and the session. */
  lemma CommitBlockSaves(env: Env, s: SyncState, rich: RichBlock, proof: Proof, fault: Fault)
    requires CommitBlockNext(env, s, rich, proof, fault).1.Ok?
    ensures
      var b := rich.block;
      var t := CommitBlockNext(env, s, rich, proof, fault).0;
      && t.agent == SyncedStatus(env, b, b.header.stateRoot, proof)
      && b.header.number in t.store.blocks && t.store.blocks[b.header.number] == b
      && HeaderAt(t.store, b.header.number) == Some(b.header)
      && t.store.latestProof == Some(b.header.proof)
      && t.store.latestBlock == Some(b)
  {
    var b := rich.block;
    var resp := env.exec(s.agent.lastStateRoot, ProposalOf(b), rich.txs).value;
    var body := BodyWrites(b.header.number, rich.txs, Receipts(env, b, rich.txs, resp));
    SavedBlock(env, s.store, body + [PutProof(b.header.proof)], b);
    ReplayStep(s.store, body, PutProof(b.header.proof));
  }

  /** A block accepted by `verify_block` and `commit_block` at the next height extends the session's chain;
      if it is refused or saving it fails, the chain of the old status is still there. */
  lemma SyncOneKeepsChain(env: Env, g: Hash, s: SyncState, remote: Remote, chunk: nat, fault: Fault)
    requires chunk > 0 && StatusOk(env, g, s.store, s.agent)
    requires var n := s.agent.lastNumber + 1; remote.block(n).Some? ==> remote.block(n).value.header.number == n
    ensures
      var (t, r) := SyncOne(env, s, s.agent.lastNumber + 1, remote, chunk, fault);
      && StatusOk(env, g, t.store, s.agent)
      && (r.Ok? ==> t.agent.lastNumber == s.agent.lastNumber + 1 && StatusOk(env, g, t.store, t.agent))
  {
    hide SyncOne, FetchRich, CommitBlockNext, SameBelow;
    var n := s.agent.lastNumber;
    var (t, r) := SyncOne(env, s, n + 1, remote, chunk, fault);
    SyncOneFrame(env, s, n + 1, remote, chunk, fault);
    if remote.block(n + 1).Some? {
      StatusFrame(env, g, s.store, t.store, s.agent);
    }
    if r.Ok? {
      SyncOneChecked(env, s, n + 1, remote, chunk, fault);
      var rich := FetchRich(remote, n + 1, chunk).value;
      CommitBlockSaves(env, s, rich, remote.proof(rich.block.header.number).value, fault);
      ExtendChain(env, g, s.store, t.store, rich.block, rich.txs, n);
    }
  }

  /** Changing the store above the published chain and the session's own status keeps the invariant. */
  lemma SessionMoves(env: Env, g: Hash, s: NodeState, store: Store, session: Option<Session>)
    requires Inv(env, g, s) && SameBelow(s.store, store, s.status.lastNumber + 1)
    requires session.Some? ==> StatusOk(env, g, store, session.value.agent)
    requires Paced(s.(session := session))
    ensures Inv(env, g, s.(store := store, session := session))
  {
    StatusFrame(env, g, s.store, store, s.status);
  }

  lemma SyncBlockKeepsInv(env: Env, g: Hash, s: NodeState, remote: Remote, chunk: nat, fault: Fault)
    requires Inv(env, g, s) && Admissible(env, s, SyncBlock(remote, chunk, fault))
    ensures Inv(env, g, Next(env, s, SyncBlock(remote, chunk, fault)))
  {
    hide SyncOne, StatusOk, SameBelow, RecordsOk;
    if s.session.Some? && s.session.value.current < s.session.value.target && chunk > 0 {
      var agent := s.session.value.agent;
      var n := agent.lastNumber + 1;
      SyncOneKeepsChain(env, g, SyncState(s.store, agent), remote, chunk, fault);
      SyncOneFrame(env, SyncState(s.store, agent), n, remote, chunk, fault);
      var (t, r) := SyncOne(env, SyncState(s.store, agent), n, remote, chunk, fault);
      if remote.block(n).Some? {
        SameBelowShrink(s.store, t.store, n, s.status.lastNumber + 1);
      } else {
        SameBelowRefl(s.store, s.status.lastNumber + 1);
      }
      SessionMoves(env, g, s, t.store,
                   if r.Err? then None else Some(s.session.value.(agent := t.agent, current := n)));
    }
  }

  lemma GetBlockKeepsInv(env: Env, g: Hash, s: NodeState, i: ProposalInput)
    requires Inv(env, g, s)
    ensures Inv(env, g, GetBlockNext(env, s, i).0)
  {
    var p := MakeProposal(env, s.status, i);
    var s' := GetBlockNext(env, s, i).0;
    if p.number == p.proof.number + 1 {
      forall h | h in s'.exemption
        ensures exists r :: r in s'.proposed && env.proposalHash(r.1) == h
      {
        if h == env.proposalHash(p) {
          assert (s.status.lastNumber, p) in s'.proposed;
        } else {
          var r :| r in s.proposed && env.proposalHash(r.1) == h;
          assert r in s'.proposed;
        }
      }
    }
  }

  lemma CheckBlockKeepsInv(env: Env, g: Hash, s: NodeState, i: CheckInput)
    requires ProposalHashInjective(env)
    requires Inv(env, g, s) && Admissible(env, s, CheckBlock(i))
    ensures Inv(env, g, CheckBlockNext(env, s, i).0)
  {
    if CheckResult(env, s, i).Ok? && i.proposal.number == s.status.lastNumber + 1 {
      if i.hash in s.exemption {
        var r :| r in s.proposed && env.proposalHash(r.1) == i.hash;
        assert r.1 == i.proposal;
      } else {
        assert HeaderAt(s.store, i.proposal.number - 1) == Some(s.store.blocks[s.status.lastNumber].header);
      }
    }
  }

  /** What the header check means for a proposal at the next height: it extends the published block. */
  lemma HeaderCheckIff(env: Env, g: Hash, s: NodeState, p: Proposal)
    requires Inv(env, g, s) && p.number == s.status.lastNumber + 1
    ensures HeaderCheck(env, s.store, p).Ok? <==> p.prevHash == s.status.prevHash
  {
  }

  /** A proposal for the next height passes the full check if and only if it extends the published block, is neither
      older than it nor from the future, proves it, is known to the mempool, and commits to its transaction hashes
      and to the transactions that were fetched. */
  lemma CheckedProposalIff(env: Env, g: Hash, s: NodeState, i: CheckInput)
    requires Inv(env, g, s) && i.proposal.number == s.status.lastNumber + 1
    ensures s.status.lastNumber in s.store.blocks
    ensures
      var p, last := i.proposal, s.store.blocks[s.status.lastNumber];
      InnerCheck(env, s.store, i).Ok? <==>
        && p.prevHash == s.status.prevHash && last.header.timestamp <= p.timestamp <= i.now
        && ProofCheck(env, last, p.proof).Ok? && i.txsKnown
        && p.transactionsRoot == env.merkleRoot(p.txHashes)
        && i.txs.Some? && p.signedTxsHash == env.digestTxs(i.txs.value)
  {
    hide ProofCheck;
    HeaderCheckIff(env, g, s, i.proposal);
  }

  /** A proposal that passes names the published block in its proof. */
  lemma CheckedProposalProof(env: Env, g: Hash, s: NodeState, i: CheckInput)
    requires Inv(env, g, s) && i.proposal.number == s.status.lastNumber + 1 && InnerCheck(env, s.store, i).Ok?
    requires s.status.lastNumber > 0
    ensures s.status.lastNumber in s.store.blocks && i.proposal.proof.number == s.status.lastNumber
    ensures i.proposal.proof.blockHash == env.proposalHash(ProposalOf(s.store.blocks[s.status.lastNumber]))
  {
    CheckedProposalIff(env, g, s, i);
    assert LinkOk(env, g, s.store, s.status.lastNumber);
  }

  /** At every node that holds `last` as the block and header of its height, and at every time, the proposal passes the
      full check for its own transactions exactly if its time is right and its proof proves that block. */
  ghost predicate PassesElsewhere(env: Env, last: Block, n: nat, i: ProposalInput, p: Proposal) {
    forall store, hash, now ::
      BlockAt(store, n) == Some(last) && HeaderAt(store, n) == Some(last.header) ==>
        (InnerCheck(env, store, CheckInput(hash, p, now, true, Some(i.txs))).Ok? <==>
           last.header.timestamp <= i.timestamp <= now && ProofCheck(env, last, p.proof).Ok?)
  }

  /** What `get_block` answers for the next height passes the full check at every node that holds the same last block,
      for the same transactions, exactly if its time is right and the published proof proves that block. */
  lemma ProposalPassesIff(env: Env, g: Hash, s: NodeState, i: ProposalInput)
    requires Inv(env, g, s) && i.number == s.status.lastNumber + 1
    ensures GetBlockNext(env, s, i).1.Ok? && s.status.lastNumber in s.store.blocks
    ensures
      var p, n := GetBlockNext(env, s, i).1.value, s.status.lastNumber;
      p.proof == s.status.proof && PassesElsewhere(env, s.store.blocks[n], n, i, p)
  {
    hide ProofCheck;
  }

  /** The proposer itself does not check its proposal again: it passes as soon as its transactions are there. */
  lemma OwnProposalPassesIff(env: Env, s: NodeState, i: ProposalInput, now: nat, known: bool,
                             txs: Option<seq<SignedTx>>)
    requires GetBlockNext(env, s, i).1.Ok?
    ensures
      var p := GetBlockNext(env, s, i).1.value;
      CheckResult(env, GetBlockNext(env, s, i).0, CheckInput(env.proposalHash(p), p, now, known, txs)).Ok? <==>
        txs.Some?
  {
    hide InnerCheck;
  }

  lemma SyncEndKeepsInv(env: Env, g: Hash, s: NodeState)
    requires Inv(env, g, s)
    ensures Inv(env, g, Next(env, s, SyncEnd))
  {
  }

  lemma StepKeepsInv(env: Env, g: Hash, s: NodeState, step: Step)
    requires ProposalHashInjective(env)
    requires Inv(env, g, s) && Admissible(env, s, step)
    ensures Inv(env, g, Next(env, s, step))
  {
    match step
    case GetBlock(i) => GetBlockKeepsInv(env, g, s, i);
    case CheckBlock(i) => CheckBlockKeepsInv(env, g, s, i);
    case Commit(c) => CommitKeepsInv(env, g, s, c);
    case SyncBegin(_) =>
    case SyncBlock(remote, chunk, fault) => SyncBlockKeepsInv(env, g, s, remote, chunk, fault);
    case SyncEnd => SyncEndKeepsInv(env, g, s);
  }

  /** A freshly started chain: the genesis block is stored and described by the status. */
  ghost predicate Genesis(env: Env, g: Hash, s: NodeState) {
    && s.status.lastNumber == 0 && s.status.proof.number == 0 && s.status.lastStateRoot == g
    && 0 in s.store.blocks && HeaderAt(s.store, 0) == Some(s.store.blocks[0].header)
    && s.status.prevHash == env.headerHash(s.store.blocks[0].header)
    && s.exemption == {} && s.session.None? && s.proposed == {} && s.approved == {}
  }

  /** Safety over all runs. */
  lemma {:induction false} ChainSafety(env: Env, g: Hash, s: NodeState, steps: seq<Step>)
    requires ProposalHashInjective(env)
    requires Genesis(env, g, s) && AdmissibleRun(env, s, steps)
    ensures Inv(env, g, Run(env, s, steps))
  {
    if steps != [] {
      var front := steps[..|steps| - 1];
      forall i | 0 <= i < |front|
        ensures Admissible(env, Run(env, s, front[..i]), front[i])
      {
        assert front[..i] == steps[..i];
      }
      ChainSafety(env, g, s, front);
      StepKeepsInv(env, g, Run(env, s, front), steps[|steps| - 1]);
    }
  }

  /** The published height never goes back, and the chain below it never changes. */
  lemma StepIsMonotone(env: Env, g: Hash, s: NodeState, step: Step)
    requires Inv(env, g, s) && Admissible(env, s, step)
    ensures Next(env, s, step).status.lastNumber >= s.status.lastNumber
    ensures SameBelow(s.store, Next(env, s, step).store, s.status.lastNumber + 1)
    ensures Next(env, s, step).status.lastNumber == s.status.lastNumber ==> Next(env, s, step).status == s.status
  {
    hide ProofCheck, BlockCheck, FetchRich, CommitBlockNext, WriteAll, StatusOk, SameBelow, SyncOne, RecordsOk;
    hide CommitWrites;
    SameBelowRefl(s.store, s.status.lastNumber + 1);
    match step
    case Commit(c) => CommitFrame(env, s, c);
    case SyncBlock(remote, chunk, fault) =>
      if s.session.Some? && s.session.value.current < s.session.value.target && chunk > 0 {
        var agent := s.session.value.agent;
        SyncOneFrame(env, SyncState(s.store, agent), agent.lastNumber + 1, remote, chunk, fault);
        if remote.block(agent.lastNumber + 1).Some? {
          SameBelowShrink(s.store, Next(env, s, step).store, agent.lastNumber + 1, s.status.lastNumber + 1);
        }
      }
    case _ =>
  }

  /** Every block that was ever published stays in place, whatever happens later. */
  lemma {:induction false} PublishedIsFinal(env: Env, g: Hash, s: NodeState, steps: seq<Step>)
    requires ProposalHashInjective(env)
    requires Inv(env, g, s) && AdmissibleRun(env, s, steps)
    ensures Inv(env, g, Run(env, s, steps))
    ensures Run(env, s, steps).status.lastNumber >= s.status.lastNumber
    ensures SameBelow(s.store, Run(env, s, steps).store, s.status.lastNumber + 1)
  {
    if steps != [] {
      var front := steps[..|steps| - 1];
      forall i | 0 <= i < |front|
        ensures Admissible(env, Run(env, s, front[..i]), front[i])
      {
        assert front[..i] == steps[..i];
      }
      PublishedIsFinal(env, g, s, front);
      var mid := Run(env, s, front);
      StepKeepsInv(env, g, mid, steps[|steps| - 1]);
      StepIsMonotone(env, g, mid, steps[|steps| - 1]);
      SameBelowShrink(mid.store, Run(env, s, steps).store, mid.status.lastNumber + 1, s.status.lastNumber + 1);
      SameBelowTrans(s.store, mid.store, Run(env, s, steps).store, s.status.lastNumber + 1);
    }
  }

  lemma SameBelowShrink(a: Store, b: Store, n: nat, m: nat)
    requires SameBelow(a, b, n) && m <= n
    ensures SameBelow(a, b, m)
  {
  }
}

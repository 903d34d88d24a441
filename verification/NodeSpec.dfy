/** The consensus engine and block synchronization as one state machine over a node's status and store.

    The engine (`get_block`, `check_block`, `commit`) and synchronization share one lock, held by a sync
    session from its first block to its last. A session keeps its own status and publishes it only at the
    end, so the store may be ahead of the published status. */
module NodeSpec {
  import opened ChainTypes
  import opened ChainStore
  import opened Quorum

  const ONCE_SYNC_BLOCK_LIMIT: nat := 50

  datatype RichBlock = RichBlock(block: Block, txs: seq<SignedTx>)

  /** What the peers answer. */
  datatype Remote = Remote(
    block: nat -> Option<Block>,
    txs: (nat, seq<Hash>) -> Option<seq<SignedTx>>,
    proof: nat -> Option<Proof>)

  /** A running synchronization: its private status, the loop's own counter, and the height it is heading for. */
  datatype Session = Session(agent: CurrentStatus, current: nat, target: nat)

  /** `proposed` and `approved` remember, with the published height of the moment, which proposals
      `get_block` made and `check_block` passed. */
  datatype NodeState = NodeState(
    status: CurrentStatus,
    store: Store,
    exemption: set<Hash>,
    session: Option<Session>,
    proposed: set<(nat, Proposal)>,
    approved: set<(nat, Proposal)>)

  // ---------------------------------------------------------------- engine

  datatype ProposalInput = ProposalInput(
    number: nat, txHashes: seq<Hash>, txs: seq<SignedTx>, proposer: Address, timestamp: nat, chainId: nat)

  function MakeProposal(env: Env, status: CurrentStatus, i: ProposalInput): Proposal {
    Proposal(status.prevHash, i.proposer, env.merkleRoot(i.txHashes), env.digestTxs(i.txs), i.timestamp,
             i.number, 100_000_000_000, [], None, status.baseFeePerGas, status.proof,
             status.lastCheckpointBlockHash, i.chainId, i.txHashes)
  }

  function GetBlockNext(env: Env, s: NodeState, i: ProposalInput): (NodeState, Result<Proposal>) {
    var p := MakeProposal(env, s.status, i);
    if p.number != p.proof.number + 1 then (s, Err(InvalidProof))
    else
      (s.(exemption := s.exemption + {env.proposalHash(p)}, proposed := s.proposed + {(s.status.lastNumber, p)}),
       Ok(p))
  }

  /** `now`, the mempool's verdict and the full transactions are what the outside answers. */
  datatype CheckInput = CheckInput(hash: Hash, proposal: Proposal, now: nat, txsKnown: bool, txs: Option<seq<SignedTx>>)

  function ValidTimestamp(current: nat, proposal: nat, previous: nat): bool {
    previous <= proposal <= current
  }

  ghost function HeaderCheck(env: Env, store: Store, p: Proposal): Result<()> {
    match HeaderAt(store, p.number - 1)
    case None => Err(StorageItemNotFound)
    case Some(h) => if env.headerHash(h) != p.prevHash then Err(PreviousBlockHash) else Ok(())
  }

  ghost function InnerCheck(env: Env, store: Store, i: CheckInput): Result<()> {
    var p := i.proposal;
    var _ :- HeaderCheck(env, store, p);
    match BlockAt(store, p.number - 1)
    case None => Err(StorageItemNotFound)
    case Some(previous) =>
      if !ValidTimestamp(i.now, p.timestamp, previous.header.timestamp) then Err(InvalidTimestamp)
      else
        var _ :- ProofCheck(env, previous, p.proof);
        if !i.txsKnown then Err(VerifyTransaction)
        else if i.txs.None? then Err(FullTxsUnavailable)
        else if env.digestTxs(i.txs.value) != p.signedTxsHash then Err(InvalidOrderSignedTransactionsHash)
        else if env.merkleRoot(p.txHashes) != p.transactionsRoot then Err(InvalidOrderRoot)
        else Ok(())
  }

  /** `check_block`: a proposal in the exemption set is not checked again. */
  ghost function CheckResult(env: Env, s: NodeState, i: CheckInput): Result<()> {
    if i.proposal.number != i.proposal.proof.number + 1 then Err(InvalidProof)
    else
      var _ :- if i.hash in s.exemption then Ok(()) else InnerCheck(env, s.store, i);
      if i.txs.None? then Err(FullTxsUnavailable) else Ok(())
  }

  ghost function CheckBlockNext(env: Env, s: NodeState, i: CheckInput): (NodeState, Result<()>) {
    var r := CheckResult(env, s, i);
    (if r.Ok? then s.(approved := s.approved + {(s.status.lastNumber, i.proposal)}) else s, r)
  }

  /** `budget` is how many store writes succeed before the database fails; the flags say whether the metadata
      update, the mempool flush, the clean-up of the transaction log and the broadcast succeed. */
  datatype CommitInput = CommitInput(
    height: nat, content: Proposal, proof: Proof, txs: Option<seq<SignedTx>>,
    budget: nat, metadataOk: bool, flushOk: bool, walOk: bool, broadcastOk: bool)

  function EngineStatus(env: Env, last: CurrentStatus, b: Block, stateRoot: Hash, proof: Proof): CurrentStatus {
    CurrentStatus(env.headerHash(b.header), b.header.number, stateRoot, last.txNumLimit, last.gasLimit,
                  last.maxTxSize, b.header.baseFeePerGas, proof, last.lastCheckpointBlockHash)
  }

  function CommitWrites(env: Env, b: Block, txs: seq<SignedTx>, resp: ExecResp): seq<Write> {
    BodyWrites(b.header.number, txs, Receipts(env, b, txs, resp)) + BlockWrites(env, b)
  }

  /** `commit` followed by `update_status`. */
  function CommitNext(env: Env, s: NodeState, c: CommitInput): (NodeState, Result<nat>) {
    if s.session.Some? then (s, Err(LockInSync))
    else if c.height == s.status.lastNumber then (s, Ok(c.height + 1))
    else if c.height != s.status.lastNumber + 1 then (s, Err(OutdatedCommit))
    else if c.budget == 0 then (s, Err(StoreFailed))
    else
      var s1 := s.(store := Apply(s.store, PutProof(c.proof)));
      if c.txs.None? then (s1, Err(FullTxsUnavailable))
      else match env.exec(s.status.lastStateRoot, c.content, c.txs.value)
        case None => (s1, Err(ExecFailed))
        case Some(resp) =>
          var b := NewBlock(env, c.content, resp);
          var (store, saved) := WriteAll(s1.store, CommitWrites(env, b, c.txs.value, resp), c.budget - 1);
          var s2 := s1.(store := store);
          if !saved then (s2, Err(StoreFailed))
          else if !c.metadataOk then (s2, Err(MetadataFailed))
          else
            var s3 := s2.(status := EngineStatus(env, s.status, b, resp.stateRoot, c.proof));
            if !c.flushOk then (s3, Err(MempoolFailed))
            else if !c.walOk then (s3, Err(WalFailed))
            else (s3.(exemption := {}), if c.broadcastOk then Ok(c.height + 1) else Err(NetworkFailed))
  }

  // ---------------------------------------------------------------- synchronization

  /** `block.tx_hashes.chunks(n)`, fetched one chunk after the other. */
  function FetchTxs(remote: Remote, number: nat, hashes: seq<Hash>, chunk: nat): Option<seq<SignedTx>>
    requires chunk > 0
    decreases |hashes|
  {
    if hashes == [] then Some([])
    else
      var n := if |hashes| < chunk then |hashes| else chunk;
      match remote.txs(number, hashes[..n])
      case None => None
      case Some(first) =>
        match FetchTxs(remote, number, hashes[n..], chunk)
        case None => None
        case Some(rest) => Some(first + rest)
  }

  function FetchRich(remote: Remote, number: nat, chunk: nat): Result<RichBlock>
    requires chunk > 0
  {
    match remote.block(number)
    case None => Err(RemoteFailed)
    case Some(b) =>
      match FetchTxs(remote, number, b.txHashes, chunk)
      case None => Err(RemoteFailed)
      case Some(txs) => Ok(RichBlock(b, txs))
  }

  /** `verify_block`; the heights asked for are the block's own. */
  ghost function BlockCheck(env: Env, store: Store, rich: RichBlock, remote: Remote): Result<Proof> {
    var b := rich.block;
    match remote.proof(b.header.number)
    case None => Err(RemoteFailed)
    case Some(proof) =>
      var _ :- ProofCheck(env, b, proof);
      var _ :- HeaderCheck(env, store, ProposalOf(b));
      match BlockAt(store, b.header.number - 1)
      case None => Err(StorageItemNotFound)
      case Some(previous) =>
        var _ :- ProofCheck(env, previous, b.header.proof);
        if env.digestTxs(rich.txs) != b.header.signedTxsHash then Err(InvalidOrderSignedTransactionsHash)
        else Ok(proof)
  }

  function SyncedStatus(env: Env, b: Block, stateRoot: Hash, proof: Proof): CurrentStatus {
    var metadata := env.metadata(b.header.number);
    CurrentStatus(env.headerHash(b.header), b.header.number, stateRoot, metadata.txNumLimit,
                  metadata.gasLimit, metadata.maxTxSize, b.header.baseFeePerGas, proof,
                  metadata.lastCheckpointBlockHash)
  }

  /** `save_chain_data` stores the proof inside the header, which proves the previous block. */
  function SyncWrites(env: Env, b: Block, txs: seq<SignedTx>, resp: ExecResp): seq<Write> {
    BodyWrites(b.header.number, txs, Receipts(env, b, txs, resp)) + [PutProof(b.header.proof)] + BlockWrites(env, b)
  }

  datatype SyncState = SyncState(store: Store, agent: CurrentStatus)

  /** What may go wrong while a synced block is saved: the metadata query, a store write after the first
      `budget`, the mempool flush. */
  datatype Fault = Fault(budget: nat, metadataOk: bool, flushOk: bool)

  type Faults = nat -> Fault

  /** Nine writes save a synced block. */
  predicate NoFault(f: Fault) { f.budget >= 9 && f.metadataOk && f.flushOk }

  function CommitBlockNext(env: Env, s: SyncState, rich: RichBlock, proof: Proof, fault: Fault)
    : (SyncState, Result<()>)
  {
    var b := rich.block;
    match env.exec(s.agent.lastStateRoot, ProposalOf(b), rich.txs)
    case None => (s, Err(ExecFailed))
    case Some(resp) =>
      if resp.stateRoot != b.header.stateRoot then (s, Err(InvalidStateRoot))
      else if resp.receiptRoot != b.header.receiptsRoot then (s, Err(InvalidReceiptsRoot))
      else if !fault.metadataOk then (s, Err(MetadataFailed))
      else
        var agent := SyncedStatus(env, b, resp.stateRoot, proof);
        var (store, saved) := WriteAll(s.store, SyncWrites(env, b, rich.txs, resp), fault.budget);
        (SyncState(store, agent),
         if !saved then Err(StoreFailed) else if !fault.flushOk then Err(MempoolFailed) else Ok(()))
  }

  /** One turn of the loop in `start_sync`, for the block at height `number`. */
  ghost function SyncOne(env: Env, s: SyncState, number: nat, remote: Remote, chunk: nat, fault: Fault)
    : (SyncState, Result<()>)
    requires chunk > 0
  {
    match FetchRich(remote, number, chunk)
    case Err(e) => (s, Err(e))
    case Ok(rich) =>
      match BlockCheck(env, s.store, rich, remote)
      case Err(e) => (s, Err(e))
      case Ok(proof) => CommitBlockNext(env, s, rich, proof, fault)
  }

  /** The loop of `start_sync`; `faults` says what goes wrong at each height asked for. */
  ghost function SyncLoop(env: Env, s: SyncState, current: nat, target: nat, remote: Remote, chunk: nat,
                          faults: Faults)
    : (SyncState, Result<()>)
    requires chunk > 0
    decreases target - current
  {
    if current >= target then (s, Ok(()))
    else
      var (t, r) := SyncOne(env, s, current + 1, remote, chunk, faults(current + 1));
      if r.Err? then (t, r) else SyncLoop(env, t, current + 1, target, remote, chunk, faults)
  }

  function SyncTarget(current: nat, remoteNumber: nat): nat {
    if current + ONCE_SYNC_BLOCK_LIMIT > remoteNumber then remoteNumber else current + ONCE_SYNC_BLOCK_LIMIT
  }

  /** `need_sync`, with the published height not moving while it waits. */
  function NeedSync(s: NodeState, remote: Remote, remoteNumber: nat): Result<bool> {
    if remoteNumber == 0 || remoteNumber <= s.status.lastNumber then Ok(false)
    else match remote.block(remoteNumber)
      case None => Err(RemoteFailed)
      case Some(b) => Ok(b.header.number == remoteNumber)
  }

  /** `receive_remote_block` with the lock free. */
  ghost function ReceiveNext(env: Env, s: NodeState, remote: Remote, remoteNumber: nat, chunk: nat, faults: Faults)
    : (NodeState, Result<()>)
    requires chunk > 0
  {
    match NeedSync(s, remote, remoteNumber)
    case Err(e) => (s, Err(e))
    case Ok(need) =>
      if !need || s.session.Some? then (s, Ok(()))
      else
        var (t, r) := SyncLoop(env, SyncState(s.store, s.status), s.status.lastNumber,
                               SyncTarget(s.status.lastNumber, remoteNumber), remote, chunk, faults);
        if r.Err? then (s.(store := t.store), r) else (s.(store := t.store, status := t.agent), r)
  }

  // ---------------------------------------------------------------- steps and runs

  /** The interleaving of the two sides, one atomic action at a time. */
  datatype Step =
    | GetBlock(proposal: ProposalInput)
    | CheckBlock(check: CheckInput)
    | Commit(commit: CommitInput)
    | SyncBegin(remoteNumber: nat)
    | SyncBlock(remote: Remote, chunk: nat, fault: Fault)
    | SyncEnd

  ghost function Next(env: Env, s: NodeState, step: Step): NodeState {
    match step
    case GetBlock(i) => GetBlockNext(env, s, i).0
    case CheckBlock(i) => CheckBlockNext(env, s, i).0
    case Commit(c) => CommitNext(env, s, c).0
    case SyncBegin(n) =>
      if s.session.Some? || n <= s.status.lastNumber then s
      else s.(session := Some(Session(s.status, s.status.lastNumber, SyncTarget(s.status.lastNumber, n))))
    case SyncBlock(remote, chunk, fault) =>
      if s.session.None? || s.session.value.current >= s.session.value.target || chunk == 0 then s
      else
        var n := s.session.value.current + 1;
        var (t, r) := SyncOne(env, SyncState(s.store, s.session.value.agent), n, remote, chunk, fault);
        s.(store := t.store,
           session := if r.Err? then None else Some(s.session.value.(agent := t.agent, current := n)))
    case SyncEnd =>
      if s.session.Some? && s.session.value.current >= s.session.value.target
      then s.(status := s.session.value.agent, session := None)
      else s
  }

  /** What consensus and the peers are trusted with: Overlord commits only content that `check_block` passed
      at the published height, for that height, with its own transactions and a proof of that height; the
      digest shown to `check_block` is the proposal's; a peer answers with the height it was asked for. */
  ghost predicate Admissible(env: Env, s: NodeState, step: Step) {
    match step
    case CheckBlock(i) => i.hash == env.proposalHash(i.proposal)
    case Commit(c) =>
      && (s.status.lastNumber, c.content) in s.approved
      && c.content.number == c.height == c.proof.number
      && (c.txs.Some? ==> env.digestTxs(c.txs.value) == c.content.signedTxsHash)
    case SyncBlock(remote, _, _) => AnswersAsked(remote)
    case _ => true
  }

  ghost predicate AnswersAsked(remote: Remote) {
    forall n :: remote.block(n).Some? ==> remote.block(n).value.header.number == n
  }

  ghost function Run(env: Env, s: NodeState, steps: seq<Step>): NodeState {
    if steps == [] then s else Next(env, Run(env, s, steps[..|steps| - 1]), steps[|steps| - 1])
  }

  ghost predicate AdmissibleRun(env: Env, s: NodeState, steps: seq<Step>) {
    forall i :: 0 <= i < |steps| ==> Admissible(env, Run(env, s, steps[..i]), steps[i])
  }
}

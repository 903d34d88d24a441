/** What a node resumes with when it is started again on its own store. */
module Restart {
  import opened ChainTypes
  import opened ChainStore
  import opened Quorum
  import opened NodeSpec
  import opened NodeSafety
  import opened StoredBlocks

  /** The status a restarted node begins with: the latest stored block and the latest stored proof. */
  function RestartStatus(env: Env, s: Store): Option<CurrentStatus> {
    if s.latestBlock.None? || s.latestProof.None? then None
    else
      var h := s.latestBlock.value.header;
      var metadata := env.metadata(h.number);
      Some(CurrentStatus(env.headerHash(h), h.number, h.stateRoot, metadata.txNumLimit, metadata.gasLimit,
                         metadata.maxTxSize, h.baseFeePerGas, s.latestProof.value,
                         metadata.lastCheckpointBlockHash))
  }

  /** After a commit, a restart resumes with a proof of the last block. */
  lemma RestartAfterCommit(env: Env, s: NodeState, c: CommitInput)
    requires Executed(env, s, c) && CommitNext(env, s, c).1.Ok? && c.content.number == c.height == c.proof.number
    ensures
      var t := CommitNext(env, s, c).0;
      var again := RestartStatus(env, t.store);
      && again.Some? && again.value.lastNumber == t.status.lastNumber && again.value.prevHash == t.status.prevHash
      && again.value.lastStateRoot == t.status.lastStateRoot && again.value.proof == t.status.proof
      && again.value.baseFeePerGas == t.status.baseFeePerGas
      && again.value.txNumLimit == env.metadata(c.height).txNumLimit
      && again.value.gasLimit == env.metadata(c.height).gasLimit
      && again.value.maxTxSize == env.metadata(c.height).maxTxSize
      && again.value.lastCheckpointBlockHash == env.metadata(c.height).lastCheckpointBlockHash
  {
    CommitAnswersIff(env, s, c);
    CommitStores(env, s, c);
    hide CommitNext, BodySaved;
  }

  /** After a synced block of any height the stored proof is the one inside its header. A restarted node has a
      proof of its last block, and `get_block` can propose the next one, exactly when that proof is of the
      block's own height; above the first block it is of the block before. */
  lemma RestartAfterSync(env: Env, s: SyncState, number: nat, remote: Remote, chunk: nat, fault: Fault,
                         i: ProposalInput)
    requires chunk > 0 && SyncOne(env, s, number, remote, chunk, fault).1.Ok?
    ensures remote.block(number).Some?
    ensures
      var b := remote.block(number).value;
      var t := SyncOne(env, s, number, remote, chunk, fault).0;
      var again := RestartStatus(env, t.store);
      && t.agent.proof.number == t.agent.lastNumber == b.header.number
      && again == Some(t.agent.(proof := b.header.proof))
      && (again.value.proof.number == again.value.lastNumber <==> b.header.proof.number == b.header.number)
      && (forall n: NodeState :: n.status == again.value && i.number == b.header.number + 1 ==>
            (GetBlockNext(env, n, i).1.Ok? <==> b.header.proof.number == b.header.number))
  {
    hide SyncOne, FetchRich, CommitBlockNext, ProofCheck;
    SyncOneChecked(env, s, number, remote, chunk, fault);
    var rich := FetchRich(remote, number, chunk).value;
    var m := rich.block.header.number;
    CommitBlockSaves(env, s, rich, remote.proof(m).value, fault);
    ProofNumber(env, rich.block, remote.proof(m).value);
  }

  /** The proof inside the header was checked against the stored block below, genesis excepted. */
  lemma SyncedProofIsOlder(env: Env, s: SyncState, number: nat, remote: Remote, chunk: nat, fault: Fault)
    requires chunk > 0 && SyncOne(env, s, number, remote, chunk, fault).1.Ok?
    ensures remote.block(number).Some? && remote.block(number).value.header.number > 0
    ensures
      var h := remote.block(number).value.header;
      && h.number - 1 in s.store.blocks
      && (s.store.blocks[h.number - 1].header.number > 0 ==>
            h.proof.number == s.store.blocks[h.number - 1].header.number)
  {
    hide SyncOne, FetchRich, CommitBlockNext, ProofCheck;
    SyncOneChecked(env, s, number, remote, chunk, fault);
    var b := FetchRich(remote, number, chunk).value.block;
    if s.store.blocks[b.header.number - 1].header.number > 0 {
      ProofNumber(env, s.store.blocks[b.header.number - 1], b.header.proof);
    }
  }
}

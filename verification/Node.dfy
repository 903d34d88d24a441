/** The node as an object. `GetBlock`, `CheckBlock` and `Commit` make one step of `NodeSpec` each, and
    `ReceiveRemoteBlock` a run of them, so they keep the chain safe. */
module NodeObject {
  import opened ChainTypes
  import opened ChainStore
  import opened Quorum
  import opened NodeSpec
  import opened NodeSafety
  import opened NodeRuns
  import opened StoredBlocks

  class Node {
    const env: Env
    const chunk: nat
    var status: CurrentStatus
    var store: Store
    var exemption: set<Hash>
    var session: Option<Session>
    ghost var proposed: set<(nat, Proposal)>
    ghost var approved: set<(nat, Proposal)>

    constructor (env: Env, chunk: nat, status: CurrentStatus, store: Store)
      ensures this.env == env && this.chunk == chunk
      ensures State() == NodeState(status, store, {}, None, {}, {})
    {
      this.env, this.chunk, this.status, this.store := env, chunk, status, store;
      exemption, session, proposed, approved := {}, None, {}, {};
    }

    ghost function State(): NodeState
      reads this
    {
      NodeState(status, store, exemption, session, proposed, approved)
    }

    method GetBlock(i: ProposalInput) returns (r: Result<Proposal>)
      modifies this
      ensures (State(), r) == GetBlockNext(env, old(State()), i)
      ensures KeepsAll(env, old(State()), State())
      ensures forall g :: Inv(env, g, old(State())) && i.number == old(status).lastNumber + 1 ==>
                && r.Ok? && old(status).lastNumber in store.blocks
                && PassesElsewhere(env, store.blocks[old(status).lastNumber], old(status).lastNumber, i, r.value)
    {
      forall g | Inv(env, g, State()) && i.number == status.lastNumber + 1
        ensures GetBlockNext(env, State(), i).1.Ok? && status.lastNumber in store.blocks
        ensures PassesElsewhere(env, store.blocks[status.lastNumber], status.lastNumber, i,
                                GetBlockNext(env, State(), i).1.value)
      {
        ProposalPassesIff(env, g, State(), i);
      }
      hide KeepsAll, PassesElsewhere, Inv;
      StepKeepsAll(env, State(), Step.GetBlock(i));
      var p := MakeProposal(env, status, i);
      if p.number != p.proof.number + 1 {
        return Err(InvalidProof);
      }
      exemption := exemption + {env.proposalHash(p)};
      proposed := proposed + {(status.lastNumber, p)};
      return Ok(p);
    }

    method VerifyBlockHeader(p: Proposal) returns (r: Result<()>)
      ensures r == HeaderCheck(env, store, p)
    {
      var previous := HeaderAt(store, p.number - 1);
      if previous.None? {
        return Err(StorageItemNotFound);
      }
      if env.headerHash(previous.value) != p.prevHash {
        return Err(PreviousBlockHash);
      }
      return Ok(());
    }

    method InnerCheckBlock(i: CheckInput) returns (r: Result<()>)
      ensures r == InnerCheck(env, store, i)
    {
      var p := i.proposal;
      r := VerifyBlockHeader(p);
      if r.Err? { return; }
      var previous := BlockAt(store, p.number - 1);
      if previous.None? { return Err(StorageItemNotFound); }
      if !ValidTimestamp(i.now, p.timestamp, previous.value.header.timestamp) { return Err(InvalidTimestamp); }
      r := VerifyProof(env, previous.value, p.proof);
      if r.Err? { return; }
      if !i.txsKnown { return Err(VerifyTransaction); }
      if i.txs.None? { return Err(FullTxsUnavailable); }
      if env.digestTxs(i.txs.value) != p.signedTxsHash { return Err(InvalidOrderSignedTransactionsHash); }
      if env.merkleRoot(p.txHashes) != p.transactionsRoot { return Err(InvalidOrderRoot); }
      return Ok(());
    }

    method CheckBlock(i: CheckInput) returns (r: Result<()>)
      modifies this`approved
      ensures (State(), r) == CheckBlockNext(env, old(State()), i)
      ensures i.hash == env.proposalHash(i.proposal) ==> KeepsAll(env, old(State()), State())
    {
      hide KeepsAll;
      StepKeepsAll(env, State(), Step.CheckBlock(i));
      if i.proposal.number != i.proposal.proof.number + 1 {
        return Err(InvalidProof);
      }
      if i.hash !in exemption {
        r := InnerCheckBlock(i);
        if r.Err? { return; }
      }
      if i.txs.None? { return Err(FullTxsUnavailable); }
      approved := approved + {(status.lastNumber, i.proposal)};
      return Ok(());
    }

    /** Writes in order until the database fails. */
    method Persist(ws: seq<Write>, budget: nat) returns (saved: bool)
      modifies this`store
      ensures (store, saved) == WriteAll(old(store), ws, budget)
    {
      for i := 0 to |ws|
        invariant i <= budget && store == Replay(old(store), ws[..i])
      {
        if i == budget {
          return false;
        }
        assert ws[..i + 1] == ws[..i] + [ws[i]];
        ReplayStep(old(store), ws[..i], ws[i]);
        store := Apply(store, ws[i]);
      }
      assert ws[..|ws|] == ws;
      return true;
    }

    method Commit(c: CommitInput) returns (r: Result<nat>)
      modifies this`status, this`store, this`exemption
      ensures (State(), r) == CommitNext(env, old(State()), c)
      ensures Admissible(env, old(State()), Step.Commit(c)) ==> KeepsAll(env, old(State()), State())
      ensures status != old(status) ==> CommitStored(env, old(State()), c, State())
    {
      PublishedIsStored(env, State(), c);
      hide KeepsAll, Admissible, CommitStored;
      StepKeepsAll(env, State(), Step.Commit(c));
      if session.Some? { return Err(LockInSync); }
      if c.height == status.lastNumber { return Ok(c.height + 1); }
      if c.height != status.lastNumber + 1 { return Err(OutdatedCommit); }
      if c.budget == 0 { return Err(StoreFailed); }
      store := Apply(store, PutProof(c.proof));
      if c.txs.None? { return Err(FullTxsUnavailable); }
      var resp := env.exec(status.lastStateRoot, c.content, c.txs.value);
      if resp.None? { return Err(ExecFailed); }
      var b := NewBlock(env, c.content, resp.value);
      var saved := Persist(CommitWrites(env, b, c.txs.value, resp.value), c.budget - 1);
      if !saved { return Err(StoreFailed); }
      if !c.metadataOk { return Err(MetadataFailed); }
      status := EngineStatus(env, status, b, resp.value.stateRoot, c.proof);
      if !c.flushOk { return Err(MempoolFailed); }
      if !c.walOk { return Err(WalFailed); }
      exemption := {};
      return if c.broadcastOk then Ok(c.height + 1) else Err(NetworkFailed);
    }

    method GetRichBlock(remote: Remote, number: nat) returns (r: Result<RichBlock>)
      requires chunk > 0
      ensures r == FetchRich(remote, number, chunk)
    {
      var block := remote.block(number);
      if block.None? { return Err(RemoteFailed); }
      var hashes, txs := block.value.txHashes, [];
      ghost var whole := FetchTxs(remote, number, hashes, chunk);
      assert forall rest: seq<SignedTx> :: txs + rest == rest;
      while hashes != []
        invariant whole == match FetchTxs(remote, number, hashes, chunk)
                           case None => None
                           case Some(rest) => Some(txs + rest)
        decreases |hashes|
      {
        var n := if |hashes| < chunk then |hashes| else chunk;
        var part := remote.txs(number, hashes[..n]);
        if part.None? { return Err(RemoteFailed); }
        txs, hashes := txs + part.value, hashes[n..];
        assert forall rest :: txs + rest == txs[..|txs| - |part.value|] + (part.value + rest);
      }
      assert txs + [] == txs;
      return Ok(RichBlock(block.value, txs));
    }

    method VerifyBlock(rich: RichBlock, remote: Remote) returns (r: Result<Proof>)
      ensures r == BlockCheck(env, store, rich, remote)
    {
      hide ProofCheck;
      var b := rich.block;
      var proof := remote.proof(b.header.number);
      if proof.None? { return Err(RemoteFailed); }
      var ok := VerifyProof(env, b, proof.value);
      if ok.Err? { return Err(ok.error); }
      ok := VerifyBlockHeader(ProposalOf(b));
      if ok.Err? { return Err(ok.error); }
      var previous := BlockAt(store, b.header.number - 1);
      if previous.None? { return Err(StorageItemNotFound); }
      ok := VerifyProof(env, previous.value, b.header.proof);
      if ok.Err? { return Err(ok.error); }
      if env.digestTxs(rich.txs) != b.header.signedTxsHash { return Err(InvalidOrderSignedTransactionsHash); }
      return Ok(proof.value);
    }

    /** `agent` is the session's own status, swapped in place by the source. */
    method CommitBlock(agent: CurrentStatus, rich: RichBlock, proof: Proof, fault: Fault)
      returns (agent': CurrentStatus, r: Result<()>)
      modifies this`store
      ensures (SyncState(store, agent'), r) == CommitBlockNext(env, SyncState(old(store), agent), rich, proof, fault)
      ensures r.Ok? ==> CommitBlockStored(env, SyncState(old(store), agent), rich, proof, SyncState(store, agent'))
    {
      if CommitBlockNext(env, SyncState(store, agent), rich, proof, fault).1.Ok? {
        CommitBlockStores(env, SyncState(store, agent), rich, proof, fault);
      }
      hide CommitBlockStored;
      agent' := agent;
      var b := rich.block;
      var resp := env.exec(agent.lastStateRoot, ProposalOf(b), rich.txs);
      if resp.None? { return agent', Err(ExecFailed); }
      if resp.value.stateRoot != b.header.stateRoot { return agent', Err(InvalidStateRoot); }
      if resp.value.receiptRoot != b.header.receiptsRoot { return agent', Err(InvalidReceiptsRoot); }
      if !fault.metadataOk { return agent', Err(MetadataFailed); }
      agent' := SyncedStatus(env, b, resp.value.stateRoot, proof);
      var saved := Persist(SyncWrites(env, b, rich.txs, resp.value), fault.budget);
      if !saved { return agent', Err(StoreFailed); }
      if !fault.flushOk { return agent', Err(MempoolFailed); }
      return agent', Ok(());
    }

    method StartSync(agent: CurrentStatus, from: nat, target: nat, remote: Remote, faults: Faults)
      returns (agent': CurrentStatus, r: Result<()>)
      requires chunk > 0
      modifies this`store
      ensures (SyncState(store, agent'), r) ==
              SyncLoop(env, SyncState(old(store), agent), from, target, remote, chunk, faults)
    {
      agent' := agent;
      var current := from;
      while current < target
        invariant SyncLoop(env, SyncState(old(store), agent), from, target, remote, chunk, faults) ==
                  SyncLoop(env, SyncState(store, agent'), current, target, remote, chunk, faults)
        decreases target - current
      {
        var rich := GetRichBlock(remote, current + 1);
        if rich.Err? { return agent', Err(rich.error); }
        var proof := VerifyBlock(rich.value, remote);
        if proof.Err? { return agent', Err(proof.error); }
        agent', r := CommitBlock(agent', rich.value, proof.value, faults(current + 1));
        if r.Err? { return; }
        current := current + 1;
      }
      r := Ok(());
    }

    method ReceiveRemoteBlock(remote: Remote, remoteNumber: nat, faults: Faults) returns (r: Result<()>)
      requires chunk > 0
      modifies this`store, this`status
      ensures (State(), r) == ReceiveNext(env, old(State()), remote, remoteNumber, chunk, faults)
      ensures State() == Run(env, old(State()), ReceiveSteps(old(State()), remote, remoteNumber, chunk, faults))
      ensures AnswersAsked(remote) ==> KeepsAll(env, old(State()), State())
    {
      hide KeepsAll, AnswersAsked, ReceiveSteps, Run;
      ReceiveIsRun(env, State(), remote, remoteNumber, chunk, faults);
      ReceiveKeepsAll(env, State(), remote, remoteNumber, chunk, faults);
      var need := NeedSync(NodeState(status, store, exemption, session, {}, {}), remote, remoteNumber);
      if need.Err? { return Err(need.error); }
      if !need.value || session.Some? { return Ok(()); }
      var agent;
      agent, r := StartSync(status, status.lastNumber, SyncTarget(status.lastNumber, remoteNumber), remote, faults);
      if r.Err? { return; }
      status := agent;
    }
  }
}

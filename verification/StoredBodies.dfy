/** The transactions stored with a block of the chain are the ones whose execution gave its roots, and the receipts
    stored with them are the ones that execution gave. */
module StoredBodies {
  import opened ChainTypes
  import opened ChainStore
  import opened Quorum
  import opened NodeSpec
  import opened NodeSafety
  import opened SyncReplay
  import opened StoredBlocks

  /** Block i carries the roots of executing some transactions, which are stored with their receipts at height i; if
      they are listed in the block, they are what a lookup at height i gives. */
  ghost predicate BodyRuns(env: Env, g: Hash, store: Store, i: nat) {
    && i > 0 && i in store.blocks && i - 1 in store.blocks
    && RunsOn(env, RootAt(store, g, i - 1), store, i)
  }

  ghost predicate RunsOn(env: Env, root: Hash, store: Store, i: nat)
    requires i in store.blocks
  {
    exists txs :: RunsAs(env, root, store, i, txs)
  }

  ghost predicate RunsAs(env: Env, root: Hash, store: Store, i: nat, txs: seq<SignedTx>)
    requires i in store.blocks
  {
    && RootStep(env, root, store.blocks[i], txs)
    && BodyAt(env, store, i, store.blocks[i], txs, env.exec(root, ProposalOf(store.blocks[i]), txs).value.txResp)
    && (Listed(store.blocks[i], txs) ==> LookupTxs(store, i, store.blocks[i].txHashes) == txs)
  }

  ghost predicate BodiesOk(env: Env, g: Hash, store: Store, n: nat) {
    forall i :: 0 < i <= n ==> BodyRuns(env, g, store, i)
  }

  ghost predicate Bodies(env: Env, g: Hash, s: NodeState) {
    && BodiesOk(env, g, s.store, s.status.lastNumber)
    && (s.session.Some? ==> BodiesOk(env, g, s.store, s.session.value.agent.lastNumber))
  }

  lemma BodiesFrame(env: Env, g: Hash, s: Store, t: Store, n: nat)
    requires BodiesOk(env, g, s, n) && SameBelow(s, t, n + 1)
    ensures BodiesOk(env, g, t, n)
  {
    hide SameBelow, Listed, BodyAt;
    forall i | 0 < i <= n
      ensures BodyRuns(env, g, t, i)
    {
      assert BodyRuns(env, g, s, i);
      var txs :| RunsAs(env, RootAt(s, g, i - 1), s, i, txs);
      SameBelowAt(s, t, n + 1, i);
      SameBelowAt(s, t, n + 1, i - 1);
      LookupFrame(s, t, n + 1, i, s.blocks[i].txHashes);
      BodyAtFrame(env, s, t, i, n + 1, s.blocks[i], txs,
                  env.exec(RootAt(s, g, i - 1), ProposalOf(s.blocks[i]), txs).value.txResp);
      assert RunsAs(env, RootAt(t, g, i - 1), t, i, txs);
    }
  }

  /** A block saved with its transactions on top of a chain. */
  lemma BodiesGrow(env: Env, g: Hash, s: Store, t: Store, b: Block, txs: seq<SignedTx>, n: nat)
    requires BodiesOk(env, g, s, n) && n in s.blocks && SameBelow(s, t, n + 1)
    requires b.header.number == n + 1 && BlockAt(t, n + 1) == Some(b)
    requires RootStep(env, RootAt(s, g, n), b, txs)
    requires BodyAt(env, t, n + 1, b, txs, env.exec(RootAt(s, g, n), ProposalOf(b), txs).value.txResp)
    ensures BodiesOk(env, g, t, n + 1)
  {
    hide SameBelow, Listed, LookupTxs, BodyAt;
    BodiesFrame(env, g, s, t, n);
    SameBelowAt(s, t, n + 1, n);
    if Listed(b, txs) {
      BodyLookup(env, t, n + 1, b, txs, env.exec(RootAt(s, g, n), ProposalOf(b), txs).value.txResp);
    }
    assert RunsAs(env, RootAt(t, g, n), t, n + 1, txs);
  }

  lemma CommitBodies(env: Env, g: Hash, s: NodeState, c: CommitInput)
    requires Inv(env, g, s) && Bodies(env, g, s) && Admissible(env, s, Commit(c))
    ensures Bodies(env, g, CommitNext(env, s, c).0)
  {
    hide BodiesOk, SameBelow, Inv;
    var t := CommitNext(env, s, c).0;
    var n := s.status.lastNumber;
    CommitFrame(env, s, c);
    BodiesFrame(env, g, s.store, t.store, n);
    if t.status != s.status {
      PublishedBlock(env, g, s);
      CommitSaves(env, s, c);
      BodiesGrow(env, g, s.store, t.store, t.store.blocks[n + 1], c.txs.value, n);
    }
  }

  lemma PublishedBlock(env: Env, g: Hash, s: NodeState)
    requires Inv(env, g, s)
    ensures s.status.lastNumber in s.store.blocks && s.status.lastStateRoot == RootAt(s.store, g, s.status.lastNumber)
  {
  }

  lemma CommitSaves(env: Env, s: NodeState, c: CommitInput)
    requires Admissible(env, s, Commit(c)) && CommitNext(env, s, c).0.status != s.status
    ensures Executed(env, s, c)
    ensures
      var t := CommitNext(env, s, c).0;
      && t.status.lastNumber == c.height == s.status.lastNumber + 1 && t.session.None?
      && c.height in t.store.blocks && t.store.blocks[c.height].header.number == c.height
      && var b := t.store.blocks[c.height];
      && RootStep(env, s.status.lastStateRoot, b, c.txs.value)
      && BodyAt(env, t.store, c.height, b, c.txs.value,
                env.exec(s.status.lastStateRoot, ProposalOf(b), c.txs.value).value.txResp)
  {
    hide BodyAt;
    CommitStores(env, s, c);
    CarriesIsProposal(CommitNext(env, s, c).0.store.blocks[c.height], c.content);
  }

  lemma CarriesIsProposal(b: Block, p: Proposal)
    requires Carries(b, p)
    ensures ProposalOf(b) == p
  {
  }

  /** What a saved reply leaves at its height. */
  lemma SyncSaves(env: Env, s: SyncState, number: nat, remote: Remote, chunk: nat, fault: Fault)
    requires chunk > 0 && SyncOne(env, s, number, remote, chunk, fault).1.Ok?
    ensures FetchRich(remote, number, chunk).Ok?
    ensures
      var rich := FetchRich(remote, number, chunk).value;
      var b := rich.block;
      var t := SyncOne(env, s, number, remote, chunk, fault).0;
      && remote.block(number) == Some(b) && t.agent.lastNumber == b.header.number
      && BlockAt(t.store, b.header.number) == Some(b) && RootStep(env, s.agent.lastStateRoot, b, rich.txs)
      && BodyAt(env, t.store, b.header.number, b, rich.txs,
                env.exec(s.agent.lastStateRoot, ProposalOf(b), rich.txs).value.txResp)
  {
    hide BodyAt;
    SyncOneChecked(env, s, number, remote, chunk, fault);
    hide SyncOne, FetchRich, ProofCheck, CommitBlockNext;
    var rich := FetchRich(remote, number, chunk).value;
    CommitBlockStores(env, s, rich, remote.proof(rich.block.header.number).value, fault);
  }

  lemma SyncBodies(env: Env, g: Hash, s: NodeState, remote: Remote, chunk: nat, fault: Fault)
    requires Inv(env, g, s) && Bodies(env, g, s) && Admissible(env, s, SyncBlock(remote, chunk, fault))
    ensures Bodies(env, g, Next(env, s, SyncBlock(remote, chunk, fault)))
  {
    hide BodiesOk, SameBelow, SyncOne, FetchRich, StatusOk, RecordsOk;
    StepIsMonotone(env, g, s, SyncBlock(remote, chunk, fault));
    BodiesFrame(env, g, s.store, Next(env, s, SyncBlock(remote, chunk, fault)).store, s.status.lastNumber);
    if s.session.Some? && s.session.value.current < s.session.value.target && chunk > 0 {
      var view := SyncState(s.store, s.session.value.agent);
      var n := s.session.value.current;
      SyncOneFrame(env, view, n + 1, remote, chunk, fault);
      if SyncOne(env, view, n + 1, remote, chunk, fault).1.Ok? {
        SyncSaves(env, view, n + 1, remote, chunk, fault);
        var rich := FetchRich(remote, n + 1, chunk).value;
        SessionBlock(env, g, s);
        BodiesGrow(env, g, s.store, SyncOne(env, view, n + 1, remote, chunk, fault).0.store, rich.block, rich.txs, n);
      }
    }
  }

  lemma SessionBlock(env: Env, g: Hash, s: NodeState)
    requires Inv(env, g, s) && s.session.Some?
    ensures
      var agent := s.session.value.agent;
      agent.lastNumber in s.store.blocks && agent.lastStateRoot == RootAt(s.store, g, agent.lastNumber)
  {
  }

  lemma StepKeepsBodies(env: Env, g: Hash, s: NodeState, step: Step)
    requires Inv(env, g, s) && Bodies(env, g, s) && Admissible(env, s, step)
    ensures Bodies(env, g, Next(env, s, step))
  {
    hide BodiesOk, Inv;
    match step
    case Commit(c) => CommitBodies(env, g, s, c);
    case SyncBlock(remote, chunk, fault) => SyncBodies(env, g, s, remote, chunk, fault);
    case _ =>
  }

  /** Over every run, what is stored with each published block is what was executed for it. */
  lemma {:induction false} StoredTxsAreExecuted(env: Env, g: Hash, s: NodeState, steps: seq<Step>)
    requires ProposalHashInjective(env)
    requires Genesis(env, g, s) && AdmissibleRun(env, s, steps)
    ensures Bodies(env, g, Run(env, s, steps))
    ensures Inv(env, g, Run(env, s, steps))
  {
    ChainSafety(env, g, s, steps);
    if steps != [] {
      hide Bodies, Inv, Next, Admissible;
      var front := steps[..|steps| - 1];
      forall i | 0 <= i < |front|
        ensures Admissible(env, Run(env, s, front[..i]), front[i])
      {
        assert front[..i] == steps[..i];
      }
      StoredTxsAreExecuted(env, g, s, front);
      StepKeepsBodies(env, g, Run(env, s, front), steps[|steps| - 1]);
    }
  }
}

/** `receive_remote_block` as a run of single steps, so that everything proved of runs holds of it. */
module NodeRuns {
  import opened ChainTypes
  import opened ChainStore
  import opened NodeSpec
  import opened NodeSafety
  import opened StoredBlocks

  lemma {:induction false} RunConcat(env: Env, s: NodeState, a: seq<Step>, b: seq<Step>)
    ensures Run(env, s, a + b) == Run(env, Run(env, s, a), b)
  {
    if b == [] {
      assert a + b == a;
    } else {
      var front := b[..|b| - 1];
      assert (a + b)[..|a + b| - 1] == a + front;
      RunConcat(env, s, a, front);
    }
  }

  lemma RunOne(env: Env, s: NodeState, step: Step)
    ensures Run(env, s, [step]) == Next(env, s, step)
  {
    hide Next;
    assert [step][..0] == [];
    assert Run(env, s, [step][..0]) == s;
  }

  lemma RunThree(env: Env, s: NodeState, a: Step, b: Step, c: Step)
    ensures Run(env, s, [a, b, c][..0]) == s && Run(env, s, [a, b, c][..1]) == Next(env, s, a)
    ensures Run(env, s, [a, b, c][..2]) == Next(env, Next(env, s, a), b)
    ensures Run(env, s, [a, b, c]) == Next(env, Next(env, Next(env, s, a), b), c)
  {
    hide Next;
    assert [a, b, c][..1] == [a] && [a, b, c][..2] == [a, b];
    assert [a][..0] == [] && [a, b][..1] == [a];
    RunOne(env, s, a);
  }

  /** The engine advances by itself: from every good state without a sync session, proposing the next height, checking
      the proposal and committing it with a proof of its height is an admissible run, and if its transactions execute
      and nothing fails it publishes that height. */
  lemma OneHeight(env: Env, g: Hash, s: NodeState, i: ProposalInput, now: nat, known: bool, c: CommitInput)
    requires Inv(env, g, s) && s.session.None? && GetBlockNext(env, s, i).1 == Ok(c.content)
    requires i.number == s.status.lastNumber + 1 == c.height == c.proof.number && c.txs == Some(i.txs)
    requires env.exec(s.status.lastStateRoot, c.content, i.txs).Some?
    requires c.budget >= 9 && c.metadataOk && c.flushOk && c.walOk && c.broadcastOk
    ensures
      var steps :=
        [GetBlock(i), CheckBlock(CheckInput(env.proposalHash(c.content), c.content, now, known, c.txs)), Commit(c)];
      var t := Run(env, s, steps);
      && AdmissibleRun(env, s, steps)
      && t.status.lastNumber == c.height && t.status.proof == c.proof && t.exemption == {} && t.session.None?
  {
    var check := CheckBlock(CheckInput(env.proposalHash(c.content), c.content, now, known, c.txs));
    var steps := [GetBlock(i), check, Commit(c)];
    RunThree(env, s, GetBlock(i), check, Commit(c));
    OwnProposalPassesIff(env, s, i, now, known, c.txs);
    var s1 := Next(env, s, GetBlock(i));
    var s2 := Next(env, s1, check);
    assert s2 == s1.(approved := s1.approved + {(s.status.lastNumber, c.content)});
    assert Admissible(env, s2, Commit(c));
    CommitAnswersIff(env, s2, c);
    CommitStores(env, s2, c);
    hide CommitNext, BodySaved, Run, Inv, InnerCheck, CheckResult;
    forall k | 0 <= k < |steps|
      ensures Admissible(env, Run(env, s, steps[..k]), steps[k])
    {
    }
  }

  lemma SyncOneReaches(env: Env, s: SyncState, n: nat, remote: Remote, chunk: nat, fault: Fault)
    requires chunk > 0 && AnswersAsked(remote) && SyncOne(env, s, n, remote, chunk, fault).1.Ok?
    ensures SyncOne(env, s, n, remote, chunk, fault).0.agent.lastNumber == n
  {
    SyncOneChecked(env, s, n, remote, chunk, fault);
    hide SyncOne, FetchRich, CommitBlockNext;
    var rich := FetchRich(remote, n, chunk).value;
    CommitBlockSaves(env, s, rich, remote.proof(rich.block.header.number).value, fault);
  }

  /** A finished loop has synced the target. */
  lemma {:induction false} LoopReaches(env: Env, s: SyncState, current: nat, target: nat, remote: Remote, chunk: nat,
                                       faults: Faults)
    requires chunk > 0 && AnswersAsked(remote) && s.agent.lastNumber == current <= target
    ensures
      var (t, r) := SyncLoop(env, s, current, target, remote, chunk, faults);
      r.Ok? ==> t.agent.lastNumber == target
    decreases target - current
  {
    hide SyncOne;
    if current < target {
      var (t, r) := SyncOne(env, s, current + 1, remote, chunk, faults(current + 1));
      if r.Ok? {
        SyncOneReaches(env, s, current + 1, remote, chunk, faults(current + 1));
        LoopReaches(env, t, current + 1, target, remote, chunk, faults);
      }
    }
  }

  /** A call that succeeds with the lock free and a higher height announced publishes that height, or fifty blocks more
      than before; any other call publishes nothing. */
  lemma ReceiveReaches(env: Env, s: NodeState, remote: Remote, n: nat, chunk: nat, faults: Faults)
    requires chunk > 0 && AnswersAsked(remote)
    ensures
      var (t, r) := ReceiveNext(env, s, remote, n, chunk, faults);
      var last := s.status.lastNumber;
      if r.Ok? && s.session.None? && n > last
      then t.status.lastNumber == if n < last + 50 then n else last + 50
      else t.status == s.status
  {
    hide SyncLoop;
    var last := s.status.lastNumber;
    if n > last {
      LoopReaches(env, SyncState(s.store, s.status), last, SyncTarget(last, n), remote, chunk, faults);
    }
  }

  /** One step per height of the loop. */
  function LoopSteps(remote: Remote, chunk: nat, faults: Faults, current: nat, target: nat): seq<Step>
    decreases target - current
  {
    if current >= target then []
    else [SyncBlock(remote, chunk, faults(current + 1))] + LoopSteps(remote, chunk, faults, current + 1, target)
  }

  /** Without a session the steps of a loop do nothing. */
  lemma {:induction false} LoopIdle(env: Env, s: NodeState, remote: Remote, chunk: nat, faults: Faults,
                                    current: nat, target: nat)
    requires s.session.None?
    ensures Run(env, s, LoopSteps(remote, chunk, faults, current, target)) == s
    decreases target - current
  {
    if current < target {
      FirstStep(env, s, remote, chunk, faults, current, target);
      LoopIdle(env, s, remote, chunk, faults, current + 1, target);
    }
  }

  /** Where a session's loop leaves the node. */
  ghost function AfterLoop(env: Env, s: NodeState, remote: Remote, chunk: nat, faults: Faults): NodeState
    requires s.session.Some? && chunk > 0
  {
    var x := s.session.value;
    var (t, r) := SyncLoop(env, SyncState(s.store, x.agent), x.current, x.target, remote, chunk, faults);
    s.(store := t.store,
       session := if r.Err? then None
                  else Some(Session(t.agent, if x.current < x.target then x.target else x.current, x.target)))
  }

  /** One turn, then the rest of the loop if the session lives on. */
  lemma AfterLoopStep(env: Env, s: NodeState, remote: Remote, chunk: nat, faults: Faults)
    requires s.session.Some? && chunk > 0 && s.session.value.current < s.session.value.target
    ensures
      var x := s.session.value;
      var m := Next(env, s, SyncBlock(remote, chunk, faults(x.current + 1)));
      && (m.session.Some? ==> m.session.value.current == x.current + 1 && m.session.value.target == x.target)
      && AfterLoop(env, s, remote, chunk, faults) ==
         if m.session.Some? then AfterLoop(env, m, remote, chunk, faults) else m
  {
    hide SyncOne;
  }

  lemma AfterLoopNone(env: Env, s: NodeState, remote: Remote, chunk: nat, faults: Faults)
    requires s.session.Some? && chunk > 0 && s.session.value.current >= s.session.value.target
    ensures AfterLoop(env, s, remote, chunk, faults) == s
  {
  }

  /** The loop is its steps, for replies of any height and any failures. */
  lemma {:induction false} LoopIsRun(env: Env, s: NodeState, remote: Remote, chunk: nat, faults: Faults)
    requires s.session.Some? && chunk > 0
    ensures
      var x := s.session.value;
      Run(env, s, LoopSteps(remote, chunk, faults, x.current, x.target)) == AfterLoop(env, s, remote, chunk, faults)
    decreases s.session.value.target - s.session.value.current
  {
    hide Next, Run, AfterLoop;
    var x := s.session.value;
    if x.current < x.target {
      AfterLoopStep(env, s, remote, chunk, faults);
      var first := SyncBlock(remote, chunk, faults(x.current + 1));
      var m := Next(env, s, first);
      FirstStep(env, s, remote, chunk, faults, x.current, x.target);
      if m.session.Some? {
        LoopIsRun(env, m, remote, chunk, faults);
      } else {
        LoopIdle(env, m, remote, chunk, faults, x.current + 1, x.target);
      }
    } else {
      AfterLoopNone(env, s, remote, chunk, faults);
      RunNothing(env, s);
    }
  }

  lemma FirstStep(env: Env, s: NodeState, remote: Remote, chunk: nat, faults: Faults, current: nat, target: nat)
    requires current < target
    ensures Run(env, s, LoopSteps(remote, chunk, faults, current, target)) ==
            Run(env, Next(env, s, SyncBlock(remote, chunk, faults(current + 1))),
                LoopSteps(remote, chunk, faults, current + 1, target))
  {
    hide Next, Run;
    var first := SyncBlock(remote, chunk, faults(current + 1));
    RunOne(env, s, first);
    RunConcat(env, s, [first], LoopSteps(remote, chunk, faults, current + 1, target));
  }

  /** The steps of `receive_remote_block`. */
  function ReceiveSteps(s: NodeState, remote: Remote, remoteNumber: nat, chunk: nat, faults: Faults): seq<Step> {
    var need := NeedSync(s, remote, remoteNumber);
    if need.Err? || !need.value || s.session.Some? then []
    else
      var n := s.status.lastNumber;
      [SyncBegin(remoteNumber)] + LoopSteps(remote, chunk, faults, n, SyncTarget(n, remoteNumber)) + [SyncEnd]
  }

  /** `receive_remote_block` is a run, whatever the peer answers. */
  lemma ReceiveIsRun(env: Env, s: NodeState, remote: Remote, remoteNumber: nat, chunk: nat, faults: Faults)
    requires chunk > 0
    ensures ReceiveNext(env, s, remote, remoteNumber, chunk, faults).0 ==
            Run(env, s, ReceiveSteps(s, remote, remoteNumber, chunk, faults))
  {
    hide SyncLoop, Run;
    var steps := ReceiveSteps(s, remote, remoteNumber, chunk, faults);
    RunNothing(env, s);
    if steps != [] {
      var n := s.status.lastNumber;
      var loop := LoopSteps(remote, chunk, faults, n, SyncTarget(n, remoteNumber));
      var begun := Next(env, s, SyncBegin(remoteNumber));
      RunConcat(env, s, [SyncBegin(remoteNumber)] + loop, [SyncEnd]);
      RunConcat(env, s, [SyncBegin(remoteNumber)], loop);
      RunOne(env, s, SyncBegin(remoteNumber));
      LoopIsRun(env, begun, remote, chunk, faults);
      RunOne(env, AfterLoop(env, begun, remote, chunk, faults), SyncEnd);
    }
  }

  lemma RunNothing(env: Env, s: NodeState)
    ensures Run(env, s, []) == s
  {
  }

  lemma {:induction false} LoopAdmissible(remote: Remote, chunk: nat, faults: Faults, current: nat, target: nat)
    requires AnswersAsked(remote)
    ensures forall env, s, x :: x in LoopSteps(remote, chunk, faults, current, target) ==> Admissible(env, s, x)
    decreases target - current
  {
    if current < target {
      LoopAdmissible(remote, chunk, faults, current + 1, target);
    }
  }

  /** What every completed call keeps: a good chain, the published height and everything stored up to it. */
  ghost predicate Kept(env: Env, g: Hash, s: NodeState, t: NodeState) {
    && Inv(env, g, t) && t.status.lastNumber >= s.status.lastNumber
    && SameBelow(s.store, t.store, s.status.lastNumber + 1)
  }

  lemma StepKept(env: Env, g: Hash, s: NodeState, step: Step)
    requires ProposalHashInjective(env) && Inv(env, g, s) && Admissible(env, s, step)
    ensures Kept(env, g, s, Next(env, s, step))
  {
    hide Inv, Next, SameBelow;
    StepKeepsInv(env, g, s, step);
    StepIsMonotone(env, g, s, step);
  }

  /** A step of a trusted kind keeps the chain safe, whatever the genesis root. */
  ghost predicate KeepsAll(env: Env, s: NodeState, t: NodeState) {
    ProposalHashInjective(env) ==> forall g :: Inv(env, g, s) ==> Kept(env, g, s, t)
  }

  lemma StepKeepsAll(env: Env, s: NodeState, step: Step)
    ensures Admissible(env, s, step) ==> KeepsAll(env, s, Next(env, s, step))
  {
    hide Inv, Next, Kept;
    if Admissible(env, s, step) && ProposalHashInjective(env) {
      forall g | Inv(env, g, s)
        ensures Kept(env, g, s, Next(env, s, step))
      {
        StepKept(env, g, s, step);
      }
    }
  }

  lemma ReceiveKeepsAll(env: Env, s: NodeState, remote: Remote, remoteNumber: nat, chunk: nat, faults: Faults)
    requires chunk > 0
    ensures AnswersAsked(remote) ==>
              KeepsAll(env, s, ReceiveNext(env, s, remote, remoteNumber, chunk, faults).0)
  {
    hide Inv, ReceiveNext, Kept;
    if AnswersAsked(remote) && ProposalHashInjective(env) {
      forall g | Inv(env, g, s)
        ensures Kept(env, g, s, ReceiveNext(env, s, remote, remoteNumber, chunk, faults).0)
      {
        ReceiveKept(env, g, s, remote, remoteNumber, chunk, faults);
      }
    }
  }

  /** With peers that answer with the height asked for, `receive_remote_block` keeps the chain safe. */
  lemma ReceiveKept(env: Env, g: Hash, s: NodeState, remote: Remote, remoteNumber: nat, chunk: nat, faults: Faults)
    requires ProposalHashInjective(env) && Inv(env, g, s) && AnswersAsked(remote) && chunk > 0
    ensures Kept(env, g, s, ReceiveNext(env, s, remote, remoteNumber, chunk, faults).0)
  {
    hide Inv, Run, SameBelow, ReceiveNext;
    var steps := ReceiveSteps(s, remote, remoteNumber, chunk, faults);
    var n := s.status.lastNumber;
    LoopAdmissible(remote, chunk, faults, n, SyncTarget(n, remoteNumber));
    forall i | 0 <= i < |steps|
      ensures Admissible(env, Run(env, s, steps[..i]), steps[i])
    {
      assert steps[i] in steps;
    }
    ReceiveIsRun(env, s, remote, remoteNumber, chunk, faults);
    PublishedIsFinal(env, g, s, steps);
  }
}

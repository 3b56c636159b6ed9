/** What the joint invariant means for rollbacks and rollouts, over every run. */
module ControlLoopTheorems {
  import opened Domain
  import opened Runner
  import opened Store
  import opened ControlPlane
  import opened ControlLoop
  import opened ControlLoopInvariant

  // ---------------------------------------------------------------------------
  // Rollback targets exist
  // ---------------------------------------------------------------------------

  /** In every run that plans each id for one node only, every rollback command ever
      signed names a release its node's runner holds. */
  lemma RollbackTargetsExist(crypto: Crypto, w: World, c: RunnerCommand)
    requires Reachable(crypto, w) && OneNode(w.past.planned)
    requires c in w.past.signed && c.kind.RollbackDeployment?
    ensures c.kind.rollbackTo in RunnerOf(w, c.nodeId).fs.releases
  {
    ReachableInv(crypto, w);
    assert KindFact(crypto, w, c.nodeId, c.kind);
  }

  /** Hence such a command, whenever its runner accepts it, ends as RolledBack with the
      target active; it never reports a missing release. */
  lemma AcceptedRollbackSwitches(crypto: Crypto, w: World, step: Step)
    requires Reachable(crypto, w) && OneNode(w.past.planned)
    requires Enabled(crypto, w, step) && step.RunnerReceives? && step.envelope.command.kind.RollbackDeployment?
    requires ApplySpec(crypto, RunnerOf(w, step.node), step.envelope, step.at, step.oracles).accepted
    ensures var x := ApplySpec(crypto, RunnerOf(w, step.node), step.envelope, step.at, step.oracles);
            var k := step.envelope.command.kind;
            && x.report == Some(DeploymentResult(k.deploymentId, RolledBack, k.artifactSha256))
            && x.state.fs.active == Some(k.rollbackTo) && Served(x.state.fs).Some?
  {
    ReachableInv(crypto, w);
    RefusalChangesNothing(crypto, RunnerOf(w, step.node), step.envelope, step.at, step.oracles);
    RollbackTargetsExist(crypto, w, step.envelope.command);
  }

  // ---------------------------------------------------------------------------
  // Rollback restores the right bytes
  // ---------------------------------------------------------------------------

  predicate SamePrefix(a: Digest, b: Digest) {
    a.first12 == b.first12
  }

  /** On the configurations planned so far, the 12-digit prefix decides the digest. */
  ghost predicate PrefixesDecide(crypto: Crypto, planned: set<PlanEvent>) {
    forall e, f :: e in planned && f in planned && SamePrefix(crypto.sha256(e.config), crypto.sha256(f.config)) ==>
      crypto.sha256(e.config) == crypto.sha256(f.config)
  }

  /** No node gets one id with two configurations. */
  ghost predicate OneConfigPerNode(planned: set<PlanEvent>) {
    forall e, f :: e in planned && f in planned && e.id == f.id && e.node == f.node ==> e.config == f.config
  }

  /** A digest whose prefix names a planned release is the digest of that release. */
  lemma PrefixDecides(crypto: Crypto, w: World, sha: Digest, e: PlanEvent)
    requires PrefixesDecide(crypto, w.past.planned) && Known(crypto, w, sha) && e in w.past.planned
    requires DeploymentIdOf(sha) == DeploymentIdOf(crypto.sha256(e.config))
    ensures sha == crypto.sha256(e.config)
  {
    var f :| f in w.past.planned && crypto.sha256(f.config) == sha;
    DeploymentIdPrefix(sha, crypto.sha256(e.config));
  }

  /** After a rollback reported as RolledBack, the active configuration hashes to the
      command's digest. */
  lemma RollbackRestoresBytes(crypto: Crypto, w: World, step: Step)
    requires Reachable(crypto, w) && PrefixesDecide(crypto, w.past.planned)
    requires Enabled(crypto, w, step) && step.RunnerReceives? && step.envelope.command.kind.RollbackDeployment?
    requires var x := ApplySpec(crypto, RunnerOf(w, step.node), step.envelope, step.at, step.oracles);
             x.report.Some? && x.report.value.status == RolledBack
    ensures var fs := ApplySpec(crypto, RunnerOf(w, step.node), step.envelope, step.at, step.oracles).state.fs;
            Served(fs).Some? && crypto.sha256(Served(fs).value) == step.envelope.command.kind.artifactSha256
    ensures step.envelope.command in w.past.signed
  {
    ReachableInv(crypto, w);
    var r, c := RunnerOf(w, step.node), step.envelope.command;
    RefusalChangesNothing(crypto, r, step.envelope, step.at, step.oracles);
    var target := c.kind.rollbackTo;
    assert KindFact(crypto, w, c.nodeId, c.kind);
    assert Held(w, step.node, target);
    assert ReleaseFact(crypto, w, step.node, target, r.fs.releases[target]);
    PrefixDecides(crypto, w, c.kind.artifactSha256, PlanEvent(target, step.node, r.fs.releases[target]));
  }

  /** That digest, and the bytes behind it, are the ones every apply command for the
      target carried. */
  lemma RollbackDigestIsTheOriginal(crypto: Crypto, w: World, rollback: RunnerCommand, apply: RunnerCommand)
    requires Reachable(crypto, w) && PrefixesDecide(crypto, w.past.planned)
    requires rollback in w.past.signed && rollback.kind.RollbackDeployment?
    requires apply in w.past.signed && apply.kind.ApplyDeploymentPlan?
    requires apply.kind.deploymentId == rollback.kind.rollbackTo
    ensures apply.kind.artifactSha256 == rollback.kind.artifactSha256 == crypto.sha256(apply.kind.config)
  {
    ReachableInv(crypto, w);
    assert KindFact(crypto, w, rollback.nodeId, rollback.kind);
    assert KindFact(crypto, w, apply.nodeId, apply.kind);
    PrefixDecides(crypto, w, rollback.kind.artifactSha256,
        PlanEvent(apply.kind.deploymentId, apply.nodeId, apply.kind.config));
  }

  ghost predicate NoDanglingLink(w: World) {
    forall n :: n in w.runners && w.runners[n].fs.active.Some? ==>
        w.runners[n].fs.active.value in w.runners[n].fs.releases
  }

  lemma StepKeepsLinks(crypto: Crypto, w: World, step: Step)
    requires NoDanglingLink(w) && Enabled(crypto, w, step)
    ensures NoDanglingLink(Next(crypto, w, step))
  {
    if step.RunnerReceives? {
      ReactReleases(crypto, Lifetime(RunnerOf(w, step.node), []), Receive(step.envelope, step.at, step.oracles), "");
    }
  }

  lemma {:induction false} RunKeepsLinks(crypto: Crypto, tenant: string, steps: seq<Step>)
    requires ValidRun(crypto, Initial(tenant), steps)
    ensures NoDanglingLink(RunFrom(crypto, Initial(tenant), steps))
    decreases |steps|
  {
    if steps != [] {
      RunKeepsLinks(crypto, tenant, steps[..|steps|-1]);
      StepKeepsLinks(crypto, RunFrom(crypto, Initial(tenant), steps[..|steps|-1]), steps[|steps|-1]);
    }
  }

  lemma ReachableLinks(crypto: Crypto, w: World)
    requires Reachable(crypto, w)
    ensures NoDanglingLink(w)
  {
    var tenant, steps :| ValidRun(crypto, Initial(tenant), steps) && RunFrom(crypto, Initial(tenant), steps) == w;
    RunKeepsLinks(crypto, tenant, steps);
  }

  /** Since ids are made from contents, in every run an apply that does not succeed
      leaves what is served unchanged: the one way to replace it needs a collision. */
  lemma FailedApplyKeepsServing(crypto: Crypto, w: World, step: Step)
    requires Reachable(crypto, w) && OneConfigPerNode(w.past.planned)
    requires Enabled(crypto, w, step) && step.RunnerReceives? && step.envelope.command.kind.ApplyDeploymentPlan?
    requires var x := ApplySpec(crypto, RunnerOf(w, step.node), step.envelope, step.at, step.oracles);
             x.report.Some? && x.report.value.status != Succeeded
    ensures Served(ApplySpec(crypto, RunnerOf(w, step.node), step.envelope, step.at, step.oracles).state.fs)
         == Served(RunnerOf(w, step.node).fs)
  {
    ReachableInv(crypto, w);
    ReachableLinks(crypto, w);
    var r, c := RunnerOf(w, step.node), step.envelope.command;
    RefusalChangesNothing(crypto, r, step.envelope, step.at, step.oracles);
    assert KindFact(crypto, w, c.nodeId, c.kind);
    ActiveIsItsContents(crypto, w, step.node, c.kind);
    var r1 := r.(seenNonces := r.seenNonces + {c.nonce}, lastSequence := c.sequence);
    FailedApplyKeepsServed(r1, c.kind.deploymentId, c.kind.config, step.oracles);
  }

  /** A planned apply of the id a runner serves carries the bytes it serves. */
  lemma ActiveIsItsContents(crypto: Crypto, w: World, node: string, kind: CommandKind)
    requires RunnersInv(crypto, w) && NoDanglingLink(w) && OneConfigPerNode(w.past.planned)
    requires kind.ApplyDeploymentPlan? && KindFact(crypto, w, node, kind)
    ensures RunnerOf(w, node).fs.active == Some(kind.deploymentId) ==> Served(RunnerOf(w, node).fs) == Some(kind.config)
  {
    var fs, id := RunnerOf(w, node).fs, kind.deploymentId;
    if fs.active == Some(id) {
      assert Held(w, node, id);
      assert ReleaseFact(crypto, w, node, id, fs.releases[id]);
      assert PlanEvent(id, node, fs.releases[id]).config == PlanEvent(id, node, kind.config).config;
    }
  }

  // ---------------------------------------------------------------------------
  // Rollout
  // ---------------------------------------------------------------------------

  /** No advance call ever ends on a missing pointer, snapshot or artifact, however its
      steps are interleaved with everything else. */
  lemma AdvanceNeverFindsARecordMissing(crypto: Crypto, w: World, h: nat)
    requires Reachable(crypto, w) && h in w.jobs && w.jobs[h].origin.AdvanceCall? && w.jobs[h].stage.Finished?
    ensures w.jobs[h].stage.outcome != MissingRecord
  {
    ReachableInv(crypto, w);
    assert JobFact(crypto, w, w.jobs[h]);
  }

  lemma RecordsAreThere(crypto: Crypto, w: World, id: string)
    requires Reachable(crypto, w)
    ensures var d := w.store.deployments;
            && d.plans.Keys == d.statuses.Keys == d.pointers.Keys
            && (id in d.statuses && d.statuses[id] != Pending ==> id in d.snapshots)
            && (id in d.pointers && d.pointers[id].previousId.Some? ==>
                  && d.pointers[id].previousArtifact.Some?
                  && ArtifactBytes(w.store.artifacts, d.pointers[id].previousArtifact.value).Some?)
  {
    ReachableInv(crypto, w);
    var d := w.store.deployments;
    if id in d.pointers && d.pointers[id].previousId.Some? {
      PointerNamesTarget(crypto, w, id);
    }
  }

  /** On a succeeded deployment whose latest sample is unhealthy, advance queues a
      rollback exactly when there is a previous deployment, and says so otherwise. */
  lemma {:induction false} AdvanceOnUnhealthy(crypto: Crypto, w: World, id: string, stamp: Stamp)
    requires Reachable(crypto, w) && id in w.store.deployments.statuses
    requires ReadinessOf(w.store.deployments.statuses[id], SamplesOf(w.store.deployments.health, id)) == LatestUnhealthy
    ensures id in w.store.deployments.pointers
    ensures var outcome := AdvanceSpec(crypto, CpState(w.store, w.sequences), id, stamp).outcome;
            if w.store.deployments.pointers[id].previousId.Some? then outcome.Queued? else outcome == NoPrevious
  {
    RecordsAreThere(crypto, w, id);
  }

  /** A rollback requested by an operator is queued exactly when the deployment has a
      previous one and has reported a result. */
  lemma OperatorRollback(crypto: Crypto, w: World, id: string, stamp: Stamp)
    requires Reachable(crypto, w)
    ensures (var d := w.store.deployments;
             id in d.pointers && d.pointers[id].previousId.Some? && id in d.snapshots)
            <==> RollbackSpec(crypto, CpState(w.store, w.sequences), id, stamp).outcome.Queued?
  {
    RecordsAreThere(crypto, w, id);
  }

  predicate SubmitsSuccess(step: Step, id: string) {
    step.SubmitResult? && step.report.result.deploymentId == id && step.report.result.status == Succeeded
  }

  ghost predicate NotSucceeded(w: World, id: string) {
    id in w.store.deployments.statuses && w.store.deployments.statuses[id] != Succeeded
  }

  /** An advance call for this id that can only wait. */
  ghost predicate OnlyWaits(job: Job, id: string) {
    job.origin == AdvanceCall(id) ==>
      || (job.stage.NeedsHealth? && job.stage.status != Succeeded)
      || job.stage == Finished(Waiting)
  }

  ghost predicate NewAdvancesWait(before: World, w: World, id: string) {
    forall h :: h in w.jobs && h !in before.jobs ==> OnlyWaits(w.jobs[h], id)
  }

  lemma SuccessNeedsAReport(crypto: Crypto, w: World, step: Step, id: string)
    requires Enabled(crypto, w, step) && !SubmitsSuccess(step, id) && NotSucceeded(w, id)
    ensures NotSucceeded(Next(crypto, w, step), id)
  {
  }

  lemma HealthReadWaits(crypto: Crypto, w: World, job: Job, id: string)
    requires JobFact(crypto, w, job) && OnlyWaits(job, id) && job.stage.NeedsHealth?
    ensures OnlyWaits(job.(stage := AfterHealth(w.store.deployments, job.stage.id, job.stage.status)), id)
  {
  }

  /** Seen from an advance call on this id, a step leaves it alone, starts it, or reads
      its health. */
  lemma WaitingJobStays(crypto: Crypto, w: World, step: Step, id: string, h: nat)
    requires JobsInv(crypto, w) && Enabled(crypto, w, step) && NotSucceeded(w, id)
    requires h in w.jobs ==> OnlyWaits(w.jobs[h], id)
    requires h in Next(crypto, w, step).jobs
    ensures OnlyWaits(Next(crypto, w, step).jobs[h], id)
  {
    if step.ReadHealth? && step.h == h {
      HealthReadWaits(crypto, w, w.jobs[h], id);
    }
  }

  lemma WaitingStays(crypto: Crypto, before: World, w: World, step: Step, id: string)
    requires JobsInv(crypto, w) && Enabled(crypto, w, step) && NotSucceeded(w, id) && NewAdvancesWait(before, w, id)
    ensures NewAdvancesWait(before, Next(crypto, w, step), id)
  {
    var w' := Next(crypto, w, step);
    forall h | h in w'.jobs && h !in before.jobs
      ensures OnlyWaits(w'.jobs[h], id)
    {
      WaitingJobStays(crypto, w, step, id, h);
    }
  }

  /** After a failed or rolled-back result, or a re-plan, and until some runner reports
      success for the id again: every advance call started meanwhile can only wait. It
      neither promotes nor gets as far as looking for a rollback. */
  lemma {:induction false} NoRolloutWithoutSuccess(crypto: Crypto, before: World, steps: seq<Step>, id: string)
    requires Inv(crypto, before) && NotSucceeded(before, id)
    requires ValidRun(crypto, before, steps)
    requires forall i :: 0 <= i < |steps| ==> !SubmitsSuccess(steps[i], id)
    ensures var w := RunFrom(crypto, before, steps);
            Inv(crypto, w) && NotSucceeded(w, id) && NewAdvancesWait(before, w, id)
    decreases |steps|
  {
    if steps != [] {
      var n := |steps| - 1;
      NoRolloutWithoutSuccess(crypto, before, steps[..n], id);
      var w := RunFrom(crypto, before, steps[..n]);
      StepKeepsInv(crypto, w, steps[n]);
      SuccessNeedsAReport(crypto, w, steps[n], id);
      WaitingStays(crypto, before, w, steps[n], id);
    }
  }

  // ---------------------------------------------------------------------------
  // Handlers and their steps
  // ---------------------------------------------------------------------------

  /** A compile handler that runs undisturbed is its four steps in a row. */
  lemma CompileIsItsSteps(crypto: Crypto, w: World, h: nat, r: CompileRequest, config: string,
                          previous: Option<string>, stamp: Stamp)
    requires h !in w.jobs && stamp.artifact !in w.store.artifacts.shas
    requires IsPrevious(w.store.deployments, r.node, previous)
    ensures var step := StartCompile(h, r.node, r.profile, config, stamp.artifact, stamp.now);
            var w1 := AfterStartCompile(crypto, w, step);
            var w2 := AfterRecordPlan(crypto, w1, h, previous, stamp.now);
            var w3 := AfterAllocate(w2, h, stamp.nonce, stamp.now);
            var w4 := AfterEnqueue(w3, h, stamp.signature);
            CpState(w4.store, w4.sequences)
            == CompileBody(crypto, CpState(w.store, w.sequences), r, config, previous, stamp)
  {
  }

  function StageAfter(f: Finding): Stage {
    match f
    case Refusal(outcome) => Finished(outcome)
    case Found(node, kind) => NeedsSequence(node, kind)
  }

  /** So is a rollback handler: its reads find what the handler finds. */
  lemma RollbackIsItsReads(crypto: Crypto, st: StoreState, id: string)
    ensures var s1 := AfterPointer(st.deployments, id);
            var s2 := if s1.NeedsSnapshot? then AfterSnapshot(st.deployments, s1) else s1;
            var s3 := if s2.NeedsBytes? then AfterBytes(crypto, st.artifacts, s2) else s2;
            s3 == StageAfter(RollbackTarget(crypto, st, id))
  {
  }
}

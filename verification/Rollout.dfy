/** What plans, results and health reports mean for the advance calls that come after them. */
module Rollout {
  import opened Domain
  import opened Runner
  import opened Store
  import opened ControlPlane
  import opened ControlLoop
  import opened ControlLoopInvariant
  import opened ControlLoopTheorems
  import opened Readiness

  /** The answer of an advance call that runs undisturbed in this state. */
  function Advance(crypto: Crypto, w: World, id: string, stamp: Stamp): Outcome {
    AdvanceSpec(crypto, CpState(w.store, w.sequences), id, stamp).outcome
  }

  // ---------------------------------------------------------------------------
  // Nothing rolls out after a plan or a failure
  // ---------------------------------------------------------------------------

  /** The id a plan step is about. */
  function PlannedId(crypto: Crypto, w: World, step: Step): string
    requires step.RecordPlan? && step.h in w.jobs && w.jobs[step.h].stage.NeedsPlan?
  {
    DeploymentIdOf(crypto.sha256(w.jobs[step.h].stage.config))
  }

  /** Planning an id, for the first time or again, takes back whatever success it had. */
  lemma PlanTakesSuccessBack(crypto: Crypto, w: World, step: Step)
    requires Enabled(crypto, w, step) && step.RecordPlan?
    ensures NotSucceeded(Next(crypto, w, step), PlannedId(crypto, w, step))
  {
  }

  /** So does a result that is not a success. */
  lemma ResultTakesSuccessBack(crypto: Crypto, w: World, step: Step)
    requires Enabled(crypto, w, step) && step.SubmitResult? && step.report.result.status != Succeeded
    requires step.report.result.deploymentId in w.store.deployments.plans
    ensures NotSucceeded(Next(crypto, w, step), step.report.result.deploymentId)
  {
  }

  /** The step leaves the id without success: a plan of it, or a result other than success. */
  ghost predicate TakesBack(crypto: Crypto, w: World, step: Step, id: string) {
    Enabled(crypto, w, step) &&
    if step.RecordPlan? then id == PlannedId(crypto, w, step)
    else
      && step.SubmitResult? && step.report.result.deploymentId == id && step.report.result.status != Succeeded
      && id in w.store.deployments.plans
  }

  lemma WaitsWithoutSuccess(crypto: Crypto, w: World, id: string, stamp: Stamp)
    requires NotSucceeded(w, id) && id in w.store.deployments.plans
    ensures Advance(crypto, w, id, stamp) == Waiting
  {
  }

  /** From any reachable state: after a plan of the id or a failed or rolled-back result,
      and until a success for it is submitted, every advance call started meanwhile only
      waits, whether its steps are interleaved or run in one go. */
  lemma {:induction false} NoRolloutAfter(crypto: Crypto, w: World, step: Step, steps: seq<Step>, id: string,
                                          stamp: Stamp)
    requires Reachable(crypto, w) && TakesBack(crypto, w, step, id) && ValidRun(crypto, Next(crypto, w, step), steps)
    requires forall i :: 0 <= i < |steps| ==> !SubmitsSuccess(steps[i], id)
    ensures var before := Next(crypto, w, step);
            var after := RunFrom(crypto, before, steps);
            NewAdvancesWait(before, after, id) && Advance(crypto, after, id, stamp) == Waiting
  {
    var before := Next(crypto, w, step);
    ReachableInv(crypto, w);
    StepKeepsInv(crypto, w, step);
    if step.RecordPlan? {
      PlanTakesSuccessBack(crypto, w, step);
    } else {
      ResultTakesSuccessBack(crypto, w, step);
    }
    NoRolloutWithoutSuccess(crypto, before, steps, id);
    WaitsWithoutSuccess(crypto, RunFrom(crypto, before, steps), id, stamp);
  }

  // ---------------------------------------------------------------------------
  // What a result says about health
  // ---------------------------------------------------------------------------

  /** No sample of the deployment is later than this. */
  ghost predicate NoneLater(health: seq<HealthSample>, id: string, at: int) {
    forall i :: About(health, id, i) ==> health[i].createdAt <= at
  }

  /** A sample that is not earlier than any other becomes the latest. */
  lemma LatestAdded(health: seq<HealthSample>, sample: HealthSample)
    requires NoneLater(health, sample.deploymentId, sample.createdAt)
    ensures LatestIsHealthy(health + [sample], sample.deploymentId) <==> sample.status == Healthy
    ensures NoneLater(health + [sample], sample.deploymentId, sample.createdAt)
  {
    var all, id := health + [sample], sample.deploymentId;
    forall i | About(all, id, i) && i < |health|
      ensures About(health, id, i) && all[i] == health[i]
    {
    }
    assert LatestAt(all, id, |health|);
  }

  ghost predicate HealthyOnce(health: seq<HealthSample>, id: string) {
    exists i :: HealthyAt(health, id, i)
  }

  lemma HealthyAdded(health: seq<HealthSample>, sample: HealthSample)
    requires sample.status == Healthy
    ensures HealthyTwice(health + [sample], sample.deploymentId) <==> HealthyOnce(health, sample.deploymentId)
    ensures HealthyOnce(health + [sample], sample.deploymentId)
  {
    var all, id := health + [sample], sample.deploymentId;
    assert HealthyAt(all, id, |health|);
    if i :| HealthyAt(health, id, i) {
      assert HealthyAt(all, id, i) && i < |health|;
    }
    if i, j :| i < j && HealthyAt(all, id, i) && HealthyAt(all, id, j) {
      assert HealthyAt(health, id, i);
    }
  }

  /** The step submits a result for a planned id of which no sample is later. */
  ghost predicate Reports(w: World, step: Step, id: string) {
    && step.SubmitResult? && step.report.result.deploymentId == id
    && id in w.store.deployments.plans && NoneLater(w.store.deployments.health, id, step.at)
  }

  /** What a result adds to the samples. */
  lemma ResultAddsSample(crypto: Crypto, w: World, step: Step, id: string)
    requires Enabled(crypto, w, step) && Reports(w, step, id)
    ensures var status := step.report.result.status;
            var sample := HealthSample(id, w.store.deployments.plans[id].node,
                                       if status == Succeeded
                                           || status == RolledBack then Healthy else Unhealthy, step.at);
            Next(crypto, w, step).store.deployments.health == w.store.deployments.health + [sample]
  {
  }

  /** A reported deployment counts as healthy exactly when it succeeded or was rolled back. */
  lemma ResultDecidesHealth(crypto: Crypto, w: World, step: Step, id: string)
    requires Enabled(crypto, w, step) && Reports(w, step, id)
    ensures LatestIsHealthy(Next(crypto, w, step).store.deployments.health, id)
       <==> step.report.result.status == Succeeded || step.report.result.status == RolledBack
  {
    var status := step.report.result.status;
    ResultAddsSample(crypto, w, step, id);
    LatestAdded(w.store.deployments.health,
                HealthSample(id, w.store.deployments.plans[id].node,
                             if status == Succeeded || status == RolledBack then Healthy else Unhealthy, step.at));
  }

  /** An advance call right after a reported success queues nothing: it promotes if the
      deployment had been seen healthy before, and waits for one more sample otherwise. */
  lemma AdvanceAfterSuccess(crypto: Crypto, w: World, step: Step, id: string, stamp: Stamp)
    requires Enabled(crypto, w, step) && Reports(w, step, id) && step.report.result.status == Succeeded
    ensures Advance(crypto, Next(crypto, w, step), id, stamp)
         == if HealthyOnce(w.store.deployments.health, id) then Promoted else Waiting
  {
    var w' := Next(crypto, w, step);
    var d := w'.store.deployments;
    ResultAddsSample(crypto, w, step, id);
    ResultDecidesHealth(crypto, w, step, id);
    HealthyAdded(w.store.deployments.health, HealthSample(id, w.store.deployments.plans[id].node, Healthy, step.at));
    assert id in d.plans && id in d.statuses && d.statuses[id] == Succeeded;
    ReadinessMeans(d, id, d.statuses[id]);
  }

  /** What advance answers to a succeeded deployment, by its latest sample. */
  ghost predicate DecidedBy(w: World, id: string, status: HealthStatus, outcome: Outcome) {
    && id in w.store.deployments.pointers
    && if status == Healthy then outcome == Promoted
       else if w.store.deployments.pointers[id].previousId.Some? then outcome.Queued?
       else outcome == NoPrevious
  }

  lemma SampleAdded(crypto: Crypto, w: World, sample: HealthSample, at: int)
    requires sample.deploymentId in w.store.deployments.plans
    requires sample.node == w.store.deployments.plans[sample.deploymentId].node
    ensures var w', d := Next(crypto, w, ReportHealth(sample, at)), w.store.deployments;
            w'.store.deployments == d.(health := d.health + [sample]) && w'.store.artifacts == w.store.artifacts
  {
  }

  /** The records a rollback of the deployment reads are there. */
  ghost predicate Led(w: World, id: string) {
    var d := w.store.deployments;
    && id in d.plans && id in d.pointers && id in d.snapshots
    && (d.pointers[id].previousId.Some? ==>
          && d.pointers[id].previousArtifact.Some?
          && ArtifactBytes(w.store.artifacts, d.pointers[id].previousArtifact.value).Some?)
  }

  lemma AdvanceByLatest(crypto: Crypto, w: World, id: string, stamp: Stamp, status: HealthStatus)
    requires Led(w, id) && id in w.store.deployments.statuses && w.store.deployments.statuses[id] == Succeeded
    requires LatestIsHealthy(w.store.deployments.health, id) <==> status == Healthy
    requires status == Healthy ==> HealthyTwice(w.store.deployments.health, id)
    ensures DecidedBy(w, id, status, Advance(crypto, w, id, stamp))
  {
    ReadinessMeans(w.store.deployments, id, Succeeded);
  }

  lemma SampleDecides(crypto: Crypto, w: World, id: string, sample: HealthSample, at: int, stamp: Stamp)
    requires Inv(crypto, w) && id in w.store.deployments.statuses && w.store.deployments.statuses[id] == Succeeded
    requires id in w.store.deployments.plans && sample.deploymentId == id
    requires sample.node == w.store.deployments.plans[id].node
    requires HealthyOnce(w.store.deployments.health, id) && NoneLater(w.store.deployments.health, id, sample.createdAt)
    ensures var w' := Next(crypto, w, ReportHealth(sample, at));
            DecidedBy(w', id, sample.status, Advance(crypto, w', id, stamp))
  {
    var w' := Next(crypto, w, ReportHealth(sample, at));
    StepKeepsInv(crypto, w, ReportHealth(sample, at));
    SampleAdded(crypto, w, sample, at);
    LatestAdded(w.store.deployments.health, sample);
    if sample.status == Healthy {
      HealthyAdded(w.store.deployments.health, sample);
    }
    PointerLeadsSomewhere(crypto, w', id);
    AdvanceByLatest(crypto, w', id, stamp, sample.status);
  }

  /** Which one more healthy report, not earlier than the result, then gets promoted, and an
      unhealthy one rolled back to where the pointer leads. */
  lemma OneMoreSampleDecides(crypto: Crypto, w: World, step: Step, id: string, sample: HealthSample, at: int,
                             stamp: Stamp)
    requires Reachable(crypto, w) && Enabled(crypto, w, step) && Reports(w, step, id)
    requires step.report.result.status == Succeeded
    requires sample.deploymentId == id && sample.node == w.store.deployments.plans[id].node
        && step.at <= sample.createdAt
    ensures var w' := Next(crypto, Next(crypto, w, step), ReportHealth(sample, at));
            DecidedBy(w', id, sample.status, Advance(crypto, w', id, stamp))
  {
    ReachableInv(crypto, w);
    StepKeepsInv(crypto, w, step);
    SuccessSample(crypto, w, step, id);
    SuccessRecorded(crypto, w, step, id);
    LaterStill(Next(crypto, w, step).store.deployments.health, id, step.at, sample.createdAt);
    SampleDecides(crypto, Next(crypto, w, step), id, sample, at, stamp);
  }

  lemma SuccessRecorded(crypto: Crypto, w: World, step: Step, id: string)
    requires Enabled(crypto, w, step) && Reports(w, step, id) && step.report.result.status == Succeeded
    ensures var d, d' := w.store.deployments, Next(crypto, w, step).store.deployments;
            id in d'.statuses && d'.statuses[id] == Succeeded && d'.plans == d.plans
  {
  }

  lemma LaterStill(health: seq<HealthSample>, id: string, at: int, later: int)
    requires NoneLater(health, id, at) && at <= later
    ensures NoneLater(health, id, later)
  {
  }

  /** The success itself is a healthy sample, and none is later. */
  lemma SuccessSample(crypto: Crypto, w: World, step: Step, id: string)
    requires Enabled(crypto, w, step) && Reports(w, step, id) && step.report.result.status == Succeeded
    ensures var h := Next(crypto, w, step).store.deployments.health; HealthyOnce(h, id) && NoneLater(h, id, step.at)
  {
    var sample := HealthSample(id, w.store.deployments.plans[id].node, Healthy, step.at);
    ResultAddsSample(crypto, w, step, id);
    HealthyAdded(w.store.deployments.health, sample);
    LatestAdded(w.store.deployments.health, sample);
  }

  lemma PointerLeadsSomewhere(crypto: Crypto, w: World, id: string)
    requires Inv(crypto, w) && id in w.store.deployments.statuses && w.store.deployments.statuses[id] != Pending
    ensures Led(w, id)
  {
    var d := w.store.deployments;
    assert StatusAgrees(d.snapshots, id, d.statuses[id]);
    assert PointerAgrees(d.plans, id, d.pointers[id]);
    if d.pointers[id].previousId.Some? {
      PointerNamesTarget(crypto, w, id);
    }
  }

  // ---------------------------------------------------------------------------
  // How long a command lives
  // ---------------------------------------------------------------------------

  /** A command is refused as expired from sixty seconds after its allocation on, and not
      before. */
  lemma CommandsLiveAMinute(crypto: Crypto, w: World, step: Step, r: RunnerState, signature: string, now: int)
    requires Enabled(crypto, w, step) && step.Allocate? && r.nodeId == w.jobs[step.h].stage.node
    ensures var job := Next(crypto, w, step).jobs[step.h];
            && job.stage.NeedsEnqueue?
            && (VerifySpec(crypto, r, SignedRunnerCommand(job.stage.command, signature), now).outcome
                == Err(CommandExpired)
                <==> step.at + 60 <= now)
  {
  }

  /** A runner that has not received anything yet takes any command signed for its node,
      the first one included, for as long as it lives. */
  lemma FirstCommandIsAccepted(crypto: Crypto, w: World, step: Step, signature: string, now: int, o: Oracles)
    requires Enabled(crypto, w, step) && step.Allocate? && w.jobs[step.h].stage.node !in w.runners
    requires crypto.verifies(Next(crypto, w, step).jobs[step.h].stage.command, signature)
    ensures var w', node := Next(crypto, w, step), w.jobs[step.h].stage.node;
            ApplySpec(crypto, RunnerOf(w', node), SignedRunnerCommand(w'.jobs[step.h].stage.command, signature), now,
                      o).accepted
            <==> now < step.at + 60
  {
  }

  /** An advance handler that runs undisturbed is its reads in a row. */
  lemma AdvanceIsItsReads(crypto: Crypto, w: World, id: string, stamp: Stamp)
    requires id in w.store.deployments.statuses && id in w.store.deployments.plans
    ensures var d := w.store.deployments;
            var s := AfterHealth(d, id, d.statuses[id]);
            if s.NeedsPointer? then
              s == NeedsPointer(id) && Advance(crypto, w, id, stamp)
              == RollbackSpec(crypto, CpState(w.store, w.sequences), id, stamp).outcome
            else s == Finished(Advance(crypto, w, id, stamp))
  {
  }
}

/** Every step of the control loop keeps the joint invariant. */
module ControlLoopInvariant {
  import opened Domain
  import opened Runner
  import opened Store
  import opened ControlPlane
  import opened ControlLoop

  // ---------------------------------------------------------------------------
  // The store stays coherent, and nothing is taken back
  // ---------------------------------------------------------------------------

  /** The store operation a step performs, if any. */
  ghost function OpOf(crypto: Crypto, w: World, step: Step): Option<StoreOp>
    requires Enabled(crypto, w, step)
  {
    match step
    case StartCompile(_, _, _, config, artifact, at) => Some(BlobOp(artifact, crypto.sha256(config), config, at))
    case RecordPlan(h, previous, at) =>
      var s := w.jobs[h].stage;
      Some(PlanOp(DeploymentIdOf(crypto.sha256(s.config)), Plan(s.node, s.profile, s.artifact, at), previous))
    case EnqueueCommand(h, signature) =>
      var c := w.jobs[h].stage.command;
      Some(EnqueueOp(c.nodeId, SignedRunnerCommand(c, signature)))
    case PollQueue(node, last) => Some(NextOp(node, last))
    case ReportHealth(sample, at) => Some(HealthOp(sample, at))
    case SubmitResult(report, at) => Some(ResultOp(report.result, at))
    case _ => None
  }

  lemma StepIsOp(crypto: Crypto, w: World, step: Step)
    requires Enabled(crypto, w, step)
    ensures var op, st' := OpOf(crypto, w, step), Next(crypto, w, step).store;
            && (op.None? ==> st' == w.store)
            && (op.Some? ==> OpAllowed(w.store, op.value) && st' == StoreStep(crypto, w.store, op.value))
  {
  }

  lemma StepKeepsStore(crypto: Crypto, w: World, step: Step)
    requires Coherent(crypto, w.store) && Enabled(crypto, w, step)
    ensures Coherent(crypto, Next(crypto, w, step).store)
  {
    StepIsOp(crypto, w, step);
    if OpOf(crypto, w, step).Some? {
      StepKeepsCoherence(crypto, w.store, OpOf(crypto, w, step).value);
    }
  }

  lemma ReceiveKeepsReleases(crypto: Crypto, r: RunnerState, envelope: SignedRunnerCommand, at: int, o: Oracles)
    ensures var x := ApplySpec(crypto, r, envelope, at, o);
            r.fs.releases.Keys <= x.state.fs.releases.Keys && x.state.nodeId == r.nodeId
  {
    var c := envelope.command;
    if c.kind.ApplyDeploymentPlan? {
      var r1 := r.(seenNonces := r.seenNonces + {c.nonce}, lastSequence := c.sequence);
      ApplyOutcome(r1, c.kind.deploymentId, c.kind.config, o);
    }
  }

  lemma ReleasesGrow(crypto: Crypto, w: World, step: Step)
    requires Enabled(crypto, w, step)
    ensures forall n, x :: Held(w, n, x) ==> Held(Next(crypto, w, step), n, x)
  {
    if step.RunnerReceives? {
      ReceiveKeepsReleases(crypto, RunnerOf(w, step.node), step.envelope, step.at, step.oracles);
    }
  }

  ghost predicate StoreExtends(st: StoreState, st': StoreState) {
    && st.deployments.plans.Keys <= st'.deployments.plans.Keys
    && st.deployments.pointers.Keys <= st'.deployments.pointers.Keys
    && st.deployments.snapshots.Keys <= st'.deployments.snapshots.Keys
    && forall a :: a in st.artifacts.shas ==>
         a in st'.artifacts.shas && st'.artifacts.shas[a] == st.artifacts.shas[a]
  }

  lemma TablesGrow(crypto: Crypto, st: StoreState, op: StoreOp)
    requires OpAllowed(st, op)
    requires op.BlobOp? ==> op.artifact !in st.artifacts.shas
    ensures StoreExtends(st, StoreStep(crypto, st, op))
  {
  }

  lemma StoreGrows(crypto: Crypto, w: World, step: Step)
    requires Enabled(crypto, w, step)
    ensures StoreExtends(w.store, Next(crypto, w, step).store)
  {
    StepIsOp(crypto, w, step);
    if OpOf(crypto, w, step).Some? {
      TablesGrow(crypto, w.store, OpOf(crypto, w, step).value);
    }
  }

  lemma PastGrows(crypto: Crypto, w: World, step: Step)
    requires Enabled(crypto, w, step)
    ensures var past := Next(crypto, w, step).past; w.past.planned <= past.planned && w.past.signed <= past.signed
  {
  }

  lemma AllGrows(w: World, w': World)
    requires StoreExtends(w.store, w'.store) && w.past.planned <= w'.past.planned && w.past.signed <= w'.past.signed
    requires forall n, x :: Held(w, n, x) ==> Held(w', n, x)
    ensures Extends(w, w')
  {
  }

  lemma StepExtends(crypto: Crypto, w: World, step: Step)
    requires Enabled(crypto, w, step)
    ensures Extends(w, Next(crypto, w, step))
  {
    ReleasesGrow(crypto, w, step);
    StoreGrows(crypto, w, step);
    PastGrows(crypto, w, step);
    AllGrows(w, Next(crypto, w, step));
  }

  // ---------------------------------------------------------------------------
  // Handlers and signed commands
  // ---------------------------------------------------------------------------

  lemma JobsAfter(crypto: Crypto, w: World, w': World, h: nat, job: Job)
    requires JobsInv(crypto, w) && Extends(w, w')
    requires w'.jobs == w.jobs[h := job] && w'.past.signed == w.past.signed && JobFact(crypto, w', job)
    ensures JobsInv(crypto, w')
  {
    JobsCarry(crypto, w, w');
  }

  /** A pointer that was read names a target held by the node the id is planned for. */
  lemma PointerReadIsSound(crypto: Crypto, w: World, job: Job)
    requires TableInv(crypto, w) && JobFact(crypto, w, job) && job.stage.NeedsPointer?
    requires var d, id := w.store.deployments, job.stage.id; id in d.pointers ==> id in d.plans && id in d.statuses
    ensures JobFact(crypto, w, job.(stage := AfterPointer(w.store.deployments, job.stage.id)))
  {
    var d, id := w.store.deployments, job.stage.id;
    var next := AfterPointer(d, id);
    if next.NeedsSnapshot? {
      PointerNamesTarget(crypto, w, id);
      assert job.origin.AdvanceCall? ==> id in d.snapshots;
      assert ArtifactFact(crypto, w, next.artifact, next.previous);
    } else {
      assert next == Finished(NoPrevious) || id !in d.pointers;
    }
  }

  lemma PointerNamesTarget(crypto: Crypto, w: World, id: string)
    requires TableInv(crypto, w)
    requires id in w.store.deployments.plans && id in w.store.deployments.statuses && id in w.store.deployments.pointers
    requires w.store.deployments.pointers[id].previousId.Some?
    requires w.store.deployments.pointers[id].previousArtifact.Some?
    ensures var p := w.store.deployments.pointers[id];
            && ArtifactFact(crypto, w, p.previousArtifact.value, p.previousId.value)
            && SnapshotGoal(w, id, p.previousId.value)
  {
    var d := w.store.deployments;
    var node, p := d.plans[id].node, d.pointers[id];
    assert PointerFact(crypto, w, node, p);
    assert PlanFact(crypto, w, id, d.plans[id], d.statuses[id]);
    assert PlannedOn(w, id, node) && Target(w, node, p.previousId.value);
  }

  /** Under one node per id, the snapshot names the node the pointer was made for. */
  lemma SnapshotReadIsSound(crypto: Crypto, w: World, job: Job)
    requires TableInv(crypto, w) && JobFact(crypto, w, job) && job.stage.NeedsSnapshot?
    ensures JobFact(crypto, w, job.(stage := AfterSnapshot(w.store.deployments, job.stage)))
  {
    var d, s := w.store.deployments, job.stage;
    if s.id in d.snapshots && OneNode(w.past.planned) {
      var node :| PlannedOn(w, s.id, node) && Target(w, node, s.previous);
      var a :| PlanEvent(s.id, node, a) in w.past.planned;
      assert PlannedOn(w, s.id, d.snapshots[s.id].node);
      var b :| PlanEvent(s.id, d.snapshots[s.id].node, b) in w.past.planned;
      assert PlanEvent(s.id, node, a).node == PlanEvent(s.id, d.snapshots[s.id].node, b).node;
    }
  }

  lemma HealthReadIsSound(crypto: Crypto, w: World, job: Job)
    requires JobFact(crypto, w, job) && job.stage.NeedsHealth?
    ensures JobFact(crypto, w, job.(stage := AfterHealth(w.store.deployments, job.stage.id, job.stage.status)))
  {
  }

  lemma BytesReadIsSound(crypto: Crypto, w: World, job: Job)
    requires Coherent(crypto, w.store) && JobFact(crypto, w, job) && job.stage.NeedsBytes?
    ensures JobFact(crypto, w, job.(stage := AfterBytes(crypto, w.store.artifacts, job.stage)))
  {
  }

  predicate ReadsOnly(step: Step) {
    || step.StartRollback? || step.StartAdvance?
    || step.ReadHealth? || step.ReadPointer? || step.ReadSnapshot? || step.ReadBytes?
  }

  ghost function JobAfter(crypto: Crypto, w: World, step: Step): Job
    requires ReadsOnly(step) && Enabled(crypto, w, step)
  {
    var d := w.store.deployments;
    match step
    case StartRollback(h, id) => Job(RollbackCall, NeedsPointer(id))
    case StartAdvance(h, id) => Job(AdvanceCall(id), NeedsHealth(id, d.statuses[id]))
    case ReadHealth(h) => w.jobs[h].(stage := AfterHealth(d, w.jobs[h].stage.id, w.jobs[h].stage.status))
    case ReadPointer(h) => w.jobs[h].(stage := AfterPointer(d, w.jobs[h].stage.id))
    case ReadSnapshot(h) => w.jobs[h].(stage := AfterSnapshot(d, w.jobs[h].stage))
    case ReadBytes(h) => w.jobs[h].(stage := AfterBytes(crypto, w.store.artifacts, w.jobs[h].stage))
  }

  lemma ReadIsSound(crypto: Crypto, w: World, step: Step)
    requires Inv(crypto, w) && Enabled(crypto, w, step) && ReadsOnly(step)
    ensures JobFact(crypto, w, JobAfter(crypto, w, step))
  {
    match step {
      case StartRollback(h, id) =>
      case StartAdvance(h, id) =>
      case ReadHealth(h) => HealthReadIsSound(crypto, w, w.jobs[h]);
      case ReadPointer(h) => PointerReadIsSound(crypto, w, w.jobs[h]);
      case ReadSnapshot(h) => SnapshotReadIsSound(crypto, w, w.jobs[h]);
      case ReadBytes(h) => BytesReadIsSound(crypto, w, w.jobs[h]);
    }
  }

  lemma ReadKeepsJobs(crypto: Crypto, w: World, step: Step)
    requires Inv(crypto, w) && Enabled(crypto, w, step) && ReadsOnly(step)
    ensures JobsInv(crypto, Next(crypto, w, step))
  {
    var w', job := Next(crypto, w, step), JobAfter(crypto, w, step);
    assert w' == w.(jobs := w.jobs[step.h := job]);
    StepExtends(crypto, w, step);
    ReadIsSound(crypto, w, step);
    JobCarries(crypto, w, w', job);
    JobsAfter(crypto, w, w', step.h, job);
  }

  lemma PlanKeepsJobs(crypto: Crypto, w: World, step: Step)
    requires Inv(crypto, w) && Enabled(crypto, w, step) && step.RecordPlan?
    ensures JobsInv(crypto, Next(crypto, w, step))
  {
    var w', s := Next(crypto, w, step), w.jobs[step.h].stage;
    StepExtends(crypto, w, step);
    assert PlanEvent(DeploymentIdOf(crypto.sha256(s.config)), s.node, s.config) in w'.past.planned;
    JobsAfter(crypto, w, w', step.h, w.jobs[step.h].(stage := NeedsSequence(s.node, ApplyKind(crypto, s.config))));
  }

  lemma JobsAfterSigning(crypto: Crypto, w: World, w': World, h: nat, job: Job, c: RunnerCommand)
    requires JobsInv(crypto, w) && Extends(w, w') && w'.jobs == w.jobs[h := job]
    requires w'.past.signed == w.past.signed + {c} && KindFact(crypto, w', c.nodeId, c.kind) && JobFact(crypto, w', job)
    ensures JobsInv(crypto, w')
  {
    JobsCarry(crypto, w, w');
  }

  lemma AllocateKeepsJobs(crypto: Crypto, w: World, step: Step)
    requires Inv(crypto, w) && Enabled(crypto, w, step) && step.Allocate?
    ensures JobsInv(crypto, Next(crypto, w, step))
  {
    var w', job := Next(crypto, w, step), w.jobs[step.h];
    var c := NewCommand(w.sequences, job.stage.node, step.at, step.nonce, job.stage.kind);
    StepExtends(crypto, w, step);
    assert JobFact(crypto, w, job);
    KindCarries(crypto, w, w', job.stage.node, job.stage.kind);
    JobsAfterSigning(crypto, w, w', step.h, job.(stage := NeedsEnqueue(c)), c);
  }

  lemma StepKeepsJobs(crypto: Crypto, w: World, step: Step)
    requires Inv(crypto, w) && Enabled(crypto, w, step)
    ensures JobsInv(crypto, Next(crypto, w, step))
  {
    var w' := Next(crypto, w, step);
    if ReadsOnly(step) {
      ReadKeepsJobs(crypto, w, step);
    } else if step.RecordPlan? {
      PlanKeepsJobs(crypto, w, step);
    } else if step.Allocate? {
      AllocateKeepsJobs(crypto, w, step);
    } else {
      StepExtends(crypto, w, step);
      match step {
        case StartCompile(h, node, profile, config, artifact, _) =>
          JobsAfter(crypto, w, w', h, Job(CompileCall, NeedsPlan(node, profile, config, artifact)));
        case EnqueueCommand(h, _) =>
          assert JobFact(crypto, w, w.jobs[h]);
          JobsAfter(crypto, w, w', h, w.jobs[h].(stage := Finished(Queued(w.jobs[h].stage.command))));
        case _ => JobsCarry(crypto, w, w');
      }
    }
  }

  // ---------------------------------------------------------------------------
  // Plans, pointers and snapshots
  // ---------------------------------------------------------------------------

  lemma NewPlanFacts(crypto: Crypto, w: World, step: Step)
    requires Inv(crypto, w) && Enabled(crypto, w, step) && step.RecordPlan?
    ensures var w', s := Next(crypto, w, step), w.jobs[step.h].stage;
            var id := DeploymentIdOf(crypto.sha256(s.config));
            var plan := Plan(s.node, s.profile, s.artifact, step.at);
            && PlanFact(crypto, w', id, plan, Pending)
            && PointerFact(crypto, w', s.node, PointerTo(w.store.deployments, s.artifact, step.previous))
  {
    var w', s := Next(crypto, w, step), w.jobs[step.h].stage;
    var d := w.store.deployments;
    StepExtends(crypto, w, step);
    assert JobFact(crypto, w, w.jobs[step.h]);
    assert PlanEvent(DeploymentIdOf(crypto.sha256(s.config)), s.node, s.config) in w'.past.planned;
    if step.previous.Some? {
      var p := step.previous.value;
      PlanCarries(crypto, w, w', p, d.plans[p], d.statuses[p]);
    }
  }

  lemma PlanKeepsTable(crypto: Crypto, w: World, step: Step)
    requires Inv(crypto, w) && Enabled(crypto, w, step) && step.RecordPlan?
    ensures TableInv(crypto, Next(crypto, w, step))
  {
    var w', s := Next(crypto, w, step), w.jobs[step.h].stage;
    var d, d' := w.store.deployments, w'.store.deployments;
    var id := DeploymentIdOf(crypto.sha256(s.config));
    NewPlanFacts(crypto, w, step);
    StepExtends(crypto, w, step);
    TablesCarry(crypto, w, w');
    assert d' == WithPlan(d, id, Plan(s.node, s.profile, s.artifact, step.at), step.previous);
  }

  /** A success reported by some node's runner is, under one node per id, held by the
      runner of the node the id is planned for. */
  lemma SucceededMeansHeld(crypto: Crypto, w: World, report: Report)
    requires Inv(crypto, w) && report in w.past.reports && report.result.status == Succeeded
    requires report.result.deploymentId in w.store.deployments.plans
    ensures Target(w, w.store.deployments.plans[report.result.deploymentId].node, report.result.deploymentId)
  {
    var id := report.result.deploymentId;
    var plan := w.store.deployments.plans[id];
    if OneNode(w.past.planned) {
      assert ReportFact(w, report);
      assert ReleaseFact(crypto, w, report.node, id, w.runners[report.node].fs.releases[id]);
      assert PlanFact(crypto, w, id, plan, w.store.deployments.statuses[id]);
      var c :| PlanEvent(id, plan.node, c) in w.past.planned;
      assert PlanEvent(id, plan.node, c).node
          == PlanEvent(id, report.node, w.runners[report.node].fs.releases[id]).node;
    }
  }

  lemma SameTable(crypto: Crypto, w: World, w': World)
    requires TableInv(crypto, w) && Extends(w, w')
    requires w'.store.deployments == w.store.deployments.(health := w'.store.deployments.health)
    ensures TableInv(crypto, w')
  {
    TablesCarry(crypto, w, w');
  }

  lemma ReportedPlanFacts(crypto: Crypto, w: World, report: Report)
    requires Inv(crypto, w) && report in w.past.reports && report.result.deploymentId in w.store.deployments.plans
    ensures var r := report.result;
            PlanFact(crypto, w, r.deploymentId, w.store.deployments.plans[r.deploymentId], r.status)
  {
    var r, d := report.result, w.store.deployments;
    assert PlanFact(crypto, w, r.deploymentId, d.plans[r.deploymentId], d.statuses[r.deploymentId]);
    if r.status == Succeeded {
      SucceededMeansHeld(crypto, w, report);
    }
  }

  lemma TableAfterResult(crypto: Crypto, w: World, w': World, r: DeploymentResult, at: int)
    requires TableInv(crypto, w) && Extends(w, w') && r.deploymentId in w.store.deployments.plans
    requires w'.store.deployments == WithResult(w.store.deployments, r, at)
    requires PlanFact(crypto, w', r.deploymentId, w.store.deployments.plans[r.deploymentId], r.status)
    ensures TableInv(crypto, w')
  {
    var d, d' := w.store.deployments, w'.store.deployments;
    TablesCarry(crypto, w, w');
    forall x | x in d'.plans && x in d'.statuses
      ensures PlanFact(crypto, w', x, d'.plans[x], d'.statuses[x])
    {
      if x != r.deploymentId {
        assert d'.statuses[x] == d.statuses[x];
      }
    }
  }

  lemma ResultKeepsTable(crypto: Crypto, w: World, w': World, report: Report, at: int)
    requires Inv(crypto, w) && Extends(w, w') && report in w.past.reports
    requires w'.store == RecordResultSpec(w.store, report.result, at)
    ensures TableInv(crypto, w')
  {
    var r := report.result;
    if r.deploymentId in w.store.deployments.plans {
      ReportedPlanFacts(crypto, w, report);
      PlanCarries(crypto, w, w', r.deploymentId, w.store.deployments.plans[r.deploymentId], r.status);
      TableAfterResult(crypto, w, w', r, at);
    } else {
      SameTable(crypto, w, w');
    }
  }

  /** Only plans and results touch the deployment tables. */
  lemma TablesFrame(crypto: Crypto, w: World, step: Step)
    requires Enabled(crypto, w, step) && !step.RecordPlan? && !step.SubmitResult?
    ensures var d, d' := w.store.deployments, Next(crypto, w, step).store.deployments; d' == d.(health := d'.health)
  {
  }

  lemma StepKeepsTable(crypto: Crypto, w: World, step: Step)
    requires Inv(crypto, w) && Enabled(crypto, w, step)
    ensures TableInv(crypto, Next(crypto, w, step))
  {
    var w' := Next(crypto, w, step);
    StepExtends(crypto, w, step);
    if step.RecordPlan? {
      PlanKeepsTable(crypto, w, step);
    } else if step.SubmitResult? {
      ResultKeepsTable(crypto, w, w', step.report, step.at);
    } else {
      TablesFrame(crypto, w, step);
      SameTable(crypto, w, w');
    }
  }

  // ---------------------------------------------------------------------------
  // Runners
  // ---------------------------------------------------------------------------

  /** What a runner holds was planned for it, and stays so. */
  lemma HeldIsPlanned(crypto: Crypto, w: World, node: string, d: string)
    requires RunnersInv(crypto, w) && d in RunnerOf(w, node).fs.releases
    ensures ReleaseFact(crypto, w, node, d, RunnerOf(w, node).fs.releases[d])
  {
    assert Held(w, node, d);
  }

  /** What one envelope leaves on disk and reports. */
  lemma ReceiveEffect(crypto: Crypto, r: RunnerState, envelope: SignedRunnerCommand, at: int, o: Oracles, d: string)
    ensures var x, c := ApplySpec(crypto, r, envelope, at, o), envelope.command;
            && (d in x.state.fs.releases ==>
                  || (d in r.fs.releases && x.state.fs.releases[d] == r.fs.releases[d])
                  || (x.accepted && c.kind.ApplyDeploymentPlan? && c.kind.deploymentId == d
                        && c.kind.config == x.state.fs.releases[d]))
            && (x.report.Some? && x.report.value.status == Succeeded ==>
                  x.report.value.deploymentId in x.state.fs.releases)
            && (x.accepted ==> c.nodeId == r.nodeId && crypto.verifies(c, envelope.signatureHex))
  {
    var c := envelope.command;
    RefusalChangesNothing(crypto, r, envelope, at, o);
    if c.kind.ApplyDeploymentPlan? {
      var r1 := r.(seenNonces := r.seenNonces + {c.nonce}, lastSequence := c.sequence);
      ApplyOutcome(r1, c.kind.deploymentId, c.kind.config, o);
    }
  }

  /** What one envelope can do to a runner that only ever held planned releases. */
  lemma ReceiveIsSound(crypto: Crypto, w: World, step: Step)
    requires Inv(crypto, w) && Enabled(crypto, w, step) && step.RunnerReceives?
    ensures var x := ApplySpec(crypto, RunnerOf(w, step.node), step.envelope, step.at, step.oracles);
            && (forall d :: d in x.state.fs.releases ==> ReleaseFact(crypto, w, step.node, d, x.state.fs.releases[d]))
            && (x.report.Some? && x.report.value.status == Succeeded ==>
                  x.report.value.deploymentId in x.state.fs.releases)
  {
    var r, c := RunnerOf(w, step.node), step.envelope.command;
    var x := ApplySpec(crypto, r, step.envelope, step.at, step.oracles);
    ReceiveEffect(crypto, r, step.envelope, step.at, step.oracles, "");
    forall d | d in x.state.fs.releases
      ensures ReleaseFact(crypto, w, step.node, d, x.state.fs.releases[d])
    {
      ReceiveEffect(crypto, r, step.envelope, step.at, step.oracles, d);
      if d in r.fs.releases && x.state.fs.releases[d] == r.fs.releases[d] {
        HeldIsPlanned(crypto, w, step.node, d);
      } else {
        assert KindFact(crypto, w, c.nodeId, c.kind);
      }
    }
  }

  lemma RunnerReplaced(crypto: Crypto, w: World, w': World, node: string, x: Reaction)
    requires RunnersInv(crypto, w) && w'.past.planned == w.past.planned
    requires w'.runners == w.runners[node := x.state] && x.state.nodeId == node
    requires forall r :: r in w'.past.reports ==>
        r in w.past.reports || (x.report.Some? && r == Report(node, x.report.value))
    requires forall d :: d in x.state.fs.releases ==> ReleaseFact(crypto, w, node, d, x.state.fs.releases[d])
    requires RunnerOf(w, node).fs.releases.Keys <= x.state.fs.releases.Keys
    requires x.report.Some? && x.report.value.status == Succeeded ==> x.report.value.deploymentId in x.state.fs.releases
    ensures RunnersInv(crypto, w')
  {
    forall n, d | Held(w', n, d)
      ensures ReleaseFact(crypto, w', n, d, w'.runners[n].fs.releases[d])
    {
      if n != node {
        assert Held(w, n, d);
      }
    }
    forall r | r in w'.past.reports
      ensures ReportFact(w', r)
    {
      if r in w.past.reports {
        assert ReportFact(w, r);
      }
    }
  }

  lemma ReceiveKeepsRunners(crypto: Crypto, w: World, step: Step)
    requires Inv(crypto, w) && Enabled(crypto, w, step) && step.RunnerReceives?
    ensures RunnersInv(crypto, Next(crypto, w, step))
  {
    var r := RunnerOf(w, step.node);
    ReceiveIsSound(crypto, w, step);
    ReceiveKeepsReleases(crypto, r, step.envelope, step.at, step.oracles);
    RunnerReplaced(crypto, w, AfterReceive(crypto, w, step.node, step.envelope, step.at, step.oracles), step.node,
                   ApplySpec(crypto, r, step.envelope, step.at, step.oracles));
  }

  lemma SameReleases(crypto: Crypto, w: World, w': World)
    requires RunnersInv(crypto, w)
    requires w.past.planned <= w'.past.planned && w'.past.reports == w.past.reports
    requires forall n :: n in w'.runners ==> w'.runners[n].nodeId == n && w'.runners[n].fs == RunnerOf(w, n).fs
    requires forall n :: n in w.runners ==> n in w'.runners
    ensures RunnersInv(crypto, w')
  {
    assert forall n, x :: Held(w', n, x) <==> Held(w, n, x);
  }

  lemma StepKeepsRunners(crypto: Crypto, w: World, step: Step)
    requires Inv(crypto, w) && Enabled(crypto, w, step)
    ensures RunnersInv(crypto, Next(crypto, w, step))
  {
    if step.RunnerReceives? {
      ReceiveKeepsRunners(crypto, w, step);
    } else {
      SameReleases(crypto, w, Next(crypto, w, step));
    }
  }

  // ---------------------------------------------------------------------------
  // Whole runs
  // ---------------------------------------------------------------------------

  /** The joint invariant is inductive. */
  lemma StepKeepsInv(crypto: Crypto, w: World, step: Step)
    requires Inv(crypto, w) && Enabled(crypto, w, step)
    ensures Inv(crypto, Next(crypto, w, step))
  {
    StepKeepsStore(crypto, w, step);
    StepKeepsJobs(crypto, w, step);
    StepKeepsTable(crypto, w, step);
    StepKeepsRunners(crypto, w, step);
  }

  lemma {:induction false} RunKeepsInv(crypto: Crypto, tenant: string, steps: seq<Step>)
    requires ValidRun(crypto, Initial(tenant), steps)
    ensures Inv(crypto, RunFrom(crypto, Initial(tenant), steps))
    decreases |steps|
  {
    if steps != [] {
      RunKeepsInv(crypto, tenant, steps[..|steps|-1]);
      StepKeepsInv(crypto, RunFrom(crypto, Initial(tenant), steps[..|steps|-1]), steps[|steps|-1]);
    }
  }

  lemma ReachableInv(crypto: Crypto, w: World)
    requires Reachable(crypto, w)
    ensures Inv(crypto, w)
  {
    var tenant, steps :| ValidRun(crypto, Initial(tenant), steps) && RunFrom(crypto, Initial(tenant), steps) == w;
    RunKeepsInv(crypto, tenant, steps);
  }
}

/** The control loop as one machine: control-plane handlers whose every lock
    acquisition is a separate step, the store, the per-node queues, the runners, and
    a network that may delay, reorder and replay envelopes and results. */
module ControlLoop {
  import opened Domain
  import opened Runner
  import opened CommandQueue
  import opened Store
  import opened ControlPlane

  // ---------------------------------------------------------------------------
  // States
  // ---------------------------------------------------------------------------

  /** Who started a handler. */
  datatype Origin = CompileCall | RollbackCall | AdvanceCall(id: string)

  /** Where a handler stands between two of its lock acquisitions. */
  datatype Stage =
    | NeedsPlan(node: string, profile: string, config: string, artifact: string)
    | NeedsHealth(id: string, status: DeploymentStatus)
    | NeedsPointer(id: string)
    | NeedsSnapshot(id: string, previous: string, artifact: string)
    | NeedsBytes(id: string, previous: string, artifact: string, node: string)
    | NeedsSequence(node: string, kind: CommandKind)
    | NeedsEnqueue(command: RunnerCommand)
    | Finished(outcome: Outcome)

  datatype Job = Job(origin: Origin, stage: Stage)

  datatype PlanEvent = PlanEvent(id: string, node: string, config: string)

  datatype Report = Report(node: string, result: DeploymentResult)

  /** What has happened so far; it only grows. */
  datatype Past = Past(
    planned: set<PlanEvent>,
    order: seq<string>,
    signed: set<RunnerCommand>,
    reports: set<Report>,
    delivered: map<string, seq<SignedRunnerCommand>>)

  datatype World = World(
    store: StoreState,
    sequences: map<string, nat>,
    jobs: map<nat, Job>,
    runners: map<string, RunnerState>,
    past: Past)

  function Initial(tenant: string): World {
    World(EmptyStore(tenant), map[], map[], map[], Past({}, [], {}, {}, map[]))
  }

  function RunnerOf(w: World, node: string): RunnerState {
    if node in w.runners then w.runners[node] else RunnerState(node, false, false, 0, {}, EmptyFs)
  }

  function DeliveredTo(w: World, node: string): seq<SignedRunnerCommand> {
    if node in w.past.delivered then w.past.delivered[node] else []
  }

  // ---------------------------------------------------------------------------
  // Steps
  // ---------------------------------------------------------------------------

  datatype Step =
    | StartCompile(h: nat, node: string, profile: string, config: string, artifact: string, at: int)
    | RecordPlan(h: nat, previous: Option<string>, at: int)
    | StartRollback(h: nat, id: string)
    | StartAdvance(h: nat, id: string)
    | ReadHealth(h: nat)
    | ReadPointer(h: nat)
    | ReadSnapshot(h: nat)
    | ReadBytes(h: nat)
    | Allocate(h: nat, nonce: string, at: int)
    | EnqueueCommand(h: nat, signature: string)
    | PollQueue(node: string, last: nat)
    | ReportHealth(sample: HealthSample, at: int)
    | SubmitResult(report: Report, at: int)
    | RunnerReceives(node: string, envelope: SignedRunnerCommand, at: int, oracles: Oracles)
    | RunnerRestarts(node: string, hasReload: bool, hasHealth: bool)

  /** Artifact ids are fresh, only the control plane can produce verifying signatures,
      and a submitted result is one that node's runner produced, possibly long ago. */
  ghost predicate Enabled(crypto: Crypto, w: World, step: Step) {
    match step
    case StartCompile(h, _, _, _, artifact, _) => h !in w.jobs && artifact !in w.store.artifacts.shas
    case RecordPlan(h, previous, _) =>
      h in w.jobs && w.jobs[h].stage.NeedsPlan? && IsPrevious(w.store.deployments, w.jobs[h].stage.node, previous)
    case StartRollback(h, _) => h !in w.jobs
    case StartAdvance(h, id) => h !in w.jobs && id in w.store.deployments.statuses
    case ReadHealth(h) => h in w.jobs && w.jobs[h].stage.NeedsHealth?
    case ReadPointer(h) => h in w.jobs && w.jobs[h].stage.NeedsPointer?
    case ReadSnapshot(h) => h in w.jobs && w.jobs[h].stage.NeedsSnapshot?
    case ReadBytes(h) => h in w.jobs && w.jobs[h].stage.NeedsBytes?
    case Allocate(h, _, _) => h in w.jobs && w.jobs[h].stage.NeedsSequence?
    case EnqueueCommand(h, _) => h in w.jobs && w.jobs[h].stage.NeedsEnqueue?
    case SubmitResult(report, _) => report in w.past.reports
    case RunnerReceives(_, envelope, _, _) =>
      crypto.verifies(envelope.command, envelope.signatureHex) ==> envelope.command in w.past.signed
    case _ => true
  }

  function WithStage(w: World, h: nat, stage: Stage): World
    requires h in w.jobs
  {
    w.(jobs := w.jobs[h := w.jobs[h].(stage := stage)])
  }

  function AfterHealth(d: Deployments, id: string, status: DeploymentStatus): Stage {
    if id !in d.plans then Finished(MissingRecord)
    else
      match ReadinessOf(status, SamplesOf(d.health, id))
      case Ready => Finished(Promoted)
      case LatestUnhealthy => NeedsPointer(id)
      case WaitingForSuccess => Finished(Waiting)
      case WaitingForSamples => Finished(Waiting)
  }

  function AfterPointer(d: Deployments, id: string): Stage {
    if id !in d.pointers then Finished(MissingRecord)
    else if d.pointers[id].previousId.None? || d.pointers[id].previousArtifact.None? then Finished(NoPrevious)
    else NeedsSnapshot(id, d.pointers[id].previousId.value, d.pointers[id].previousArtifact.value)
  }

  function AfterSnapshot(d: Deployments, s: Stage): Stage
    requires s.NeedsSnapshot?
  {
    if s.id !in d.snapshots then Finished(MissingRecord)
    else NeedsBytes(s.id, s.previous, s.artifact, d.snapshots[s.id].node)
  }

  function AfterBytes(crypto: Crypto, a: Artifacts, s: Stage): Stage
    requires s.NeedsBytes?
  {
    match ArtifactBytes(a, s.artifact)
    case None => Finished(MissingRecord)
    case Some(bytes) => NeedsSequence(s.node, RollbackDeployment(s.id, s.previous, crypto.sha256(bytes)))
  }

  function AfterStartCompile(crypto: Crypto, w: World, step: Step): World
    requires step.StartCompile?
  {
    w.(store := RecordBlobSpec(crypto, w.store, step.artifact, crypto.sha256(step.config), step.config, step.at),
       jobs := w.jobs[step.h := Job(CompileCall, NeedsPlan(step.node, step.profile, step.config, step.artifact))])
  }

  function AfterRecordPlan(crypto: Crypto, w: World, h: nat, previous: Option<string>, at: int): World
    requires h in w.jobs && w.jobs[h].stage.NeedsPlan?
    requires previous.Some? ==> previous.value in w.store.deployments.plans
  {
    var s := w.jobs[h].stage;
    var id := DeploymentIdOf(crypto.sha256(s.config));
    var planned := w.(store := RecordPlanSpec(w.store, id, Plan(s.node, s.profile, s.artifact, at), previous),
                      past := w.past.(planned := w.past.planned + {PlanEvent(id, s.node, s.config)},
                                      order := w.past.order + [id]));
    WithStage(planned, h, NeedsSequence(s.node, ApplyKind(crypto, s.config)))
  }

  function AfterAllocate(w: World, h: nat, nonce: string, at: int): World
    requires h in w.jobs && w.jobs[h].stage.NeedsSequence?
  {
    var s := w.jobs[h].stage;
    var c := NewCommand(w.sequences, s.node, at, nonce, s.kind);
    var signed := w.past.(signed := w.past.signed + {c});
    WithStage(w.(sequences := w.sequences[s.node := c.sequence], past := signed), h, NeedsEnqueue(c))
  }

  function AfterEnqueue(w: World, h: nat, signature: string): World
    requires h in w.jobs && w.jobs[h].stage.NeedsEnqueue?
  {
    var c := w.jobs[h].stage.command;
    WithStage(w.(store := EnqueueSpec(w.store, c.nodeId, SignedRunnerCommand(c, signature))), h, Finished(Queued(c)))
  }

  function AfterPollQueue(w: World, node: string, last: nat): World {
    var handed := PollSpec(QueueOf(w.store, node), last).handed;
    w.(store := AfterPoll(w.store, node, last),
       past := w.past.(delivered := w.past.delivered[node := DeliveredTo(w, node) + AsSeq(handed)]))
  }

  function AfterReceive(crypto: Crypto, w: World, node: string, envelope: SignedRunnerCommand, at: int,
                        o: Oracles): World {
    var x := ApplySpec(crypto, RunnerOf(w, node), envelope, at, o);
    w.(runners := w.runners[node := x.state],
       past := w.past.(reports := w.past.reports + (if x.report.Some? then {Report(node, x.report.value)} else {})))
  }

  ghost function Next(crypto: Crypto, w: World, step: Step): World
    requires Enabled(crypto, w, step)
  {
    match step
    case StartCompile(_, _, _, _, _, _) => AfterStartCompile(crypto, w, step)
    case RecordPlan(h, previous, at) => AfterRecordPlan(crypto, w, h, previous, at)
    case StartRollback(h, id) => w.(jobs := w.jobs[h := Job(RollbackCall, NeedsPointer(id))])
    case StartAdvance(h, id) =>
      w.(jobs := w.jobs[h := Job(AdvanceCall(id), NeedsHealth(id, w.store.deployments.statuses[id]))])
    case ReadHealth(h) => WithStage(w, h, AfterHealth(w.store.deployments, w.jobs[h].stage.id, w.jobs[h].stage.status))
    case ReadPointer(h) => WithStage(w, h, AfterPointer(w.store.deployments, w.jobs[h].stage.id))
    case ReadSnapshot(h) => WithStage(w, h, AfterSnapshot(w.store.deployments, w.jobs[h].stage))
    case ReadBytes(h) => WithStage(w, h, AfterBytes(crypto, w.store.artifacts, w.jobs[h].stage))
    case Allocate(h, nonce, at) => AfterAllocate(w, h, nonce, at)
    case EnqueueCommand(h, signature) => AfterEnqueue(w, h, signature)
    case PollQueue(node, last) => AfterPollQueue(w, node, last)
    case ReportHealth(sample, at) => w.(store := RecordHealthSpec(w.store, sample, at))
    case SubmitResult(report, at) => w.(store := RecordResultSpec(w.store, report.result, at))
    case RunnerReceives(node, envelope, at, o) => AfterReceive(crypto, w, node, envelope, at, o)
    case RunnerRestarts(node, reload, health) =>
      w.(runners := w.runners[node := RestartSpec(RunnerOf(w, node)).(hasReload := reload, hasHealth := health)])
  }

  ghost predicate ValidRun(crypto: Crypto, start: World, steps: seq<Step>)
    decreases |steps|, 0
  {
    steps == [] ||
    (var n := |steps| - 1;
     ValidRun(crypto, start, steps[..n]) && Enabled(crypto, RunFrom(crypto, start, steps[..n]), steps[n]))
  }

  ghost function RunFrom(crypto: Crypto, start: World, steps: seq<Step>): World
    requires ValidRun(crypto, start, steps)
    decreases |steps|, 1
  {
    if steps == [] then start
    else Next(crypto, RunFrom(crypto, start, steps[..|steps|-1]), steps[|steps|-1])
  }

  ghost predicate Reachable(crypto: Crypto, w: World) {
    exists tenant, steps :: ValidRun(crypto, Initial(tenant), steps) && RunFrom(crypto, Initial(tenant), steps) == w
  }

  // ---------------------------------------------------------------------------
  // Facts: each survives whatever happens next
  // ---------------------------------------------------------------------------

  /** No deployment id is ever planned for two nodes. */
  ghost predicate OneNode(planned: set<PlanEvent>) {
    forall e, f :: e in planned && f in planned && e.id == f.id ==> e.node == f.node
  }

  ghost predicate Held(w: World, node: string, id: string) {
    node in w.runners && id in w.runners[node].fs.releases
  }

  ghost predicate Target(w: World, node: string, id: string) {
    OneNode(w.past.planned) ==> Held(w, node, id)
  }

  ghost predicate PlannedOn(w: World, id: string, node: string) {
    exists config :: PlanEvent(id, node, config) in w.past.planned
  }

  /** The digest of some planned configuration. */
  ghost predicate Known(crypto: Crypto, w: World, sha: Digest) {
    exists e :: e in w.past.planned && crypto.sha256(e.config) == sha
  }

  ghost predicate ArtifactFact(crypto: Crypto, w: World, artifact: string, id: string) {
    && artifact in w.store.artifacts.shas
    && DeploymentIdOf(w.store.artifacts.shas[artifact]) == id
    && Known(crypto, w, w.store.artifacts.shas[artifact])
  }

  ghost predicate KindFact(crypto: Crypto, w: World, node: string, kind: CommandKind) {
    match kind
    case ApplyDeploymentPlan(id, sha, config) =>
      kind == ApplyKind(crypto, config) && PlanEvent(id, node, config) in w.past.planned
    case RollbackDeployment(_, previous, sha) =>
      DeploymentIdOf(sha) == previous && Known(crypto, w, sha) && Target(w, node, previous)
    case OtherCommand => true
  }

  ghost predicate SnapshotGoal(w: World, id: string, previous: string) {
    exists node :: PlannedOn(w, id, node) && Target(w, node, previous)
  }

  ghost predicate JobFact(crypto: Crypto, w: World, job: Job) {
    var d := w.store.deployments;
    match job.stage
    case NeedsPlan(_, _, config, artifact) =>
      artifact in w.store.artifacts.shas && w.store.artifacts.shas[artifact] == crypto.sha256(config)
    case NeedsHealth(id, status) => id in d.plans && id in d.pointers && (status == Succeeded ==> id in d.snapshots)
    case NeedsPointer(id) => job.origin.AdvanceCall? ==> id in d.pointers && id in d.snapshots
    case NeedsSnapshot(id, previous, artifact) =>
      && ArtifactFact(crypto, w, artifact, previous) && SnapshotGoal(w, id, previous)
      && (job.origin.AdvanceCall? ==> id in d.snapshots)
    case NeedsBytes(_, previous, artifact, node) =>
      ArtifactFact(crypto, w, artifact, previous) && Target(w, node, previous)
    case NeedsSequence(node, kind) => KindFact(crypto, w, node, kind)
    case NeedsEnqueue(c) => c in w.past.signed
    case Finished(outcome) => job.origin.AdvanceCall? ==> outcome != MissingRecord
  }

  ghost predicate PlanFact(crypto: Crypto, w: World, id: string, plan: Plan, status: DeploymentStatus) {
    && PlannedOn(w, id, plan.node)
    && ArtifactFact(crypto, w, plan.artifact, id)
    && (status == Succeeded ==> Target(w, plan.node, id))
  }

  ghost predicate PointerFact(crypto: Crypto, w: World, node: string, p: Pointer) {
    p.previousId.Some? && p.previousArtifact.Some? ==>
      ArtifactFact(crypto, w, p.previousArtifact.value, p.previousId.value) && Target(w, node, p.previousId.value)
  }

  ghost predicate ReleaseFact(crypto: Crypto, w: World, node: string, id: string, config: string) {
    PlanEvent(id, node, config) in w.past.planned && id == DeploymentIdOf(crypto.sha256(config))
  }

  ghost predicate ReportFact(w: World, r: Report) {
    r.result.status == Succeeded ==> Held(w, r.node, r.result.deploymentId)
  }

  /** What later states keep of earlier ones. */
  ghost predicate Extends(w: World, w': World) {
    && w.past.planned <= w'.past.planned
    && w.past.signed <= w'.past.signed
    && (forall a :: a in w.store.artifacts.shas ==>
          a in w'.store.artifacts.shas && w'.store.artifacts.shas[a] == w.store.artifacts.shas[a])
    && (forall n, x :: Held(w, n, x) ==> Held(w', n, x))
    && (forall x :: x in w.store.deployments.plans ==> x in w'.store.deployments.plans)
    && (forall x :: x in w.store.deployments.pointers ==> x in w'.store.deployments.pointers)
    && (forall x :: x in w.store.deployments.snapshots ==> x in w'.store.deployments.snapshots)
  }

  lemma OneNodeShrinks(w: World, w': World)
    requires w.past.planned <= w'.past.planned && OneNode(w'.past.planned)
    ensures OneNode(w.past.planned)
  {
  }

  lemma TargetCarries(w: World, w': World)
    requires Extends(w, w')
    ensures forall node, id :: Target(w, node, id) ==> Target(w', node, id)
  {
    if OneNode(w'.past.planned) {
      OneNodeShrinks(w, w');
    }
  }

  lemma ArtifactCarries(crypto: Crypto, w: World, w': World, artifact: string, id: string)
    requires Extends(w, w') && ArtifactFact(crypto, w, artifact, id)
    ensures ArtifactFact(crypto, w', artifact, id)
  {
    var e :| e in w.past.planned && crypto.sha256(e.config) == w.store.artifacts.shas[artifact];
    assert e in w'.past.planned;
  }

  lemma PlannedCarries(w: World, w': World, id: string, node: string)
    requires Extends(w, w') && PlannedOn(w, id, node)
    ensures PlannedOn(w', id, node)
  {
    var config :| PlanEvent(id, node, config) in w.past.planned;
    assert PlanEvent(id, node, config) in w'.past.planned;
  }

  lemma KindCarries(crypto: Crypto, w: World, w': World, node: string, kind: CommandKind)
    requires Extends(w, w') && KindFact(crypto, w, node, kind)
    ensures KindFact(crypto, w', node, kind)
  {
    if kind.RollbackDeployment? {
      TargetCarries(w, w');
      var e :| e in w.past.planned && crypto.sha256(e.config) == kind.artifactSha256;
      assert e in w'.past.planned;
    }
  }

  lemma JobCarries(crypto: Crypto, w: World, w': World, job: Job)
    requires Extends(w, w') && JobFact(crypto, w, job)
    ensures JobFact(crypto, w', job)
  {
    match job.stage {
      case NeedsSnapshot(id, previous, artifact) =>
        ArtifactCarries(crypto, w, w', artifact, previous);
        TargetCarries(w, w');
        var node :| PlannedOn(w, id, node) && Target(w, node, previous);
        PlannedCarries(w, w', id, node);
      case NeedsBytes(_, previous, artifact, node) =>
        ArtifactCarries(crypto, w, w', artifact, previous);
        TargetCarries(w, w');
      case NeedsSequence(node, kind) => KindCarries(crypto, w, w', node, kind);
      case _ =>
    }
  }

  lemma PlanCarries(crypto: Crypto, w: World, w': World, id: string, plan: Plan, status: DeploymentStatus)
    requires Extends(w, w') && PlanFact(crypto, w, id, plan, status)
    ensures PlanFact(crypto, w', id, plan, status)
  {
    PlannedCarries(w, w', id, plan.node);
    ArtifactCarries(crypto, w, w', plan.artifact, id);
    TargetCarries(w, w');
  }

  lemma PointerCarries(crypto: Crypto, w: World, w': World, node: string, p: Pointer)
    requires Extends(w, w') && PointerFact(crypto, w, node, p)
    ensures PointerFact(crypto, w', node, p)
  {
    if p.previousId.Some? && p.previousArtifact.Some? {
      ArtifactCarries(crypto, w, w', p.previousArtifact.value, p.previousId.value);
      TargetCarries(w, w');
    }
  }

  // ---------------------------------------------------------------------------
  // The joint invariant
  // ---------------------------------------------------------------------------

  ghost predicate JobsInv(crypto: Crypto, w: World) {
    && (forall h :: h in w.jobs ==> JobFact(crypto, w, w.jobs[h]))
    && (forall c :: c in w.past.signed ==> KindFact(crypto, w, c.nodeId, c.kind))
  }

  ghost predicate TableInv(crypto: Crypto, w: World) {
    var d := w.store.deployments;
    && (forall x :: x in d.plans && x in d.statuses ==> PlanFact(crypto, w, x, d.plans[x], d.statuses[x]))
    && (forall x :: x in d.plans && x in d.pointers ==> PointerFact(crypto, w, d.plans[x].node, d.pointers[x]))
    && (forall x :: x in d.snapshots ==> PlannedOn(w, x, d.snapshots[x].node))
  }

  ghost predicate RunnersInv(crypto: Crypto, w: World) {
    && (forall n :: n in w.runners ==> w.runners[n].nodeId == n)
    && (forall n, x :: Held(w, n, x) ==> ReleaseFact(crypto, w, n, x, w.runners[n].fs.releases[x]))
    && (forall r :: r in w.past.reports ==> ReportFact(w, r))
  }

  ghost predicate Inv(crypto: Crypto, w: World) {
    Coherent(crypto, w.store) && JobsInv(crypto, w) && TableInv(crypto, w) && RunnersInv(crypto, w)
  }

  /** Handlers, signed commands, tables and runners that did not change keep their facts. */
  lemma JobsCarry(crypto: Crypto, w: World, w': World)
    requires JobsInv(crypto, w) && Extends(w, w')
    ensures forall h :: h in w.jobs ==> JobFact(crypto, w', w.jobs[h])
    ensures forall c :: c in w.past.signed ==> KindFact(crypto, w', c.nodeId, c.kind)
  {
    forall h | h in w.jobs
      ensures JobFact(crypto, w', w.jobs[h])
    {
      JobCarries(crypto, w, w', w.jobs[h]);
    }
    forall c | c in w.past.signed
      ensures KindFact(crypto, w', c.nodeId, c.kind)
    {
      KindCarries(crypto, w, w', c.nodeId, c.kind);
    }
  }

  lemma TablesCarry(crypto: Crypto, w: World, w': World)
    requires TableInv(crypto, w) && Extends(w, w')
    ensures var d := w.store.deployments;
            && (forall x :: x in d.plans && x in d.statuses ==> PlanFact(crypto, w', x, d.plans[x], d.statuses[x]))
            && (forall x :: x in d.plans && x in d.pointers ==> PointerFact(crypto, w', d.plans[x].node, d.pointers[x]))
            && (forall x :: x in d.snapshots ==> PlannedOn(w', x, d.snapshots[x].node))
  {
    var d := w.store.deployments;
    forall x | x in d.plans && x in d.statuses
      ensures PlanFact(crypto, w', x, d.plans[x], d.statuses[x])
    {
      PlanCarries(crypto, w, w', x, d.plans[x], d.statuses[x]);
    }
    forall x | x in d.plans && x in d.pointers
      ensures PointerFact(crypto, w', d.plans[x].node, d.pointers[x])
    {
      PointerCarries(crypto, w, w', d.plans[x].node, d.pointers[x]);
    }
    forall x | x in d.snapshots
      ensures PlannedOn(w', x, d.snapshots[x].node)
    {
      PlannedCarries(w, w', x, d.snapshots[x].node);
    }
  }
}

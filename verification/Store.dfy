/** The deployment part of the in-memory store: artifacts and their blobs, plans with
    status and rollback pointer, result snapshots, health samples, the command queues,
    recorded idempotent responses, and the audit and outbox logs. */
module Store {
  import opened Domain
  import opened CommandQueue

  datatype Plan = Plan(node: string, profile: string, artifact: string, createdAt: int)

  datatype Pointer = Pointer(previousId: Option<string>, previousArtifact: Option<string>, targetArtifact: string)

  datatype Snapshot = Snapshot(node: string, profile: string, artifact: string, status: DeploymentStatus, sha: Digest)

  datatype HealthStatus = Healthy | Unhealthy

  datatype HealthSample = HealthSample(deploymentId: string, node: string, status: HealthStatus, createdAt: int)

  datatype Actor = Admin | RunnerActor | ControlPlaneActor

  datatype Action = ArtifactCreated | DeploymentPlanned | DeploymentReported | DeploymentHealth

  datatype Aggregate = ArtifactAggregate | DeploymentAggregate

  datatype Subject = Subject(kind: Aggregate, id: string)

  datatype AuditEvent = AuditEvent(tenant: string, actor: Actor, action: Action, subject: Subject, at: int)

  datatype OutboxEvent = OutboxEvent(
    tenant: string, eventType: Action, aggregateType: Aggregate, aggregateId: string, pending: bool, at: int)

  datatype Response = Response(deploymentId: string, sha: Digest, auditCount: nat, outboxCount: nat)

  /** Artifact records by id, and content-addressed bytes. */
  datatype Artifacts = Artifacts(shas: map<string, Digest>, blobs: map<Digest, string>)

  datatype Deployments = Deployments(
    plans: map<string, Plan>,
    statuses: map<string, DeploymentStatus>,
    pointers: map<string, Pointer>,
    snapshots: map<string, Snapshot>,
    health: seq<HealthSample>)

  datatype Logs = Logs(audit: seq<AuditEvent>, outbox: seq<OutboxEvent>)

  datatype StoreState = StoreState(
    tenant: string,
    artifacts: Artifacts,
    deployments: Deployments,
    queues: map<string, seq<SignedRunnerCommand>>,
    responses: map<string, Response>,
    logs: Logs)

  function EmptyStore(tenant: string): StoreState {
    StoreState(tenant, Artifacts(map[], map[]), Deployments(map[], map[], map[], map[], []), map[], map[], Logs([], []))
  }

  // ---------------------------------------------------------------------------
  // Specification of each operation
  // ---------------------------------------------------------------------------

  function Logged(tenant: string, logs: Logs, actor: Actor, action: Action, subject: Subject, now: int): Logs {
    Logs(logs.audit + [AuditEvent(tenant, actor, action, subject, now)],
         logs.outbox + [OutboxEvent(tenant, action, subject.kind, subject.id, true, now)])
  }

  function WithBlob(a: Artifacts, artifact: string, sha: Digest, bytes: string): Artifacts {
    Artifacts(a.shas[artifact := sha], a.blobs[sha := bytes])
  }

  function ArtifactBytes(a: Artifacts, artifact: string): Option<string> {
    if artifact in a.shas && a.shas[artifact] in a.blobs then Some(a.blobs[a.shas[artifact]]) else None
  }

  predicate SucceededOn(d: Deployments, node: string, id: string) {
    && id in d.plans && d.plans[id].node == node
    && id in d.statuses && d.statuses[id] == Succeeded
  }

  /** The deployment a new plan on `node` would roll back to: the most recently planned
      one that currently counts as succeeded there. Ties are broken by map order. */
  ghost predicate IsPrevious(d: Deployments, node: string, previous: Option<string>) {
    match previous
    case None => forall q :: q in d.plans ==> !SucceededOn(d, node, q)
    case Some(p) =>
      && SucceededOn(d, node, p)
      && forall q :: q in d.plans && SucceededOn(d, node, q) ==> d.plans[q].createdAt <= d.plans[p].createdAt
  }

  function PointerTo(d: Deployments, target: string, previous: Option<string>): Pointer
    requires previous.Some? ==> previous.value in d.plans
  {
    match previous
    case None => Pointer(None, None, target)
    case Some(p) => Pointer(Some(p), Some(d.plans[p].artifact), target)
  }

  function WithPlan(d: Deployments, id: string, plan: Plan, previous: Option<string>): Deployments
    requires previous.Some? ==> previous.value in d.plans
  {
    d.(plans := d.plans[id := plan],
       statuses := d.statuses[id := Pending],
       pointers := d.pointers[id := PointerTo(d, plan.artifact, previous)])
  }

  function HealthFor(status: DeploymentStatus): HealthStatus {
    match status
    case Succeeded => Healthy
    case RolledBack => Healthy
    case Pending => Unhealthy
    case Failed => Unhealthy
  }

  function SnapshotOf(plan: Plan, r: DeploymentResult): Snapshot {
    Snapshot(plan.node, plan.profile, plan.artifact, r.status, r.artifactSha256)
  }

  function WithResult(d: Deployments, r: DeploymentResult, now: int): Deployments
    requires r.deploymentId in d.plans
  {
    var plan := d.plans[r.deploymentId];
    d.(statuses := d.statuses[r.deploymentId := r.status],
       snapshots := d.snapshots[r.deploymentId := SnapshotOf(plan, r)],
       health := d.health + [HealthSample(r.deploymentId, plan.node, HealthFor(r.status), now)])
  }

  predicate HealthAccepted(d: Deployments, sample: HealthSample) {
    sample.deploymentId in d.plans && d.plans[sample.deploymentId].node == sample.node
  }

  function RecordBlobSpec(crypto: Crypto, st: StoreState, artifact: string, sha: Digest, bytes: string,
                          now: int): StoreState {
    if crypto.sha256(bytes) != sha then st
    else
      st.(artifacts := WithBlob(st.artifacts, artifact, sha, bytes),
          logs := Logged(st.tenant, st.logs, ControlPlaneActor, ArtifactCreated,
              Subject(ArtifactAggregate, artifact), now))
  }

  function RecordPlanSpec(st: StoreState, id: string, plan: Plan, previous: Option<string>): StoreState
    requires previous.Some? ==> previous.value in st.deployments.plans
  {
    st.(deployments := WithPlan(st.deployments, id, plan, previous),
        logs := Logged(st.tenant, st.logs, Admin, DeploymentPlanned, Subject(DeploymentAggregate, id), plan.createdAt))
  }

  function RecordResultSpec(st: StoreState, r: DeploymentResult, now: int): StoreState {
    if r.deploymentId !in st.deployments.plans then st
    else
      st.(deployments := WithResult(st.deployments, r, now),
          logs := Logged(st.tenant, st.logs, RunnerActor, DeploymentReported,
              Subject(DeploymentAggregate, r.deploymentId), now))
  }

  function RecordHealthSpec(st: StoreState, sample: HealthSample, now: int): StoreState {
    if !HealthAccepted(st.deployments, sample) then st
    else
      st.(deployments := st.deployments.(health := st.deployments.health + [sample]),
          logs := Logged(st.tenant, st.logs, RunnerActor, DeploymentHealth,
              Subject(DeploymentAggregate, sample.deploymentId), now))
  }

  function QueueOf(st: StoreState, node: string): seq<SignedRunnerCommand> {
    if node in st.queues then st.queues[node] else []
  }

  function EnqueueSpec(st: StoreState, node: string, e: SignedRunnerCommand): StoreState {
    st.(queues := st.queues[node := QueueOf(st, node) + [e]])
  }

  function AfterPoll(st: StoreState, node: string, last: nat): StoreState {
    if node !in st.queues then st
    else st.(queues := st.queues[node := PollSpec(st.queues[node], last).queue])
  }

  function RecordResponseSpec(st: StoreState, key: string, response: Response): StoreState {
    if key in st.responses then st else st.(responses := st.responses[key := response])
  }

  // ---------------------------------------------------------------------------
  // Coherence
  // ---------------------------------------------------------------------------

  ghost predicate KeysAgree(d: Deployments) {
    && d.plans.Keys == d.statuses.Keys == d.pointers.Keys
    && d.snapshots.Keys <= d.plans.Keys
    && forall i :: 0 <= i < |d.health| ==> d.health[i].deploymentId in d.plans
  }

  /** Pending, or what the last report said. */
  ghost predicate StatusAgrees(snapshots: map<string, Snapshot>, x: string, status: DeploymentStatus) {
    status == Pending || (x in snapshots && status == snapshots[x].status)
  }

  ghost predicate PointerAgrees(plans: map<string, Plan>, x: string, p: Pointer) {
    && (p.previousId.Some? <==> p.previousArtifact.Some?)
    && (p.previousId.Some? ==> p.previousId.value in plans)
    && x in plans && p.targetArtifact == plans[x].artifact
  }

  ghost predicate DeploymentsCoherent(d: Deployments) {
    && KeysAgree(d)
    && (forall x :: x in d.statuses ==> StatusAgrees(d.snapshots, x, d.statuses[x]))
    && (forall x :: x in d.pointers ==> PointerAgrees(d.plans, x, d.pointers[x]))
  }

  ghost predicate ArtifactsCoherent(crypto: Crypto, a: Artifacts) {
    && (forall h :: h in a.blobs ==> crypto.sha256(a.blobs[h]) == h)
    && (forall x :: x in a.shas ==> a.shas[x] in a.blobs)
  }

  ghost predicate LogsMatch(logs: Logs) {
    && |logs.audit| == |logs.outbox|
    && forall i :: 0 <= i < |logs.audit| ==> SameEvent(logs.audit[i], logs.outbox[i])
  }

  ghost predicate SameEvent(a: AuditEvent, o: OutboxEvent) {
    && a.tenant == o.tenant && a.action == o.eventType && a.at == o.at
    && a.subject == Subject(o.aggregateType, o.aggregateId) && o.pending
  }

  ghost predicate Coherent(crypto: Crypto, st: StoreState) {
    DeploymentsCoherent(st.deployments) && ArtifactsCoherent(crypto, st.artifacts) && LogsMatch(st.logs)
  }

  datatype StoreOp =
    | BlobOp(artifact: string, sha: Digest, bytes: string, at: int)
    | PlanOp(id: string, plan: Plan, previous: Option<string>)
    | ResultOp(result: DeploymentResult, at: int)
    | HealthOp(sample: HealthSample, at: int)
    | EnqueueOp(node: string, envelope: SignedRunnerCommand)
    | NextOp(node: string, last: nat)
    | ResponseOp(key: string, response: Response)

  /** The only nondeterminism: which of several equally recent deployments is "previous". */
  ghost predicate OpAllowed(st: StoreState, op: StoreOp) {
    op.PlanOp? ==> IsPrevious(st.deployments, op.plan.node, op.previous)
  }

  ghost function StoreStep(crypto: Crypto, st: StoreState, op: StoreOp): StoreState
    requires OpAllowed(st, op)
  {
    match op
    case BlobOp(artifact, sha, bytes, at) => RecordBlobSpec(crypto, st, artifact, sha, bytes, at)
    case PlanOp(id, plan, previous) => RecordPlanSpec(st, id, plan, previous)
    case ResultOp(result, at) => RecordResultSpec(st, result, at)
    case HealthOp(sample, at) => RecordHealthSpec(st, sample, at)
    case EnqueueOp(node, envelope) => EnqueueSpec(st, node, envelope)
    case NextOp(node, last) => AfterPoll(st, node, last)
    case ResponseOp(key, response) => RecordResponseSpec(st, key, response)
  }

  /** What a step never takes back. */
  ghost predicate Grows(st: StoreState, st': StoreState) {
    && st.logs.audit <= st'.logs.audit && st.logs.outbox <= st'.logs.outbox
    && DeploymentsGrow(st.deployments, st'.deployments)
    && st.artifacts.shas.Keys <= st'.artifacts.shas.Keys && st.artifacts.blobs.Keys <= st'.artifacts.blobs.Keys
    && (forall k :: k in st.responses ==> k in st'.responses && st'.responses[k] == st.responses[k])
  }

  ghost predicate DeploymentsGrow(d: Deployments, d': Deployments) {
    d.plans.Keys <= d'.plans.Keys && d.snapshots.Keys <= d'.snapshots.Keys && d.health <= d'.health
  }

  lemma PlanKeepsKeys(d: Deployments, id: string, plan: Plan, previous: Option<string>)
    requires KeysAgree(d) && IsPrevious(d, plan.node, previous)
    ensures KeysAgree(WithPlan(d, id, plan, previous))
  {
  }

  lemma PlanKeepsDeployments(d: Deployments, id: string, plan: Plan, previous: Option<string>)
    requires DeploymentsCoherent(d) && IsPrevious(d, plan.node, previous)
    ensures DeploymentsCoherent(WithPlan(d, id, plan, previous))
  {
    var d' := WithPlan(d, id, plan, previous);
    PlanKeepsKeys(d, id, plan, previous);
    forall x | x in d'.statuses
      ensures StatusAgrees(d'.snapshots, x, d'.statuses[x])
    {
      assert x != id ==> StatusAgrees(d.snapshots, x, d.statuses[x]);
    }
    forall x | x in d'.pointers
      ensures PointerAgrees(d'.plans, x, d'.pointers[x])
    {
      assert x != id ==> PointerAgrees(d.plans, x, d.pointers[x]);
    }
  }

  lemma ResultKeepsKeys(d: Deployments, r: DeploymentResult, now: int)
    requires KeysAgree(d) && r.deploymentId in d.plans
    ensures KeysAgree(WithResult(d, r, now))
  {
  }

  lemma ResultKeepsDeployments(d: Deployments, r: DeploymentResult, now: int)
    requires DeploymentsCoherent(d) && r.deploymentId in d.plans
    ensures DeploymentsCoherent(WithResult(d, r, now))
  {
    var d' := WithResult(d, r, now);
    ResultKeepsKeys(d, r, now);
    forall x | x in d'.statuses
      ensures StatusAgrees(d'.snapshots, x, d'.statuses[x])
    {
      assert x != r.deploymentId ==> StatusAgrees(d.snapshots, x, d.statuses[x]);
    }
  }

  lemma StepKeepsDeployments(crypto: Crypto, st: StoreState, op: StoreOp)
    requires DeploymentsCoherent(st.deployments) && OpAllowed(st, op)
    ensures DeploymentsCoherent(StoreStep(crypto, st, op).deployments)
  {
    match op {
      case PlanOp(id, plan, previous) => PlanKeepsDeployments(st.deployments, id, plan, previous);
      case ResultOp(result, at) =>
        if result.deploymentId in st.deployments.plans {
          ResultKeepsDeployments(st.deployments, result, at);
        }
      case _ =>
    }
  }

  lemma StepKeepsArtifacts(crypto: Crypto, st: StoreState, op: StoreOp)
    requires ArtifactsCoherent(crypto, st.artifacts) && OpAllowed(st, op)
    ensures ArtifactsCoherent(crypto, StoreStep(crypto, st, op).artifacts)
  {
  }

  lemma LoggedMatches(tenant: string, logs: Logs, actor: Actor, action: Action, subject: Subject, now: int)
    requires LogsMatch(logs)
    ensures LogsMatch(Logged(tenant, logs, actor, action, subject, now))
  {
  }

  lemma StepKeepsLogs(crypto: Crypto, st: StoreState, op: StoreOp)
    requires LogsMatch(st.logs) && OpAllowed(st, op)
    ensures LogsMatch(StoreStep(crypto, st, op).logs)
  {
    forall actor, action, subject, now
      ensures LogsMatch(Logged(st.tenant, st.logs, actor, action, subject, now))
    {
      LoggedMatches(st.tenant, st.logs, actor, action, subject, now);
    }
  }

  lemma StepKeepsCoherence(crypto: Crypto, st: StoreState, op: StoreOp)
    requires Coherent(crypto, st) && OpAllowed(st, op)
    ensures Coherent(crypto, StoreStep(crypto, st, op))
  {
    StepKeepsDeployments(crypto, st, op);
    StepKeepsArtifacts(crypto, st, op);
    StepKeepsLogs(crypto, st, op);
  }

  lemma StepGrows(crypto: Crypto, st: StoreState, op: StoreOp)
    requires OpAllowed(st, op)
    ensures Grows(st, StoreStep(crypto, st, op))
  {
  }

  ghost predicate ValidOps(crypto: Crypto, tenant: string, ops: seq<StoreOp>)
    decreases |ops|, 0
  {
    ops == [] ||
    (var n := |ops| - 1;
     ValidOps(crypto, tenant, ops[..n]) && OpAllowed(RunStore(crypto, tenant, ops[..n]), ops[n]))
  }

  ghost function RunStore(crypto: Crypto, tenant: string, ops: seq<StoreOp>): StoreState
    requires ValidOps(crypto, tenant, ops)
    decreases |ops|, 1
  {
    if ops == [] then EmptyStore(tenant)
    else StoreStep(crypto, RunStore(crypto, tenant, ops[..|ops|-1]), ops[|ops|-1])
  }

  /** Every state any sequence of store calls can reach is coherent. */
  lemma {:induction false} ReachableStoreIsCoherent(crypto: Crypto, tenant: string, ops: seq<StoreOp>)
    requires ValidOps(crypto, tenant, ops)
    ensures Coherent(crypto, RunStore(crypto, tenant, ops))
    decreases |ops|
  {
    if ops != [] {
      ReachableStoreIsCoherent(crypto, tenant, ops[..|ops|-1]);
      StepKeepsCoherence(crypto, RunStore(crypto, tenant, ops[..|ops|-1]), ops[|ops|-1]);
    }
  }

  /** Audit and outbox are append-only and recorded responses final, between any two
      points of any run. */
  lemma {:induction false} HistoryIsAppendOnly(crypto: Crypto, tenant: string, ops: seq<StoreOp>, k: nat)
    requires ValidOps(crypto, tenant, ops) && k <= |ops|
    ensures ValidOps(crypto, tenant, ops[..k])
    ensures Grows(RunStore(crypto, tenant, ops[..k]), RunStore(crypto, tenant, ops))
    decreases |ops|
  {
    if k == |ops| {
      assert ops[..k] == ops;
    } else {
      var n := |ops| - 1;
      assert ops[..n][..k] == ops[..k];
      HistoryIsAppendOnly(crypto, tenant, ops[..n], k);
      StepGrows(crypto, RunStore(crypto, tenant, ops[..n]), ops[n]);
    }
  }

  // ---------------------------------------------------------------------------
  // The implementation
  // ---------------------------------------------------------------------------

  class MemoryStore {
    const crypto: Crypto
    const tenant: string
    var shas: map<string, Digest>
    var blobs: map<Digest, string>
    var responses: map<string, Response>
    var plans: map<string, Plan>
    var statuses: map<string, DeploymentStatus>
    var pointers: map<string, Pointer>
    var snapshots: map<string, Snapshot>
    var health: seq<HealthSample>
    var queues: map<string, seq<SignedRunnerCommand>>
    var audit: seq<AuditEvent>
    var outbox: seq<OutboxEvent>

    ghost function Table(): Deployments
      reads this
    {
      Deployments(plans, statuses, pointers, snapshots, health)
    }

    ghost function View(): StoreState
      reads this
    {
      StoreState(tenant, Artifacts(shas, blobs), Table(), queues, responses, Logs(audit, outbox))
    }

    constructor (crypto: Crypto, tenant: string)
      ensures View() == EmptyStore(tenant) && this.crypto == crypto
    {
      this.crypto, this.tenant := crypto, tenant;
      shas, blobs, responses := map[], map[], map[];
      plans, statuses, pointers, snapshots, health := map[], map[], map[], map[], [];
      queues, audit, outbox := map[], [], [];
    }

    method Record(actor: Actor, action: Action, subject: Subject, now: int)
      modifies this`audit, this`outbox
      ensures Logs(audit, outbox) == Logged(tenant, old(Logs(audit, outbox)), actor, action, subject, now)
    {
      audit := audit + [AuditEvent(tenant, actor, action, subject, now)];
      outbox := outbox + [OutboxEvent(tenant, action, subject.kind, subject.id, true, now)];
    }

    method RecordArtifactBlob(artifact: string, sha: Digest, bytes: string, now: int) returns (ok: bool)
      modifies this
      ensures ok <==> crypto.sha256(bytes) == sha
      ensures View() == RecordBlobSpec(crypto, old(View()), artifact, sha, bytes, now)
    {
      if crypto.sha256(bytes) != sha {
        return false;
      }
      blobs := blobs[sha := bytes];
      shas := shas[artifact := sha];
      Record(ControlPlaneActor, ArtifactCreated, Subject(ArtifactAggregate, artifact), now);
      return true;
    }

    /** Scans the plans in an arbitrary order and keeps the latest succeeded one. */
    method FindPrevious(node: string) returns (previous: Option<string>)
      ensures IsPrevious(Table(), node, previous)
    {
      previous := None;
      var rest := plans.Keys;
      while rest != {}
        invariant rest <= plans.Keys
        invariant previous.Some? ==> SucceededOn(Table(), node, previous.value)
        invariant forall q :: q in plans && q !in rest && SucceededOn(Table(), node, q) ==>
                    previous.Some? && plans[q].createdAt <= plans[previous.value].createdAt
        decreases rest
      {
        var q :| q in rest;
        if plans[q].node == node && q in statuses && statuses[q] == Succeeded {
          if previous.None? || plans[previous.value].createdAt <= plans[q].createdAt {
            previous := Some(q);
          }
        }
        rest := rest - {q};
      }
    }

    method RecordDeploymentPlan(id: string, plan: Plan) returns (previous: Option<string>)
      modifies this
      ensures IsPrevious(old(Table()), plan.node, previous)
      ensures View() == RecordPlanSpec(old(View()), id, plan, previous)
    {
      previous := FindPrevious(plan.node);
      var pointer := match previous
        case None => Pointer(None, None, plan.artifact)
        case Some(p) => Pointer(Some(p), Some(plans[p].artifact), plan.artifact);
      plans := plans[id := plan];
      statuses := statuses[id := Pending];
      pointers := pointers[id := pointer];
      Record(Admin, DeploymentPlanned, Subject(DeploymentAggregate, id), plan.createdAt);
    }

    method RecordDeploymentResult(r: DeploymentResult, now: int) returns (ok: bool)
      modifies this
      ensures ok <==> r.deploymentId in old(plans)
      ensures View() == RecordResultSpec(old(View()), r, now)
    {
      if r.deploymentId !in plans {
        return false;
      }
      var plan := plans[r.deploymentId];
      statuses := statuses[r.deploymentId := r.status];
      var snapshot := Snapshot(plan.node, plan.profile, plan.artifact, r.status, r.artifactSha256);
      snapshots := snapshots[r.deploymentId := snapshot];
      health := health + [HealthSample(r.deploymentId, plan.node, HealthFor(r.status), now)];
      Record(RunnerActor, DeploymentReported, Subject(DeploymentAggregate, r.deploymentId), now);
      return true;
    }

    method RecordDeploymentHealthCheck(sample: HealthSample, now: int) returns (ok: bool)
      modifies this
      ensures ok <==> HealthAccepted(old(Table()), sample)
      ensures View() == RecordHealthSpec(old(View()), sample, now)
    {
      if sample.deploymentId !in plans {
        return false;
      }
      if plans[sample.deploymentId].node != sample.node {
        return false;
      }
      health := health + [sample];
      Record(RunnerActor, DeploymentHealth, Subject(DeploymentAggregate, sample.deploymentId), now);
      return true;
    }

    method EnqueueRunnerCommand(node: string, e: SignedRunnerCommand)
      modifies this`queues
      ensures View() == EnqueueSpec(old(View()), node, e)
    {
      if node !in queues {
        queues := queues[node := []];
      }
      queues := queues[node := queues[node] + [e]];
    }

    method NextRunnerCommand(node: string, last: nat) returns (handed: Option<SignedRunnerCommand>)
      modifies this`queues
      ensures View() == AfterPoll(old(View()), node, last)
      ensures handed == PollSpec(QueueOf(old(View()), node), last).handed
    {
      if node !in queues {
        return None;
      }
      var queue := queues[node];
      ghost var skipped := 0;
      while queue != [] && queue[0].command.sequence <= last
        invariant skipped <= StaleCount(queues[node], last)
        invariant queue == queues[node][skipped..]
        decreases |queue|
      {
        queue := queue[1..];
        skipped := skipped + 1;
      }
      if queue == [] {
        handed := None;
      } else {
        handed := Some(queue[0]);
        queue := queue[1..];
      }
      queues := queues[node := queue];
    }

    method RecordIdempotencyResponse(key: string, response: Response)
      modifies this`responses
      ensures View() == RecordResponseSpec(old(View()), key, response)
    {
      if key !in responses {
        responses := responses[key := response];
      }
    }
  }
}

/** What the audit log tells about the tables, and what single calls leave behind. */
module Audit {
  import opened Domain
  import opened Store
  import opened ControlPlane

  // ---------------------------------------------------------------------------
  // Every entry is true, and nothing happened without one
  // ---------------------------------------------------------------------------

  /** By whom, about what, and that it is in the tables. */
  ghost predicate EntryIsTrue(st: StoreState, e: AuditEvent) {
    && e.tenant == st.tenant
    && match e.action
       case ArtifactCreated =>
         e.actor == ControlPlaneActor && e.subject.kind == ArtifactAggregate && e.subject.id in st.artifacts.shas
       case DeploymentPlanned =>
         e.actor == Admin && e.subject.kind == DeploymentAggregate && e.subject.id in st.deployments.plans
       case DeploymentReported =>
         e.actor == RunnerActor && e.subject.kind == DeploymentAggregate && e.subject.id in st.deployments.snapshots
       case DeploymentHealth =>
         e.actor == RunnerActor && e.subject.kind == DeploymentAggregate && e.subject.id in st.deployments.plans
  }

  ghost predicate Tells(audit: seq<AuditEvent>, action: Action, id: string) {
    exists i :: 0 <= i < |audit| && audit[i].action == action && audit[i].subject.id == id
  }

  function Samples(audit: seq<AuditEvent>): nat {
    if audit == [] then 0
    else
      var last := audit[|audit|-1].action;
      Samples(audit[..|audit|-1]) + if last == DeploymentReported || last == DeploymentHealth then 1 else 0
  }

  ghost predicate AllTrue(st: StoreState) {
    forall i :: 0 <= i < |st.logs.audit| ==> EntryIsTrue(st, st.logs.audit[i])
  }

  ghost predicate AllTold(st: StoreState) {
    var audit, d := st.logs.audit, st.deployments;
    && (forall x :: x in st.artifacts.shas ==> Tells(audit, ArtifactCreated, x))
    && (forall x :: x in d.plans ==> Tells(audit, DeploymentPlanned, x))
    && (forall x :: x in d.snapshots ==> Tells(audit, DeploymentReported, x))
  }

  lemma TellsGrows(audit: seq<AuditEvent>, e: AuditEvent, action: Action, id: string)
    ensures Tells(audit + [e], action, id) <==> Tells(audit, action, id) || (e.action == action && e.subject.id == id)
  {
    var all := audit + [e];
    if i :| 0 <= i < |audit| && audit[i].action == action && audit[i].subject.id == id {
      assert all[i] == audit[i];
    }
    assert all[|audit|] == e;
  }

  /** The entry a call adds. */
  ghost predicate Adds(st: StoreState, st': StoreState, action: Action, id: string) {
    |st'.logs.audit| == |st.logs.audit| + 1 && st'.logs.audit[..|st.logs.audit|] == st.logs.audit
    && var e := st'.logs.audit[|st.logs.audit|];
       e.action == action && e.subject.id == id && EntryIsTrue(st', e)
  }

  lemma AddedTells(st: StoreState, st': StoreState, action: Action, id: string)
    requires Adds(st, st', action, id)
    ensures forall a, x :: Tells(st'.logs.audit, a, x) <==> Tells(st.logs.audit, a, x) || (a == action && x == id)
    ensures Samples(st'.logs.audit)
         == Samples(st.logs.audit) + if action == DeploymentReported || action == DeploymentHealth then 1 else 0
  {
    var audit, e := st.logs.audit, st'.logs.audit[|st.logs.audit|];
    assert st'.logs.audit == audit + [e] && (audit + [e])[..|audit|] == audit;
    forall a, x
      ensures Tells(st'.logs.audit, a, x) <==> Tells(audit, a, x) || (a == action && x == id)
    {
      TellsGrows(audit, e, a, x);
    }
  }

  lemma StillTrue(st: StoreState, st': StoreState, e: AuditEvent)
    requires Grows(st, st') && st'.tenant == st.tenant && EntryIsTrue(st, e)
    ensures EntryIsTrue(st', e)
  {
  }

  /** What a call does to the log. */
  ghost predicate LogStep(st: StoreState, st': StoreState) {
    st'.logs == st.logs || exists action, id :: Adds(st, st', action, id)
  }

  lemma TrueStep(st: StoreState, st': StoreState)
    requires Grows(st, st') && st'.tenant == st.tenant && LogStep(st, st') && AllTrue(st)
    ensures AllTrue(st')
  {
    forall i | 0 <= i < |st'.logs.audit|
      ensures EntryIsTrue(st', st'.logs.audit[i])
    {
      if i < |st.logs.audit| {
        assert st'.logs.audit[i] == st.logs.audit[i];
        StillTrue(st, st', st.logs.audit[i]);
      }
    }
  }

  ghost predicate Audited(st: StoreState) {
    AllTrue(st) && AllTold(st) && Samples(st.logs.audit) == |st.deployments.health|
  }

  lemma StepLogs(crypto: Crypto, st: StoreState, op: StoreOp)
    requires OpAllowed(st, op)
    ensures var st' := StoreStep(crypto, st, op);
            match op
            case BlobOp(x, sha, bytes, at) =>
              if crypto.sha256(bytes) == sha then Adds(st, st', ArtifactCreated, x) else st' == st
            case PlanOp(x, _, _) => Adds(st, st', DeploymentPlanned, x)
            case ResultOp(r, _) =>
              if r.deploymentId in st.deployments.plans then Adds(st, st', DeploymentReported, r.deploymentId)
              else st' == st
            case HealthOp(s, _) =>
              if s.deploymentId in st.deployments.plans && st.deployments.plans[s.deploymentId].node == s.node
              then Adds(st, st', DeploymentHealth, s.deploymentId) else st' == st
            case _ => st'.logs == st.logs && st'.artifacts == st.artifacts && st'.deployments == st.deployments
  {
  }

  lemma StepKeepsAudited(crypto: Crypto, st: StoreState, op: StoreOp)
    requires OpAllowed(st, op) && Audited(st)
    ensures Audited(StoreStep(crypto, st, op)) && StoreStep(crypto, st, op).tenant == st.tenant
  {
    var st' := StoreStep(crypto, st, op);
    StepLogs(crypto, st, op);
    StepGrows(crypto, st, op);
    if st'.logs != st.logs {
      var action, id :| Adds(st, st', action, id);
      AddedTells(st, st', action, id);
    }
    TrueStep(st, st');
  }

  /** After any calls: every entry is true of the tables and names the right actor and
      tenant; every artifact, plan and snapshot has its entry; and there are as many health
      samples as reports of results and of health. */
  lemma {:induction false} AuditTellsTheState(crypto: Crypto, tenant: string, ops: seq<StoreOp>)
    requires ValidOps(crypto, tenant, ops)
    ensures Audited(RunStore(crypto, tenant, ops)) && RunStore(crypto, tenant, ops).tenant == tenant
    decreases |ops|
  {
    if ops != [] {
      AuditTellsTheState(crypto, tenant, ops[..|ops|-1]);
      StepKeepsAudited(crypto, RunStore(crypto, tenant, ops[..|ops|-1]), ops[|ops|-1]);
    }
  }

  // ---------------------------------------------------------------------------
  // What calls leave behind, in values
  // ---------------------------------------------------------------------------

  /** A compile that is not a replay: the bytes can be read back under the artifact, and the
      deployment is planned and pending. */
  lemma CompileLeaves(crypto: Crypto, s: CpState, r: CompileRequest, config: string, previous: Option<string>,
                      stamp: Stamp)
    requires previous.Some? ==> previous.value in s.store.deployments.plans
    ensures var s' := CompileBody(crypto, s, r, config, previous, stamp);
            var id, st, st' := "dep-" + crypto.sha256(config).first12, s.store, s'.store;
            && ArtifactBytes(st'.artifacts, stamp.artifact) == Some(config)
            && id in st'.deployments.plans && st'.deployments.plans[id].node == r.node
            && st'.deployments.plans[id].profile == r.profile && st'.deployments.plans[id].artifact == stamp.artifact
            && st'.deployments.plans[id].createdAt == stamp.now
            && id in st'.deployments.statuses && st'.deployments.statuses[id] == Pending
  {
  }

  /** One command for the node, good for a minute, is at the end of its queue, and every other
      queue is as it was. */
  lemma CompileSends(crypto: Crypto, s: CpState, r: CompileRequest, config: string, previous: Option<string>,
                     stamp: Stamp, node: string)
    requires previous.Some? ==> previous.value in s.store.deployments.plans
    ensures var s' := CompileBody(crypto, s, r, config, previous, stamp);
            var sha := crypto.sha256(config);
            var number := if r.node in s.sequences then s.sequences[r.node] + 1 else 1;
            var command := RunnerCommand(r.node, number, stamp.nonce, stamp.now + 60,
                                         ApplyDeploymentPlan("dep-" + sha.first12, sha, config));
            && QueueOf(s'.store, node)
               == QueueOf(s.store, node)
                + (if node == r.node then [SignedRunnerCommand(command, stamp.signature)] else [])
            && r.node in s'.sequences && s'.sequences[r.node] == number
  {
  }

  /** The artifact by the control plane, then the plan by the administrator. */
  lemma CompileLogs(crypto: Crypto, s: CpState, r: CompileRequest, config: string, previous: Option<string>,
                    stamp: Stamp)
    requires previous.Some? ==> previous.value in s.store.deployments.plans
    ensures var s' := CompileBody(crypto, s, r, config, previous, stamp);
            var id, tenant := "dep-" + crypto.sha256(config).first12, s.store.tenant;
            s'.store.logs.audit
            == s.store.logs.audit
             + [AuditEvent(tenant, ControlPlaneActor, ArtifactCreated, Subject(ArtifactAggregate, stamp.artifact),
                           stamp.now),
                AuditEvent(tenant, Admin, DeploymentPlanned, Subject(DeploymentAggregate, id), stamp.now)]
  {
  }

  lemma CompileAnswers(crypto: Crypto, s: CpState, r: CompileRequest, config: string, previous: Option<string>,
                       stamp: Stamp)
    requires previous.Some? ==> previous.value in s.store.deployments.plans
    ensures var s' := CompileBody(crypto, s, r, config, previous, stamp);
            var answer, sha := ResponseFor(crypto, s', config), crypto.sha256(config);
            && answer.deploymentId == "dep-" + sha.first12 && answer.sha == sha
            && answer.auditCount == |s.store.logs.audit| + 2 && answer.outboxCount == |s.store.logs.outbox| + 2
  {
  }

  /** A result that is not refused: status, and a snapshot with the plan's node, profile and
      artifact and the reported status and digest. */
  lemma ResultLeaves(st: StoreState, r: DeploymentResult, now: int)
    ensures var d, d' := st.deployments, RecordResultSpec(st, r, now).deployments;
            if r.deploymentId in d.plans then
              var plan, snapshot := d.plans[r.deploymentId], d'.snapshots[r.deploymentId];
              && d'.statuses[r.deploymentId] == r.status && snapshot.status == r.status
              && snapshot.sha == r.artifactSha256
              && snapshot.node == plan.node && snapshot.profile == plan.profile && snapshot.artifact == plan.artifact
              && d'.plans == d.plans && d'.pointers == d.pointers
            else d' == d
  {
  }

  // ---------------------------------------------------------------------------
  // Which deployment a plan points back to
  // ---------------------------------------------------------------------------

  ghost predicate PlannedAt(ops: seq<StoreOp>, i: int, id: string) {
    0 <= i < |ops| && ops[i].PlanOp? && ops[i].id == id
  }

  ghost predicate LastPlannedAt(ops: seq<StoreOp>, i: int, id: string) {
    PlannedAt(ops, i, id) && forall j :: i < j < |ops| ==> !PlannedAt(ops, j, id)
  }

  lemma PlansStep(crypto: Crypto, st: StoreState, op: StoreOp)
    requires OpAllowed(st, op)
    ensures StoreStep(crypto, st, op).deployments.plans
         == if op.PlanOp? then st.deployments.plans[op.id := op.plan] else st.deployments.plans
  {
  }

  /** A plan record is that of the last call that planned its id. */
  lemma {:induction false} PlansAreTheLast(crypto: Crypto, tenant: string, ops: seq<StoreOp>, i: int, id: string)
    requires ValidOps(crypto, tenant, ops) && LastPlannedAt(ops, i, id)
    ensures id in RunStore(crypto, tenant, ops).deployments.plans
    ensures RunStore(crypto, tenant, ops).deployments.plans[id] == ops[i].plan
    decreases |ops|
  {
    var n := |ops| - 1;
    PlansStep(crypto, RunStore(crypto, tenant, ops[..n]), ops[n]);
    if i < n {
      assert !PlannedAt(ops, n, id);
      assert LastPlannedAt(ops[..n], i, id) by {
        forall j | i < j < n
          ensures !PlannedAt(ops[..n], j, id)
        {
          assert !PlannedAt(ops, j, id);
        }
      }
      PlansAreTheLast(crypto, tenant, ops[..n], i, id);
    }
  }

  /** Later plans are stamped later. */
  ghost predicate ClockRuns(ops: seq<StoreOp>) {
    forall i, j :: 0 <= i < j < |ops| && ops[i].PlanOp? && ops[j].PlanOp? ==>
      ops[i].plan.createdAt < ops[j].plan.createdAt
  }

  /** With a running clock, the deployment a plan points back to is the one planned last
      among those that count as succeeded on the node. */
  lemma {:induction false} PreviousIsTheLatest(crypto: Crypto, tenant: string, ops: seq<StoreOp>, node: string,
                                               previous: string, i: int, other: string, j: int)
    requires ValidOps(crypto, tenant, ops) && ClockRuns(ops)
    requires LastPlannedAt(ops, i, previous) && LastPlannedAt(ops, j, other)
    requires IsPrevious(RunStore(crypto, tenant, ops).deployments, node, Some(previous))
    requires SucceededOn(RunStore(crypto, tenant, ops).deployments, node, other)
    ensures j <= i
  {
    PlansAreTheLast(crypto, tenant, ops, i, previous);
    PlansAreTheLast(crypto, tenant, ops, j, other);
  }
}

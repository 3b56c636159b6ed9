/** One id planned for two nodes is exactly what lets the control plane sign a rollback to
    a release the runner does not hold. */
module SharedIds {
  import opened Domain
  import opened Runner
  import opened Store
  import opened ControlPlane
  import opened ControlLoop
  import opened ControlLoopInvariant
  import opened ControlLoopTheorems

  lemma ReachableStep(crypto: Crypto, w: World, step: Step)
    requires Reachable(crypto, w) && Enabled(crypto, w, step)
    ensures Reachable(crypto, Next(crypto, w, step))
  {
    var tenant, steps :| ValidRun(crypto, Initial(tenant), steps) && RunFrom(crypto, Initial(tenant), steps) == w;
    var more := steps + [step];
    assert more[..|more|-1] == steps && more[|more|-1] == step;
    assert ValidRun(crypto, Initial(tenant), more);
    assert RunFrom(crypto, Initial(tenant), more) == Next(crypto, w, step);
  }

  lemma ReachableStart(crypto: Crypto, tenant: string)
    ensures Reachable(crypto, Initial(tenant))
  {
    assert ValidRun(crypto, Initial(tenant), []);
    assert RunFrom(crypto, Initial(tenant), []) == Initial(tenant);
  }

  // ---------------------------------------------------------------------------
  // Stretches of a run
  // ---------------------------------------------------------------------------

  /** A compile call up to where it needs a sequence. */
  lemma PlanOnly(crypto: Crypto, w: World, h: nat, node: string, config: string, artifact: string,
                 previous: Option<string>, at: int)
    returns (w': World)
    requires Reachable(crypto, w) && h !in w.jobs && artifact !in w.store.artifacts.shas
    requires IsPrevious(w.store.deployments, node, previous)
    ensures Reachable(crypto, w')
    ensures w'.store.deployments
         == WithPlan(w.store.deployments, DeploymentIdOf(crypto.sha256(config)), Plan(node, "", artifact, at), previous)
    ensures w'.jobs == w.jobs[h := Job(CompileCall, NeedsSequence(node, ApplyKind(crypto, config)))]
    ensures w'.store.artifacts.shas == w.store.artifacts.shas[artifact := crypto.sha256(config)]
    ensures w'.runners == w.runners && w'.past.reports == w.past.reports
    ensures w'.past.planned == w.past.planned + {PlanEvent(DeploymentIdOf(crypto.sha256(config)), node, config)}
  {
    var step := StartCompile(h, node, "", config, artifact, at);
    ReachableStep(crypto, w, step);
    var w1 := Next(crypto, w, step);
    ReachableStep(crypto, w1, RecordPlan(h, previous, at));
    w' := Next(crypto, w1, RecordPlan(h, previous, at));
  }

  /** A compile call up to its signed command. */
  lemma PlanAndSign(crypto: Crypto, w: World, h: nat, node: string, config: string, artifact: string,
                    previous: Option<string>, at: int)
    returns (w': World, c: RunnerCommand)
    requires Reachable(crypto, w) && h !in w.jobs && artifact !in w.store.artifacts.shas
    requires IsPrevious(w.store.deployments, node, previous)
    ensures Reachable(crypto, w')
    ensures w'.store.deployments
         == WithPlan(w.store.deployments, DeploymentIdOf(crypto.sha256(config)), Plan(node, "", artifact, at), previous)
    ensures w'.jobs.Keys == w.jobs.Keys + {h} && forall g :: g in w.jobs ==> w'.jobs[g] == w.jobs[g]
    ensures w'.store.artifacts.shas == w.store.artifacts.shas[artifact := crypto.sha256(config)]
    ensures w'.runners == w.runners && w'.past.reports == w.past.reports && c in w'.past.signed
    ensures w'.past.planned == w.past.planned + {PlanEvent(DeploymentIdOf(crypto.sha256(config)), node, config)}
    ensures c == RunnerCommand(node, c.sequence, "", at + CommandTtl, ApplyKind(crypto, config)) && c.sequence > 0
  {
    var w1 := PlanOnly(crypto, w, h, node, config, artifact, previous, at);
    ReachableStep(crypto, w1, Allocate(h, "", at));
    c := NewCommand(w1.sequences, node, at, "", ApplyKind(crypto, config));
    w' := AfterAllocate(w1, h, "", at);
    assert w'.jobs == w1.jobs[h := Job(CompileCall, NeedsEnqueue(c))];
  }

  /** A runner with one release, which is active. */
  predicate ServesOnly(r: RunnerState, node: string, id: string, config: string) {
    r.nodeId == node && r.fs.active == Some(id) && r.fs.releases == map[id := config]
  }

  /** A new runner gets its first command, and the test passes. */
  lemma FirstApply(crypto: Crypto, w: World, c: RunnerCommand, config: string, at: int, signature: string)
    returns (w': World, report: Report)
    requires Reachable(crypto, w) && c in w.past.signed && crypto.verifies(c, signature) && c.nodeId !in w.runners
    requires c.sequence > 0 && at < c.expiresAt && c.kind == ApplyKind(crypto, config)
    ensures Reachable(crypto, w')
    ensures w'.store == w.store && w'.jobs == w.jobs && w.past.planned == w'.past.planned
    ensures report in w'.past.reports
    ensures report == Report(c.nodeId, DeploymentResult(c.kind.deploymentId, Succeeded, c.kind.artifactSha256))
    ensures forall n :: n != c.nodeId ==> (n in w'.runners <==> n in w.runners)
    ensures ServesOnly(RunnerOf(w', c.nodeId), c.nodeId, c.kind.deploymentId, config)
  {
    var step := RunnerReceives(c.nodeId, SignedRunnerCommand(c, signature), at, Oracles(true, true, true));
    ReachableStep(crypto, w, step);
    w' := Next(crypto, w, step);
    report := Report(c.nodeId, DeploymentResult(c.kind.deploymentId, Succeeded, c.kind.artifactSha256));
  }

  lemma Submit(crypto: Crypto, w: World, report: Report, at: int) returns (w': World)
    requires Reachable(crypto, w) && report in w.past.reports && report.result.deploymentId in w.store.deployments.plans
    ensures Reachable(crypto, w')
    ensures w'.store.deployments == WithResult(w.store.deployments, report.result, at)
    ensures w'.store.artifacts == w.store.artifacts && w'.jobs == w.jobs && w'.runners == w.runners && w'.past == w.past
  {
    ReachableStep(crypto, w, SubmitResult(report, at));
    w' := Next(crypto, w, SubmitResult(report, at));
  }

  /** A rollback call up to where it needs a sequence. */
  lemma ReadForRollback(crypto: Crypto, w: World, h: nat, id: string) returns (w': World, kind: CommandKind)
    requires Reachable(crypto, w) && h !in w.jobs && HasTarget(w, id)
    ensures Reachable(crypto, w') && w' == w.(jobs := w'.jobs)
    ensures h in w'.jobs && w'.jobs[h].stage == NeedsSequence(w.store.deployments.snapshots[id].node, kind)
    ensures kind.RollbackDeployment? && kind.rollbackTo == w.store.deployments.pointers[id].previousId.value
    ensures kind.artifactSha256 == w.store.artifacts.shas[w.store.deployments.pointers[id].previousArtifact.value]
  {
    BytesAreThere(crypto, w, id);
    var d, art := w.store.deployments, w.store.artifacts;
    ReachableStep(crypto, w, StartRollback(h, id));
    var w1 := Next(crypto, w, StartRollback(h, id));
    ReachableStep(crypto, w1, ReadPointer(h));
    var w2 := WithStage(w1, h, AfterPointer(d, id));
    ReachableStep(crypto, w2, ReadSnapshot(h));
    var w3 := WithStage(w2, h, AfterSnapshot(d, w2.jobs[h].stage));
    ReachableStep(crypto, w3, ReadBytes(h));
    w' := WithStage(w3, h, AfterBytes(crypto, art, w3.jobs[h].stage));
    kind := w'.jobs[h].stage.kind;
  }

  /** The id points to an earlier deployment and has reported a result. */
  ghost predicate HasTarget(w: World, id: string) {
    var d := w.store.deployments;
    && id in d.pointers && d.pointers[id].previousId.Some? && d.pointers[id].previousArtifact.Some? && id in d.snapshots
    && d.pointers[id].previousArtifact.value in w.store.artifacts.shas
  }

  lemma BytesAreThere(crypto: Crypto, w: World, id: string)
    requires Reachable(crypto, w) && HasTarget(w, id)
    ensures var a := w.store.deployments.pointers[id].previousArtifact.value;
            && ArtifactBytes(w.store.artifacts, a).Some?
            && crypto.sha256(ArtifactBytes(w.store.artifacts, a).value) == w.store.artifacts.shas[a]
  {
    ReachableInv(crypto, w);
  }

  /** A rollback call up to its signed command. */
  lemma SignRollback(crypto: Crypto, w: World, h: nat, id: string) returns (w': World, c: RunnerCommand)
    requires Reachable(crypto, w) && h !in w.jobs && HasTarget(w, id)
    ensures Reachable(crypto, w') && w'.runners == w.runners && w'.past.planned == w.past.planned
    ensures c in w'.past.signed && c.kind.RollbackDeployment?
    ensures c.nodeId == w.store.deployments.snapshots[id].node
    ensures c.kind.rollbackTo == w.store.deployments.pointers[id].previousId.value && c.sequence > 0 && c.expiresAt > 0
    ensures c.kind.artifactSha256 == w.store.artifacts.shas[w.store.deployments.pointers[id].previousArtifact.value]
  {
    var w1, kind := ReadForRollback(crypto, w, h, id);
    ReachableStep(crypto, w1, Allocate(h, "", 0));
    w' := Next(crypto, w1, Allocate(h, "", 0));
    c := NewCommand(w1.sequences, w1.jobs[h].stage.node, 0, "", kind);
  }

  // ---------------------------------------------------------------------------
  // The run
  // ---------------------------------------------------------------------------

  const NoDeployments := Deployments(map[], map[], map[], map[], [])

  /** The tables after an id is planned for one node, planned again for another, and then
      reported: the success counts for the second node. */
  lemma TablesOfTwoPlans(id: string, p: Plan, q: Plan, r: DeploymentResult)
    requires r.deploymentId == id && r.status == Succeeded && p.node != q.node
    ensures IsPrevious(NoDeployments, p.node, None)
    ensures var d := WithPlan(NoDeployments, id, p, None);
            && IsPrevious(d, q.node, None)
            && var e := WithPlan(d, id, q, None);
               && id in e.plans
               && var f := WithResult(e, r, 0);
                  && f.plans == map[id := q] && IsPrevious(f, q.node, Some(id))
                  && id in f.snapshots && f.snapshots[id].node == q.node
  {
  }

  /** Planned once more, the id points at itself. */
  lemma TablesOfThirdPlan(d: Deployments, id: string, plan: Plan)
    requires id in d.plans && id in d.snapshots
    ensures var e := WithPlan(d, id, plan, Some(id));
            && id in e.pointers && e.snapshots == d.snapshots
            && e.pointers[id].previousId == Some(id) && e.pointers[id].previousArtifact == Some(d.plans[id].artifact)
  {
  }

  /** Every command has a signature that verifies. */
  ghost predicate CanSign(crypto: Crypto) {
    forall c :: HasSignature(crypto, c)
  }

  ghost predicate HasSignature(crypto: Crypto, c: RunnerCommand) {
    exists signature :: crypto.verifies(c, signature)
  }

  /** The event recorded when a configuration is planned for a node. */
  function EventOf(crypto: Crypto, node: string, config: string): PlanEvent {
    PlanEvent(DeploymentIdOf(crypto.sha256(config)), node, config)
  }

  /** Node `a` deploys a configuration, and its success report is under way. */
  lemma DeployedOnFirstNode(crypto: Crypto, a: string, config: string, x: string) returns (w: World, report: Report)
    requires CanSign(crypto)
    ensures Reachable(crypto, w) && w.jobs.Keys == {0} && w.runners.Keys <= {a}
    ensures w.store.artifacts.shas == map[x := crypto.sha256(config)]
    ensures ServesOnly(RunnerOf(w, a), a, DeploymentIdOf(crypto.sha256(config)), config)
    ensures w.store.deployments
         == WithPlan(NoDeployments, DeploymentIdOf(crypto.sha256(config)), Plan(a, "", x, 0), None)
    ensures report in w.past.reports && w.past.planned == {EventOf(crypto, a, config)}
    ensures report.result == DeploymentResult(DeploymentIdOf(crypto.sha256(config)), Succeeded, crypto.sha256(config))
  {
    ReachableStart(crypto, "");
    var w1, c1 := PlanAndSign(crypto, Initial(""), 0, a, config, x, None, 0);
    assert HasSignature(crypto, c1);
    var signature :| crypto.verifies(c1, signature);
    w, report := FirstApply(crypto, w1, c1, config, 0, signature);
  }

  /** The id is planned for node `b`, by the same bytes or by others with the same prefix. */
  lemma PlannedOnSecondNode(crypto: Crypto, a: string, first: string, b: string, second: string, x: string, y: string)
    returns (w: World, report: Report)
    requires CanSign(crypto) && a != b && x != y
    requires DeploymentIdOf(crypto.sha256(first)) == DeploymentIdOf(crypto.sha256(second))
    ensures Reachable(crypto, w) && w.jobs.Keys == {0, 1} && b !in w.runners && w.store.artifacts.shas.Keys == {x, y}
    ensures w.past.planned == {EventOf(crypto, a, first), EventOf(crypto, b, second)} && report in w.past.reports
    ensures var d, id := w.store.deployments, DeploymentIdOf(crypto.sha256(second));
            d == WithPlan(WithPlan(NoDeployments, id, Plan(a, "", x, 0), None), id, Plan(b, "", y, 0), None)
    ensures report.result == DeploymentResult(DeploymentIdOf(crypto.sha256(second)), Succeeded, crypto.sha256(first))
  {
    var w1;
    w1, report := DeployedOnFirstNode(crypto, a, first, x);
    TablesOfTwoPlans(report.result.deploymentId, Plan(a, "", x, 0), Plan(b, "", y, 0), report.result);
    var c;
    w, c := PlanAndSign(crypto, w1, 1, b, second, y, None, 0);
  }

  /** Only then does a's report arrive, and counts for b. */
  lemma SuccessOnTheWrongNode(crypto: Crypto, a: string, first: string, b: string, second: string, x: string, y: string)
    returns (w: World)
    requires CanSign(crypto) && a != b && x != y
    requires DeploymentIdOf(crypto.sha256(first)) == DeploymentIdOf(crypto.sha256(second))
    ensures Reachable(crypto, w) && w.jobs.Keys == {0, 1} && b !in w.runners && w.store.artifacts.shas.Keys == {x, y}
    ensures w.past.planned == {EventOf(crypto, a, first), EventOf(crypto, b, second)}
    ensures var d, id := w.store.deployments, DeploymentIdOf(crypto.sha256(second));
            && d.plans == map[id := Plan(b, "", y, 0)] && IsPrevious(d, b, Some(id))
            && id in d.snapshots && d.snapshots[id].node == b
  {
    var w1, report := PlannedOnSecondNode(crypto, a, first, b, second, x, y);
    TablesOfTwoPlans(report.result.deploymentId, Plan(a, "", x, 0), Plan(b, "", y, 0), report.result);
    w := Submit(crypto, w1, report, 0);
  }

  /** Node `b` is planned for once more: the id then points at itself. */
  lemma PointsAtItself(crypto: Crypto, w: World, b: string, config: string, z: string) returns (w': World)
    requires Reachable(crypto, w) && w.jobs.Keys == {0, 1} && b !in w.runners && z !in w.store.artifacts.shas
    requires var d, id := w.store.deployments, DeploymentIdOf(crypto.sha256(config));
             && IsPrevious(d, b, Some(id)) && d.plans[id].artifact in w.store.artifacts.shas
             && id in d.snapshots && d.snapshots[id].node == b
    ensures Reachable(crypto, w') && 3 !in w'.jobs && b !in w'.runners
    ensures w'.past.planned == w.past.planned + {EventOf(crypto, b, config)}
    ensures var d, id := w'.store.deployments, DeploymentIdOf(crypto.sha256(config));
            HasTarget(w', id) && d.snapshots[id].node == b && d.pointers[id].previousId == Some(id)
  {
    var id, d := DeploymentIdOf(crypto.sha256(config)), w.store.deployments;
    TablesOfThirdPlan(d, id, Plan(b, "", z, 0));
    var c;
    w', c := PlanAndSign(crypto, w, 2, b, config, z, Some(id), 0);
  }

  /** And it is told to roll back to what it never had. */
  lemma RollbackToAReleaseNeverHeld(crypto: Crypto, a: string, first: string, b: string, second: string,
                                    x: string, y: string, z: string)
    returns (w: World, c: RunnerCommand)
    requires CanSign(crypto) && a != b && x != y && z != x && z != y
    requires DeploymentIdOf(crypto.sha256(first)) == DeploymentIdOf(crypto.sha256(second))
    ensures Reachable(crypto, w) && w.past.planned == {EventOf(crypto, a, first), EventOf(crypto, b, second)}
    ensures c in w.past.signed && c.kind.RollbackDeployment? && !Lands(w, c)
  {
    var w1 := SuccessOnTheWrongNode(crypto, a, first, b, second, x, y);
    var w2 := PointsAtItself(crypto, w1, b, second, z);
    w, c := SignRollback(crypto, w2, 3, DeploymentIdOf(crypto.sha256(second)));
  }

  // ---------------------------------------------------------------------------
  // The exact condition
  // ---------------------------------------------------------------------------

  /** The command's target is among the releases of its node's runner. */
  ghost predicate Lands(w: World, c: RunnerCommand) {
    c.kind.RollbackDeployment? ==> c.kind.rollbackTo in RunnerOf(w, c.nodeId).fs.releases
  }

  ghost predicate TargetsExist(w: World) {
    forall c :: c in w.past.signed ==> Lands(w, c)
  }

  /** Ids are made from contents, as the control plane makes them. */
  ghost predicate ContentIds(crypto: Crypto, planned: set<PlanEvent>) {
    forall e :: e in planned ==> e.id == DeploymentIdOf(crypto.sha256(e.config))
  }

  /** Rollbacks find their targets in every run that plans no more than this. */
  ghost predicate AlwaysLands(crypto: Crypto, planned: set<PlanEvent>) {
    forall w :: Reachable(crypto, w) && w.past.planned <= planned ==> TargetsExist(w)
  }

  /** Which plans are harmless: rollbacks find their targets in every run that plans no
      more than this, whatever else happens in it, if and only if no id among them is for
      two nodes. */
  lemma TargetsExistIff(crypto: Crypto, planned: set<PlanEvent>)
    requires CanSign(crypto) && ContentIds(crypto, planned)
    ensures AlwaysLands(crypto, planned) <==> OneNode(planned)
  {
    if OneNode(planned) {
      forall w, c | Reachable(crypto, w) && w.past.planned <= planned && c in w.past.signed
        ensures Lands(w, c)
      {
        if c.kind.RollbackDeployment? {
          RollbackTargetsExist(crypto, w, c);
        }
      }
    } else {
      var e, f :| e in planned && f in planned && e.id == f.id && e.node != f.node;
      var w, c := RollbackToAReleaseNeverHeld(crypto, e.node, e.config, f.node, f.config, "1", "2", "3");
      assert e == EventOf(crypto, e.node, e.config) && f == EventOf(crypto, f.node, f.config);
      assert w.past.planned <= planned && !Lands(w, c);
    }
  }
}

/** One id given to two configurations of a node is exactly what lets a failed deployment
    change what is served, and a rollback restore the wrong bytes. */
module Collisions {
  import opened Domain
  import opened Runner
  import opened Store
  import opened ControlPlane
  import opened ControlLoop
  import opened ControlLoopInvariant
  import opened ControlLoopTheorems
  import opened SharedIds

  // ---------------------------------------------------------------------------
  // What a step promises
  // ---------------------------------------------------------------------------

  function ReactionTo(crypto: Crypto, w: World, step: Step): Reaction
    requires step.RunnerReceives?
  {
    ApplySpec(crypto, RunnerOf(w, step.node), step.envelope, step.at, step.oracles)
  }

  predicate Ends(x: Reaction, status: DeploymentStatus) {
    x.report.Some? && x.report.value.status == status
  }

  /** An apply that ends other than Succeeded leaves what is served unchanged. */
  ghost predicate KeepsServing(crypto: Crypto, w: World, step: Step) {
    step.RunnerReceives? && step.envelope.command.kind.ApplyDeploymentPlan? ==>
      var x := ReactionTo(crypto, w, step);
      x.report.Some? && !Ends(x, Succeeded) ==> Served(x.state.fs) == Served(RunnerOf(w, step.node).fs)
  }

  /** A rollback that ends as RolledBack serves bytes that hash to the command's digest. */
  ghost predicate Restores(crypto: Crypto, w: World, step: Step) {
    step.RunnerReceives? && step.envelope.command.kind.RollbackDeployment? ==>
      var x := ReactionTo(crypto, w, step);
      Ends(x, RolledBack) ==>
        Served(x.state.fs).Some? && crypto.sha256(Served(x.state.fs).value) == step.envelope.command.kind.artifactSha256
  }

  ghost predicate AlwaysKeepsServing(crypto: Crypto, planned: set<PlanEvent>) {
    forall w, step :: Reachable(crypto, w) && w.past.planned <= planned && Enabled(crypto, w, step) ==>
      KeepsServing(crypto, w, step)
  }

  ghost predicate AlwaysRestores(crypto: Crypto, planned: set<PlanEvent>) {
    forall w, step :: Reachable(crypto, w) && w.past.planned <= planned && Enabled(crypto, w, step) ==>
      Restores(crypto, w, step)
  }

  // ---------------------------------------------------------------------------
  // Stretches of a run
  // ---------------------------------------------------------------------------

  /** A runner about to take any genuine command. */
  ghost predicate Rested(r: RunnerState, node: string, reload: bool) {
    r.nodeId == node && r.lastSequence == 0 && r.seenNonces == {} && r.hasReload == reload && !r.hasHealth
  }

  lemma Restart(crypto: Crypto, w: World, node: string, reload: bool) returns (w': World)
    requires Reachable(crypto, w) && RunnerOf(w, node).nodeId == node
    ensures Reachable(crypto, w') && Rested(RunnerOf(w', node), node, reload)
    ensures RunnerOf(w', node).fs == RunnerOf(w, node).fs
    ensures w'.store == w.store && w'.jobs == w.jobs && w'.past == w.past
  {
    ReachableStep(crypto, w, RunnerRestarts(node, reload, false));
    w' := Next(crypto, w, RunnerRestarts(node, reload, false));
  }

  /** What a rested runner does with an apply command that passes the test. */
  lemma RestedApply(crypto: Crypto, r: RunnerState, e: SignedRunnerCommand, at: int, reload: bool)
    requires Rested(r, e.command.nodeId, r.hasReload) && crypto.verifies(e.command, e.signatureHex)
    requires e.command.sequence > 0 && at < e.command.expiresAt && e.command.kind.ApplyDeploymentPlan?
    ensures var x, k := ApplySpec(crypto, r, e, at, Oracles(true, reload, true)), e.command.kind;
            && x.report == Some(DeploymentResult(k.deploymentId, x.report.value.status, k.artifactSha256))
            && (x.report.value.status == Succeeded <==> !r.hasReload || reload)
            && x.state.nodeId == r.nodeId
            && x.state.fs.releases == r.fs.releases[k.deploymentId := k.config]
            && x.state.fs.active == if !r.hasReload || reload then Some(k.deploymentId) else r.fs.active
  {
  }

  lemma RestedRollback(crypto: Crypto, r: RunnerState, e: SignedRunnerCommand, at: int)
    requires Rested(r, e.command.nodeId, r.hasReload) && crypto.verifies(e.command, e.signatureHex)
    requires e.command.sequence > 0 && at < e.command.expiresAt && e.command.kind.RollbackDeployment?
    requires e.command.kind.rollbackTo in r.fs.releases
    ensures var x, k := ApplySpec(crypto, r, e, at, Oracles(true, true, true)), e.command.kind;
            Ends(x, RolledBack) && Served(x.state.fs) == Some(r.fs.releases[k.rollbackTo])
  {
  }

  /** One node serves the first configuration; its id has been planned again with the
      second one, whose command is signed. */
  ghost predicate Colliding(crypto: Crypto, w: World, a: string, first: string, second: string, c: RunnerCommand) {
    var id, d := DeploymentIdOf(crypto.sha256(first)), w.store.deployments;
    && Reachable(crypto, w) && ServesOnly(RunnerOf(w, a), a, id, first)
    && w.past.planned == {EventOf(crypto, a, first), EventOf(crypto, a, second)}
    && c in w.past.signed && c.nodeId == a && c.sequence > 0 && c.expiresAt > 0 && c.kind == ApplyKind(crypto, second)
    && 2 !in w.jobs && HasTarget(w, id) && d.snapshots[id].node == a && d.pointers[id].previousId == Some(id)
    && w.store.artifacts.shas[d.pointers[id].previousArtifact.value] == crypto.sha256(first)
  }

  lemma TablesOfReplan(id: string, p: Plan, q: Plan, r: DeploymentResult)
    requires r.deploymentId == id && r.status == Succeeded && p.node == q.node
    ensures IsPrevious(NoDeployments, p.node, None)
    ensures var d := WithPlan(NoDeployments, id, p, None);
            && id in d.plans
            && var e := WithResult(d, r, 0);
               && e.plans == map[id := p] && IsPrevious(e, p.node, Some(id))
               && var f := WithPlan(e, id, q, Some(id));
                  && id in f.pointers && id in f.snapshots && f.snapshots[id].node == p.node
                  && f.pointers[id].previousId == Some(id) && f.pointers[id].previousArtifact == Some(p.artifact)
  {
  }

  lemma Succeed(crypto: Crypto, a: string, first: string, x: string) returns (w: World)
    requires CanSign(crypto)
    ensures Reachable(crypto, w) && w.jobs.Keys == {0} && w.past.planned == {EventOf(crypto, a, first)}
    ensures w.store.artifacts.shas == map[x := crypto.sha256(first)]
    ensures ServesOnly(RunnerOf(w, a), a, DeploymentIdOf(crypto.sha256(first)), first) && w.runners.Keys <= {a}
    ensures var id := DeploymentIdOf(crypto.sha256(first));
            w.store.deployments == WithResult(WithPlan(NoDeployments, id, Plan(a, "", x, 0), None),
                                              DeploymentResult(id, Succeeded, crypto.sha256(first)), 0)
  {
    var w1, report := DeployedOnFirstNode(crypto, a, first, x);
    w := Submit(crypto, w1, report, 0);
  }

  lemma Collide(crypto: Crypto, a: string, first: string, second: string, x: string, y: string)
    returns (w: World, c: RunnerCommand)
    requires CanSign(crypto) && x != y && DeploymentIdOf(crypto.sha256(first)) == DeploymentIdOf(crypto.sha256(second))
    ensures Colliding(crypto, w, a, first, second, c)
  {
    var id := DeploymentIdOf(crypto.sha256(first));
    var w1 := Succeed(crypto, a, first, x);
    TablesOfReplan(id, Plan(a, "", x, 0), Plan(a, "", y, 0), DeploymentResult(id, Succeeded, crypto.sha256(first)));
    w, c := PlanAndSign(crypto, w1, 1, a, second, y, Some(id), 0);
  }

  // ---------------------------------------------------------------------------
  // The two failures
  // ---------------------------------------------------------------------------

  /** The second configuration fails to reload, and the node serves it all the same. */
  lemma FailureReplacesServed(crypto: Crypto, w: World, a: string, first: string, second: string, c: RunnerCommand)
    returns (w': World, step: Step)
    requires CanSign(crypto) && Colliding(crypto, w, a, first, second, c) && first != second
    requires DeploymentIdOf(crypto.sha256(first)) == DeploymentIdOf(crypto.sha256(second))
    ensures Reachable(crypto, w') && w'.past.planned == w.past.planned && Enabled(crypto, w', step)
    ensures !KeepsServing(crypto, w', step)
  {
    w' := Restart(crypto, w, a, true);
    assert HasSignature(crypto, c);
    var signature :| crypto.verifies(c, signature);
    var e := SignedRunnerCommand(c, signature);
    step := RunnerReceives(a, e, 0, Oracles(true, false, true));
    RestedApply(crypto, RunnerOf(w', a), e, 0, false);
  }

  /** A node told to roll back to a release that does not hash to the command's digest. */
  lemma TakeRollback(crypto: Crypto, w: World, node: string, c: RunnerCommand, config: string)
    returns (w': World, step: Step)
    requires CanSign(crypto) && Reachable(crypto, w) && RunnerOf(w, node).nodeId == node
    requires c in w.past.signed && c.nodeId == node && c.sequence > 0 && c.expiresAt > 0 && c.kind.RollbackDeployment?
    requires var releases := RunnerOf(w, node).fs.releases;
             c.kind.rollbackTo in releases && releases[c.kind.rollbackTo] == config
    requires crypto.sha256(config) != c.kind.artifactSha256
    ensures Reachable(crypto, w') && w'.past.planned == w.past.planned && Enabled(crypto, w', step)
    ensures !Restores(crypto, w', step)
  {
    w' := Restart(crypto, w, node, false);
    assert HasSignature(crypto, c);
    var signature :| crypto.verifies(c, signature);
    var e := SignedRunnerCommand(c, signature);
    step := RunnerReceives(node, e, 0, Oracles(true, true, true));
    RestedRollback(crypto, RunnerOf(w', node), e, 0);
  }

  /** The second configuration is applied, and is what a rollback to the first restores. */
  lemma RollbackRestoresOthers(crypto: Crypto, w: World, a: string, first: string, second: string, c: RunnerCommand)
    returns (w': World, step: Step)
    requires CanSign(crypto) && Colliding(crypto, w, a, first, second, c)
    requires DeploymentIdOf(crypto.sha256(first)) == DeploymentIdOf(crypto.sha256(second))
    requires crypto.sha256(first) != crypto.sha256(second)
    ensures Reachable(crypto, w') && w'.past.planned == w.past.planned && Enabled(crypto, w', step)
    ensures !Restores(crypto, w', step)
  {
    var id := DeploymentIdOf(crypto.sha256(first));
    var w1 := ApplySecond(crypto, w, a, id, second, c);
    var w2, back := SignRollback(crypto, w1, 2, id);
    w', step := TakeRollback(crypto, w2, a, back, second);
  }

  lemma ApplySecond(crypto: Crypto, w: World, a: string, id: string, second: string, c: RunnerCommand)
    returns (w': World)
    requires CanSign(crypto) && Reachable(crypto, w) && RunnerOf(w, a).nodeId == a && c in w.past.signed
    requires c.nodeId == a && c.sequence > 0 && c.expiresAt > 0 && c.kind == ApplyKind(crypto, second)
    requires id == DeploymentIdOf(crypto.sha256(second))
    ensures Reachable(crypto, w') && w'.store == w.store && w'.jobs == w.jobs && w'.past.planned == w.past.planned
    ensures RunnerOf(w', a).nodeId == a && id in RunnerOf(w', a).fs.releases
    ensures RunnerOf(w', a).fs.releases[id] == second
  {
    var w1 := Restart(crypto, w, a, false);
    assert HasSignature(crypto, c);
    var signature :| crypto.verifies(c, signature);
    var e := SignedRunnerCommand(c, signature);
    var step := RunnerReceives(a, e, 0, Oracles(true, true, true));
    RestedApply(crypto, RunnerOf(w1, a), e, 0, true);
    ReachableStep(crypto, w1, step);
    w' := Next(crypto, w1, step);
  }

  // ---------------------------------------------------------------------------
  // The second failure again, with the two configurations on two nodes
  // ---------------------------------------------------------------------------

  /** A rollback handler has read its pointer. */
  ghost predicate HasRead(w: World, h: nat, id: string, artifact: string) {
    h in w.jobs && w.jobs[h] == Job(RollbackCall, NeedsSnapshot(id, id, artifact))
  }

  lemma ReadPointerOnly(crypto: Crypto, w: World, h: nat, id: string, artifact: string) returns (w': World)
    requires Reachable(crypto, w) && h !in w.jobs && id in w.store.deployments.pointers
    requires var p := w.store.deployments.pointers[id]; p.previousId == Some(id) && p.previousArtifact == Some(artifact)
    ensures Reachable(crypto, w') && HasRead(w', h, id, artifact) && w' == w.(jobs := w'.jobs)
    ensures w'.jobs.Keys == w.jobs.Keys + {h}
  {
    ReachableStep(crypto, w, StartRollback(h, id));
    var w1 := Next(crypto, w, StartRollback(h, id));
    ReachableStep(crypto, w1, ReadPointer(h));
    w' := WithStage(w1, h, AfterPointer(w.store.deployments, id));
  }

  lemma BytesOf(crypto: Crypto, w: World, artifact: string)
    requires Reachable(crypto, w) && artifact in w.store.artifacts.shas
    ensures ArtifactBytes(w.store.artifacts, artifact).Some?
    ensures crypto.sha256(ArtifactBytes(w.store.artifacts, artifact).value) == w.store.artifacts.shas[artifact]
  {
    ReachableInv(crypto, w);
  }

  lemma ReadTheRest(crypto: Crypto, w: World, h: nat, id: string, artifact: string) returns (w': World)
    requires Reachable(crypto, w) && HasRead(w, h, id, artifact)
    requires id in w.store.deployments.snapshots && artifact in w.store.artifacts.shas
    ensures Reachable(crypto, w') && w' == w.(jobs := w'.jobs) && h in w'.jobs
    ensures w'.jobs[h].stage == NeedsSequence(w.store.deployments.snapshots[id].node,
                                              RollbackDeployment(id, id, w.store.artifacts.shas[artifact]))
  {
    BytesOf(crypto, w, artifact);
    ReachableStep(crypto, w, ReadSnapshot(h));
    var w1 := WithStage(w, h, AfterSnapshot(w.store.deployments, w.jobs[h].stage));
    ReachableStep(crypto, w1, ReadBytes(h));
    w' := WithStage(w1, h, AfterBytes(crypto, w.store.artifacts, w1.jobs[h].stage));
  }

  lemma FinishRollback(crypto: Crypto, w: World, h: nat, id: string, artifact: string)
    returns (w': World, c: RunnerCommand)
    requires Reachable(crypto, w) && HasRead(w, h, id, artifact)
    requires id in w.store.deployments.snapshots && artifact in w.store.artifacts.shas
    ensures Reachable(crypto, w') && w'.runners == w.runners && w'.past.planned == w.past.planned
    ensures c in w'.past.signed && c.nodeId == w.store.deployments.snapshots[id].node
    ensures c.kind == RollbackDeployment(id, id, w.store.artifacts.shas[artifact]) && c.sequence > 0 && c.expiresAt > 0
  {
    var w1 := ReadTheRest(crypto, w, h, id, artifact);
    var s := w1.jobs[h].stage;
    ReachableStep(crypto, w1, Allocate(h, "", 0));
    w' := Next(crypto, w1, Allocate(h, "", 0));
    c := NewCommand(w1.sequences, s.node, 0, "", s.kind);
  }

  /** Node `a` has succeeded, and its id is planned for it again. */
  lemma Replanned(crypto: Crypto, a: string, first: string, x: string, y: string) returns (w: World)
    requires CanSign(crypto) && x != y
    ensures Reachable(crypto, w) && w.jobs.Keys == {0, 1} && w.runners.Keys <= {a}
    ensures w.past.planned == {EventOf(crypto, a, first)}
    ensures w.store.artifacts.shas == map[x := crypto.sha256(first), y := crypto.sha256(first)]
    ensures var d, id := w.store.deployments, DeploymentIdOf(crypto.sha256(first));
            && d.plans == map[id := Plan(a, "", y, 0)] && id in d.pointers
            && d.pointers[id].previousId == Some(id) && d.pointers[id].previousArtifact == Some(x)
  {
    var id := DeploymentIdOf(crypto.sha256(first));
    var w1 := Succeed(crypto, a, first, x);
    TablesOfReplan(id, Plan(a, "", x, 0), Plan(a, "", y, 0), DeploymentResult(id, Succeeded, crypto.sha256(first)));
    var c;
    w, c := PlanAndSign(crypto, w1, 1, a, first, y, Some(id), 0);
  }

  /** A rollback handler reads the pointer to the first configuration. */
  lemma PointerIsRead(crypto: Crypto, a: string, first: string, x: string, y: string) returns (w: World)
    requires CanSign(crypto) && x != y
    ensures Reachable(crypto, w) && w.jobs.Keys == {0, 1, 2} && w.runners.Keys <= {a}
    ensures HasRead(w, 2, DeploymentIdOf(crypto.sha256(first)), x) && w.past.planned == {EventOf(crypto, a, first)}
    ensures w.store.artifacts.shas == map[x := crypto.sha256(first), y := crypto.sha256(first)]
    ensures w.store.deployments.plans == map[DeploymentIdOf(crypto.sha256(first)) := Plan(a, "", y, 0)]
  {
    var w1 := Replanned(crypto, a, first, x, y);
    w := ReadPointerOnly(crypto, w1, 2, DeploymentIdOf(crypto.sha256(first)), x);
  }

  lemma NothingOn(d: Deployments, id: string, p: Plan, q: Plan)
    requires d.plans == map[id := p] && p.node != q.node
    ensures IsPrevious(d, q.node, None) && id in WithPlan(d, id, q, None).plans
  {
  }

  /** Meanwhile the other configuration is planned on node `b`. */
  lemma OtherNodePlans(crypto: Crypto, w: World, b: string, second: string, z: string, p: Plan)
    returns (w': World, c: RunnerCommand)
    requires Reachable(crypto, w) && w.jobs.Keys == {0, 1, 2} && z !in w.store.artifacts.shas && p.node != b
    requires w.store.deployments.plans == map[DeploymentIdOf(crypto.sha256(second)) := p]
    ensures Reachable(crypto, w') && 2 in w'.jobs && w'.jobs[2] == w.jobs[2] && w'.runners == w.runners
    ensures w'.store.artifacts.shas == w.store.artifacts.shas[z := crypto.sha256(second)]
    ensures w'.past.planned == w.past.planned + {EventOf(crypto, b, second)}
    ensures w'.store.deployments.plans == map[DeploymentIdOf(crypto.sha256(second)) := Plan(b, "", z, 0)]
    ensures c in w'.past.signed && c.nodeId == b && c.sequence > 0 && c.expiresAt > 0
        && c.kind == ApplyKind(crypto, second)
  {
    NothingOn(w.store.deployments, DeploymentIdOf(crypto.sha256(second)), p, Plan(b, "", z, 0));
    w', c := PlanAndSign(crypto, w, 3, b, second, z, None, 0);
  }

  lemma NewNodeApplies(crypto: Crypto, w: World, c: RunnerCommand, config: string) returns (w': World, report: Report)
    requires CanSign(crypto) && Reachable(crypto, w) && c in w.past.signed && c.nodeId !in w.runners
    requires c.sequence > 0 && c.expiresAt > 0 && c.kind == ApplyKind(crypto, config)
    ensures Reachable(crypto, w') && w'.store == w.store && w'.jobs == w.jobs && w'.past.planned == w.past.planned
    ensures ServesOnly(RunnerOf(w', c.nodeId), c.nodeId, DeploymentIdOf(crypto.sha256(config)), config)
    ensures report in w'.past.reports && report.result.deploymentId == DeploymentIdOf(crypto.sha256(config))
  {
    assert HasSignature(crypto, c);
    var signature :| crypto.verifies(c, signature);
    w', report := FirstApply(crypto, w, c, config, 0, signature);
  }

  /** It is applied there, and the report moves the snapshot of the id to b. */
  lemma OtherNodeReports(crypto: Crypto, w: World, b: string, second: string, z: string, p: Plan) returns (w': World)
    requires CanSign(crypto) && Reachable(crypto, w) && w.jobs.Keys == {0, 1, 2} && b !in w.runners
    requires z !in w.store.artifacts.shas && p.node != b
    requires w.store.deployments.plans == map[DeploymentIdOf(crypto.sha256(second)) := p]
    ensures Reachable(crypto, w') && 2 in w'.jobs && w'.jobs[2] == w.jobs[2]
    ensures w'.store.artifacts.shas == w.store.artifacts.shas[z := crypto.sha256(second)]
    ensures w'.past.planned == w.past.planned + {EventOf(crypto, b, second)}
    ensures ServesOnly(RunnerOf(w', b), b, DeploymentIdOf(crypto.sha256(second)), second)
    ensures var d, id := w'.store.deployments, DeploymentIdOf(crypto.sha256(second));
            id in d.snapshots && d.snapshots[id].node == b
  {
    var w1, c := OtherNodePlans(crypto, w, b, second, z, p);
    var w2, report := NewNodeApplies(crypto, w1, c, second);
    w' := Submit(crypto, w2, report, 0);
  }

  /** The handler goes on, reads the snapshot of b and the bytes of a, and signs a rollback
      that b ends as RolledBack while it serves other bytes. */
  lemma RollbackRestoresAcross(crypto: Crypto, a: string, first: string, b: string, second: string,
                               x: string, y: string, z: string)
    returns (w: World, step: Step)
    requires CanSign(crypto) && a != b && x != y && z != x && z != y
    requires DeploymentIdOf(crypto.sha256(first)) == DeploymentIdOf(crypto.sha256(second))
    requires crypto.sha256(first) != crypto.sha256(second)
    ensures Reachable(crypto, w) && w.past.planned == {EventOf(crypto, a, first), EventOf(crypto, b, second)}
    ensures Enabled(crypto, w, step) && !Restores(crypto, w, step)
  {
    var id := DeploymentIdOf(crypto.sha256(first));
    var w1 := PointerIsRead(crypto, a, first, x, y);
    var w2 := OtherNodeReports(crypto, w1, b, second, z, Plan(a, "", y, 0));
    var w3, back := FinishRollback(crypto, w2, 2, id, x);
    w, step := TakeRollback(crypto, w3, b, back, second);
  }

  // ---------------------------------------------------------------------------
  // The exact conditions
  // ---------------------------------------------------------------------------

  /** Failed deployments leave what is served alone in every run that plans no more than
      this if and only if no node gets one id with two configurations. */
  lemma KeepsServingIff(crypto: Crypto, planned: set<PlanEvent>)
    requires CanSign(crypto) && ContentIds(crypto, planned)
    ensures AlwaysKeepsServing(crypto, planned) <==> OneConfigPerNode(planned)
  {
    if OneConfigPerNode(planned) {
      forall w, step | Reachable(crypto, w) && w.past.planned <= planned && Enabled(crypto, w, step)
        ensures KeepsServing(crypto, w, step)
      {
        ServingIsKept(crypto, w, step);
      }
    } else {
      var e, f :| e in planned && f in planned && e.id == f.id && e.node == f.node && e.config != f.config;
      assert e == EventOf(crypto, e.node, e.config) && f == EventOf(crypto, f.node, f.config);
      var w, c := Collide(crypto, e.node, e.config, f.config, "1", "2");
      var w', step := FailureReplacesServed(crypto, w, e.node, e.config, f.config, c);
      assert w'.past.planned <= planned;
    }
  }

  lemma ServingIsKept(crypto: Crypto, w: World, step: Step)
    requires Reachable(crypto, w) && OneConfigPerNode(w.past.planned) && Enabled(crypto, w, step)
    ensures KeepsServing(crypto, w, step)
  {
    if step.RunnerReceives? && step.envelope.command.kind.ApplyDeploymentPlan? {
      var x := ReactionTo(crypto, w, step);
      if x.report.Some? && !Ends(x, Succeeded) {
        FailedApplyKeepsServing(crypto, w, step);
      }
    }
  }

  /** Rollbacks restore what their command names in every run that plans no more than this
      if and only if prefixes decide digests. */
  lemma RestoresIff(crypto: Crypto, planned: set<PlanEvent>)
    requires CanSign(crypto) && ContentIds(crypto, planned)
    ensures AlwaysRestores(crypto, planned) <==> PrefixesDecide(crypto, planned)
  {
    if PrefixesDecide(crypto, planned) {
      forall w, step | Reachable(crypto, w) && w.past.planned <= planned && Enabled(crypto, w, step)
        ensures Restores(crypto, w, step)
      {
        BytesAreRestored(crypto, w, step);
      }
    } else {
      var e, f :| e in planned && f in planned && SamePrefix(crypto.sha256(e.config), crypto.sha256(f.config))
        && crypto.sha256(e.config) != crypto.sha256(f.config);
      DeploymentIdPrefix(crypto.sha256(e.config), crypto.sha256(f.config));
      assert e == EventOf(crypto, e.node, e.config) && f == EventOf(crypto, f.node, f.config);
      var w, step := WrongBytes(crypto, e.node, e.config, f.node, f.config);
      assert w.past.planned <= planned;
    }
  }

  lemma WrongBytes(crypto: Crypto, a: string, first: string, b: string, second: string) returns (w: World, step: Step)
    requires CanSign(crypto) && crypto.sha256(first) != crypto.sha256(second)
    requires DeploymentIdOf(crypto.sha256(first)) == DeploymentIdOf(crypto.sha256(second))
    ensures Reachable(crypto, w) && w.past.planned == {EventOf(crypto, a, first), EventOf(crypto, b, second)}
    ensures Enabled(crypto, w, step) && !Restores(crypto, w, step)
  {
    if a == b {
      var w1, c := Collide(crypto, a, first, second, "1", "2");
      w, step := RollbackRestoresOthers(crypto, w1, a, first, second, c);
    } else {
      w, step := RollbackRestoresAcross(crypto, a, first, b, second, "1", "2", "3");
    }
  }

  lemma BytesAreRestored(crypto: Crypto, w: World, step: Step)
    requires Reachable(crypto, w) && PrefixesDecide(crypto, w.past.planned) && Enabled(crypto, w, step)
    ensures Restores(crypto, w, step)
  {
    if step.RunnerReceives? && step.envelope.command.kind.RollbackDeployment? {
      if Ends(ReactionTo(crypto, w, step), RolledBack) {
        RollbackRestoresBytes(crypto, w, step);
      }
    }
  }
}

/** Following `previous_deployment_id` from deployment to deployment. */
module RollbackChains {
  import opened Domain
  import opened Store
  import opened ControlLoop
  import opened ControlLoopInvariant

  function PreviousOf(d: Deployments, id: string): Option<string> {
    if id in d.pointers then d.pointers[id].previousId else None
  }

  /** The k-th deployment on the chain that starts at `id`, if the chain is that long. */
  function Follow(d: Deployments, id: string, k: nat): Option<string>
    decreases k
  {
    if k == 0 then Some(id)
    else
      match PreviousOf(d, id)
      case None => None
      case Some(p) => Follow(d, p, k - 1)
  }

  // ---------------------------------------------------------------------------
  // Fresh ids: chains descend in planning order
  // ---------------------------------------------------------------------------

  ghost predicate FreshIds(order: seq<string>) {
    forall i, j :: 0 <= i < j < |order| ==> order[i] != order[j]
  }

  function IndexOf(order: seq<string>, id: string): (k: nat)
    requires id in order
    ensures k < |order| && order[k] == id
  {
    if order[0] == id then 0 else 1 + IndexOf(order[1..], id)
  }

  ghost predicate Descends(w: World, id: string) {
    var d := w.store.deployments;
    PreviousOf(d, id).Some? ==>
      var p := PreviousOf(d, id).value;
      && p in w.past.order && id in w.past.order && p in d.plans && id in d.plans
      && IndexOf(w.past.order, p) < IndexOf(w.past.order, id)
      && d.plans[p].node == d.plans[id].node
  }

  ghost predicate ChainInv(w: World) {
    && (forall x :: x in w.store.deployments.plans <==> x in w.past.order)
    && (forall x :: x in w.store.deployments.pointers ==> x in w.store.deployments.plans)
    && (FreshIds(w.past.order) ==> forall x :: x in w.store.deployments.pointers ==> Descends(w, x))
  }

  lemma {:induction false} IndexUnique(order: seq<string>, k: nat)
    requires FreshIds(order) && k < |order|
    ensures IndexOf(order, order[k]) == k
  {
  }

  lemma {:induction false} IndexAppend(order: seq<string>, id: string)
    requires FreshIds(order + [id])
    ensures FreshIds(order) && id !in order
    ensures forall y :: y in order ==> IndexOf(order + [id], y) == IndexOf(order, y)
    ensures IndexOf(order + [id], id) == |order|
  {
    var order' := order + [id];
    forall i, j | 0 <= i < j < |order|
      ensures order[i] != order[j]
    {
      assert order'[i] == order[i] && order'[j] == order[j];
    }
    forall i | 0 <= i < |order|
      ensures order[i] != id
    {
      assert order'[i] == order[i] && order'[|order|] == id;
    }
    forall y | y in order
      ensures IndexOf(order', y) == IndexOf(order, y)
    {
      assert order'[IndexOf(order, y)] == y;
      IndexUnique(order', IndexOf(order, y));
    }
    assert order'[|order|] == id;
    IndexUnique(order', |order|);
  }

  lemma OldDescends(w: World, w': World, id: string, x: string)
    requires Descends(w, x) && x != id && w'.past.order == w.past.order + [id] && FreshIds(w'.past.order)
    requires PreviousOf(w'.store.deployments, x) == PreviousOf(w.store.deployments, x)
    requires id !in w.store.deployments.plans
    requires w.store.deployments.plans.Items <= w'.store.deployments.plans.Items
    ensures Descends(w', x)
  {
    IndexAppend(w.past.order, id);
    var d, d' := w.store.deployments, w'.store.deployments;
    if PreviousOf(d, x).Some? {
      var p := PreviousOf(d, x).value;
      assert (p, d.plans[p]) in d'.plans.Items && (x, d.plans[x]) in d'.plans.Items;
    }
  }

  lemma NewDescends(w: World, w': World, id: string, plan: Plan, previous: Option<string>)
    requires ChainInv(w) && IsPrevious(w.store.deployments, plan.node, previous)
    requires w'.past.order == w.past.order + [id] && FreshIds(w'.past.order)
    requires w'.store.deployments == WithPlan(w.store.deployments, id, plan, previous)
    ensures Descends(w', id)
  {
    IndexAppend(w.past.order, id);
  }

  lemma PlanKeepsDescent(crypto: Crypto, w: World, step: Step)
    requires ChainInv(w) && Enabled(crypto, w, step) && step.RecordPlan?
    requires FreshIds(Next(crypto, w, step).past.order)
    ensures forall x :: x in Next(crypto, w, step).store.deployments.pointers ==> Descends(Next(crypto, w, step), x)
  {
    var w', s := Next(crypto, w, step), w.jobs[step.h].stage;
    var id := DeploymentIdOf(crypto.sha256(s.config));
    var plan := Plan(s.node, s.profile, s.artifact, step.at);
    assert w'.past.order == w.past.order + [id];
    assert w'.store.deployments == WithPlan(w.store.deployments, id, plan, step.previous);
    IndexAppend(w.past.order, id);
    NewDescends(w, w', id, plan, step.previous);
    forall x | x in w'.store.deployments.pointers && x != id
      ensures Descends(w', x)
    {
      OldDescends(w, w', id, x);
    }
  }

  /** Only planning touches plans, pointers and their order. */
  lemma ChainsFrame(crypto: Crypto, w: World, step: Step)
    requires Enabled(crypto, w, step) && !step.RecordPlan?
    ensures SameChains(w, Next(crypto, w, step))
  {
    StepIsOp(crypto, w, step);
    assert Next(crypto, w, step).past.order == w.past.order;
    var op := OpOf(crypto, w, step);
    if op.Some? {
      assert !op.value.PlanOp?;
    }
  }

  ghost predicate SameChains(w: World, w': World) {
    && w'.past.order == w.past.order
    && w'.store.deployments.plans == w.store.deployments.plans
    && w'.store.deployments.pointers == w.store.deployments.pointers
  }

  lemma SameChainsKeep(w: World, w': World)
    requires ChainInv(w) && SameChains(w, w')
    ensures ChainInv(w')
  {
    assert forall x :: Descends(w, x) ==> Descends(w', x);
  }

  lemma PlanKeepsChains(crypto: Crypto, w: World, step: Step)
    requires ChainInv(w) && Enabled(crypto, w, step) && step.RecordPlan?
    ensures ChainInv(Next(crypto, w, step))
  {
    var w' := Next(crypto, w, step);
    if FreshIds(w'.past.order) {
      PlanKeepsDescent(crypto, w, step);
    }
    assert forall x :: x in w'.past.order <==> x in w.past.order || x == w'.past.order[|w.past.order|];
  }

  lemma StepKeepsChains(crypto: Crypto, w: World, step: Step)
    requires ChainInv(w) && Enabled(crypto, w, step)
    ensures ChainInv(Next(crypto, w, step))
  {
    if step.RecordPlan? {
      PlanKeepsChains(crypto, w, step);
    } else {
      ChainsFrame(crypto, w, step);
      SameChainsKeep(w, Next(crypto, w, step));
    }
  }

  lemma {:induction false} RunKeepsChains(crypto: Crypto, tenant: string, steps: seq<Step>)
    requires ValidRun(crypto, Initial(tenant), steps)
    ensures ChainInv(RunFrom(crypto, Initial(tenant), steps))
    decreases |steps|
  {
    if steps != [] {
      RunKeepsChains(crypto, tenant, steps[..|steps|-1]);
      StepKeepsChains(crypto, RunFrom(crypto, Initial(tenant), steps[..|steps|-1]), steps[|steps|-1]);
    }
  }

  lemma {:induction false} ChainDescends(w: World, id: string, k: nat)
    requires ChainInv(w) && FreshIds(w.past.order) && id in w.store.deployments.plans
    ensures var x := Follow(w.store.deployments, id, k);
            x.Some? ==>
              && x.value in w.store.deployments.plans
              && w.store.deployments.plans[x.value].node == w.store.deployments.plans[id].node
              && IndexOf(w.past.order, x.value) + k <= IndexOf(w.past.order, id)
    decreases k
  {
    if k > 0 && PreviousOf(w.store.deployments, id).Some? {
      assert Descends(w, id);
      ChainDescends(w, PreviousOf(w.store.deployments, id).value, k - 1);
    }
  }

  /** In every run with fresh ids: the chain from any deployment stays on its node, goes
      strictly back in planning order, and ends. */
  lemma {:induction false} ChainsAreWellFounded(crypto: Crypto, tenant: string, steps: seq<Step>, id: string)
    requires ValidRun(crypto, Initial(tenant), steps)
    requires var w := RunFrom(crypto, Initial(tenant), steps); FreshIds(w.past.order) && id in w.store.deployments.plans
    ensures var w := RunFrom(crypto, Initial(tenant), steps);
            && id in w.past.order
            && Follow(w.store.deployments, id, IndexOf(w.past.order, id) + 1) == None
            && forall k: nat :: Follow(w.store.deployments, id, k).Some? ==>
                 var x := Follow(w.store.deployments, id, k).value;
                 && x in w.store.deployments.plans && x in w.past.order
                 && w.store.deployments.plans[x].node == w.store.deployments.plans[id].node
                 && IndexOf(w.past.order, x) + k <= IndexOf(w.past.order, id)
  {
    var w := RunFrom(crypto, Initial(tenant), steps);
    RunKeepsChains(crypto, tenant, steps);
    forall k: nat | Follow(w.store.deployments, id, k).Some?
      ensures var x := Follow(w.store.deployments, id, k).value;
              && x in w.store.deployments.plans && x in w.past.order
              && w.store.deployments.plans[x].node == w.store.deployments.plans[id].node
              && IndexOf(w.past.order, x) + k <= IndexOf(w.past.order, id)
    {
      ChainDescends(w, id, k);
    }
    ChainDescends(w, id, IndexOf(w.past.order, id) + 1);
  }

  // ---------------------------------------------------------------------------
  // Recurring ids: exactly when a plan closes a cycle
  // ---------------------------------------------------------------------------

  ghost predicate Acyclic(d: Deployments) {
    forall id, k: nat :: k > 0 ==> Follow(d, id, k) != Some(id)
  }

  lemma {:induction false} FollowAdds(d: Deployments, id: string, j: nat, k: nat)
    ensures Follow(d, id, j + k) == (match Follow(d, id, j) case None => None case Some(x) => Follow(d, x, k))
    decreases j
  {
    if j > 0 && PreviousOf(d, id).Some? {
      FollowAdds(d, PreviousOf(d, id).value, j - 1, k);
    }
  }

  /** As long as a walk does not pass through the re-planned id, the plan is invisible. */
  lemma {:induction false} WalkUnchanged(d: Deployments, d': Deployments, id: string, start: string, k: nat)
    requires forall x :: x != id ==> PreviousOf(d', x) == PreviousOf(d, x)
    requires forall j: nat :: j < k ==> Follow(d, start, j) != Some(id)
    ensures Follow(d', start, k) == Follow(d, start, k)
    decreases k
  {
    if k > 0 {
      assert Follow(d, start, 0) == Some(start);
      match PreviousOf(d, start) {
        case None =>
        case Some(p) =>
          forall j: nat | j < k - 1
            ensures Follow(d, p, j) != Some(id)
          {
            assert Follow(d, start, j + 1) == Follow(d, p, j);
          }
          WalkUnchanged(d, d', id, p, k - 1);
      }
    }
  }

  ghost predicate OnChain(d: Deployments, start: string, id: string) {
    exists k: nat :: Follow(d, start, k) == Some(id)
  }

  /** Position of the first visit to `id`, when there is one. */
  lemma {:induction false} FirstVisit(d: Deployments, start: string, id: string, k: nat) returns (first: nat)
    requires Follow(d, start, k) == Some(id)
    ensures first <= k && Follow(d, start, first) == Some(id)
    ensures forall j: nat :: j < first ==> Follow(d, start, j) != Some(id)
    decreases k
  {
    if forall j: nat :: j < k ==> Follow(d, start, j) != Some(id) {
      first := k;
    } else {
      var j: nat :| j < k && Follow(d, start, j) == Some(id);
      first := FirstVisit(d, start, id, j);
    }
  }

  lemma {:induction false} CycleIfOnChain(d: Deployments, d': Deployments, id: string, p: string, k: nat)
    requires forall x :: x != id ==> PreviousOf(d', x) == PreviousOf(d, x)
    requires PreviousOf(d', id) == Some(p) && Follow(d, p, k) == Some(id)
    ensures !Acyclic(d')
  {
    var first := FirstVisit(d, p, id, k);
    WalkUnchanged(d, d', id, p, first);
    assert Follow(d', id, first + 1) == Follow(d', p, first) == Some(id);
  }

  lemma NoCycleIfOffChain(d: Deployments, d': Deployments, id: string)
    requires Acyclic(d) && forall x :: x != id ==> PreviousOf(d', x) == PreviousOf(d, x)
    requires PreviousOf(d', id).Some? ==> !OnChain(d, PreviousOf(d', id).value, id)
    ensures Acyclic(d')
  {
    forall x, k: nat | k > 0
      ensures Follow(d', x, k) != Some(x)
    {
      if Follow(d', x, k) == Some(x) {
        if forall j: nat :: j < k ==> Follow(d, x, j) != Some(id) {
          WalkUnchanged(d, d', id, x, k);
        } else {
          var j0: nat :| j0 < k && Follow(d, x, j0) == Some(id);
          var j := FirstVisit(d, x, id, j0);
          WalkUnchanged(d, d', id, x, j);
          // Rotate the cycle so that it starts at id.
          FollowAdds(d', x, j, k - j);
          FollowAdds(d', id, k - j, j);
          assert Follow(d', id, k) == Some(id);
          IdCannotReturn(d, d', id, k);
        }
      }
    }
  }

  lemma {:induction false} IdCannotReturn(d: Deployments, d': Deployments, id: string, k: nat)
    requires k > 0 && forall x :: x != id ==> PreviousOf(d', x) == PreviousOf(d, x)
    requires PreviousOf(d', id).Some? ==> !OnChain(d, PreviousOf(d', id).value, id)
    ensures Follow(d', id, k) != Some(id)
  {
    if PreviousOf(d', id).Some? {
      var p := PreviousOf(d', id).value;
      forall j: nat | j < k
        ensures Follow(d, p, j) != Some(id)
      {
      }
      WalkUnchanged(d, d', id, p, k - 1);
    }
  }

  /** A plan keeps the pointers acyclic if and only if its id is not already on the
      rollback chain of the deployment it will point to. */
  lemma PlanClosesCycleIff(d: Deployments, id: string, plan: Plan, previous: Option<string>)
    requires Acyclic(d) && IsPrevious(d, plan.node, previous)
    ensures Acyclic(WithPlan(d, id, plan, previous)) <==> previous.None? || !OnChain(d, previous.value, id)
  {
    var d' := WithPlan(d, id, plan, previous);
    assert PreviousOf(d', id) == previous;
    assert forall x :: x != id ==> PreviousOf(d', x) == PreviousOf(d, x);
    if previous.Some? && OnChain(d, previous.value, id) {
      var k: nat :| Follow(d, previous.value, k) == Some(id);
      CycleIfOnChain(d, d', id, previous.value, k);
    } else {
      NoCycleIfOffChain(d, d', id);
    }
  }

  /** In particular, planning the latest succeeded id again makes it its own target. */
  lemma {:induction false} ReplanPointsAtItself(d: Deployments, id: string, plan: Plan)
    requires IsPrevious(d, plan.node, Some(id))
    ensures Follow(WithPlan(d, id, plan, Some(id)), id, 1) == Some(id)
    ensures !Acyclic(WithPlan(d, id, plan, Some(id)))
  {
    var d' := WithPlan(d, id, plan, Some(id));
    assert PreviousOf(d', id) == Some(id);
    assert Follow(d', id, 1) == Follow(d', id, 0);
  }
}

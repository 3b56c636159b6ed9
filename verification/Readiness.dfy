/** What readiness and promotion mean, said over the raw list of health samples. */
module Readiness {
  import opened Domain
  import opened Store
  import opened ControlPlane

  /** Sample i of the list is about this deployment. */
  predicate About(health: seq<HealthSample>, id: string, i: int) {
    0 <= i < |health| && health[i].deploymentId == id
  }

  predicate HealthyAt(health: seq<HealthSample>, id: string, i: int) {
    About(health, id, i) && health[i].status == Healthy
  }

  /** No sample of the deployment is later; among equally late ones, i was recorded last. */
  ghost predicate LatestAt(health: seq<HealthSample>, id: string, i: int) {
    && About(health, id, i)
    && forall j :: About(health, id, j) ==>
         health[j].createdAt <= health[i].createdAt && (health[j].createdAt == health[i].createdAt ==> j <= i)
  }

  /** Two different healthy samples. */
  ghost predicate HealthyTwice(health: seq<HealthSample>, id: string) {
    exists i, j :: i < j && HealthyAt(health, id, i) && HealthyAt(health, id, j)
  }

  // ---------------------------------------------------------------------------
  // The selected samples and their positions
  // ---------------------------------------------------------------------------

  ghost function Places(health: seq<HealthSample>, id: string): seq<int> {
    if health == [] then []
    else
      var n := |health| - 1;
      Places(health[..n], id) + (if health[n].deploymentId == id then [n] else [])
  }

  ghost predicate Located(health: seq<HealthSample>, id: string, samples: seq<HealthSample>, at: seq<int>) {
    && |at| == |samples|
    && (forall i, j :: 0 <= i < j < |at| ==> at[i] < at[j])
    && (forall k :: 0 <= k < |at| ==> About(health, id, at[k]) && health[at[k]] == samples[k])
    && (forall i :: About(health, id, i) ==> i in at)
  }

  lemma {:induction false} SamplesAreLocated(health: seq<HealthSample>, id: string)
    ensures Located(health, id, SamplesOf(health, id), Places(health, id))
    decreases |health|
  {
    if health != [] {
      var n := |health| - 1;
      SamplesAreLocated(health[..n], id);
      forall i | About(health, id, i)
        ensures i in Places(health, id)
      {
        if i < n {
          assert About(health[..n], id, i);
        }
      }
    }
  }

  lemma {:induction false} CountsHealthy(samples: seq<HealthSample>)
    ensures HealthyCount(samples) >= 1 <==> exists i :: 0 <= i < |samples| && samples[i].status == Healthy
    ensures HealthyCount(samples) >= 2
       <==> exists i, j :: 0 <= i < j < |samples| && samples[i].status == Healthy && samples[j].status == Healthy
    decreases |samples|
  {
    if samples != [] {
      var front := samples[..|samples|-1];
      CountsHealthy(front);
      assert forall i :: 0 <= i < |front| ==> front[i] == samples[i];
    }
  }

  ghost predicate TwoHealthy(samples: seq<HealthSample>) {
    exists a, b :: 0 <= a < b < |samples| && samples[a].status == Healthy && samples[b].status == Healthy
  }

  lemma TwiceInSamples(health: seq<HealthSample>, id: string, samples: seq<HealthSample>, at: seq<int>)
    requires Located(health, id, samples, at) && HealthyTwice(health, id)
    ensures TwoHealthy(samples)
  {
    var i, j :| i < j && HealthyAt(health, id, i) && HealthyAt(health, id, j);
    assert About(health, id, i) && About(health, id, j);
    var a :| 0 <= a < |at| && at[a] == i;
    var b :| 0 <= b < |at| && at[b] == j;
    assert a < b && samples[a] == health[i] && samples[b] == health[j];
  }

  lemma TwiceInHealth(health: seq<HealthSample>, id: string, samples: seq<HealthSample>, at: seq<int>)
    requires Located(health, id, samples, at) && TwoHealthy(samples)
    ensures HealthyTwice(health, id)
  {
    var a, b :| 0 <= a < b < |samples| && samples[a].status == Healthy && samples[b].status == Healthy;
    assert at[a] < at[b];
    assert HealthyAt(health, id, at[a]) && HealthyAt(health, id, at[b]);
  }

  lemma {:induction false} TwiceIsCount(health: seq<HealthSample>, id: string)
    ensures HealthyCount(SamplesOf(health, id)) >= RequiredHealthySamples <==> HealthyTwice(health, id)
  {
    var samples, at := SamplesOf(health, id), Places(health, id);
    SamplesAreLocated(health, id);
    CountsHealthy(samples);
    assert HealthyCount(samples) >= 2 <==> TwoHealthy(samples);
    if HealthyTwice(health, id) {
      TwiceInSamples(health, id, samples, at);
    } else if TwoHealthy(samples) {
      TwiceInHealth(health, id, samples, at);
    }
  }

  lemma {:induction false} LatestIsLocated(health: seq<HealthSample>, id: string)
    ensures SamplesOf(health, id) == [] <==> forall i :: !About(health, id, i)
    ensures SamplesOf(health, id) != [] ==>
              && |Places(health, id)| == |SamplesOf(health, id)|
              && LatestAt(health, id, Places(health, id)[LatestIndex(SamplesOf(health, id))])
  {
    var samples, at := SamplesOf(health, id), Places(health, id);
    SamplesAreLocated(health, id);
    if samples == [] {
      forall i
        ensures !About(health, id, i)
      {
      }
    } else {
      var k := LatestIndex(samples);
      assert About(health, id, at[k]);
      forall j | About(health, id, j)
        ensures health[j].createdAt <= health[at[k]].createdAt
        ensures (health[j].createdAt == health[at[k]].createdAt ==> j <= at[k])
      {
        var m :| 0 <= m < |at| && at[m] == j;
        assert samples[m] == health[j];
      }
    }
  }

  // ---------------------------------------------------------------------------
  // Readiness and promotion
  // ---------------------------------------------------------------------------

  /** The latest sample of the deployment, when there is one, is healthy. */
  ghost predicate LatestIsHealthy(health: seq<HealthSample>, id: string) {
    forall i :: LatestAt(health, id, i) ==> health[i].status == Healthy
  }

  lemma {:induction false} ReadinessMeans(d: Deployments, id: string, status: DeploymentStatus)
    ensures var r := ReadinessOf(status, SamplesOf(d.health, id));
            && (r == WaitingForSuccess <==> status != Succeeded)
            && (r == LatestUnhealthy <==> status == Succeeded && !LatestIsHealthy(d.health, id))
            && (r == Ready <==> status == Succeeded && LatestIsHealthy(d.health, id) && HealthyTwice(d.health, id))
  {
    var samples := SamplesOf(d.health, id);
    TwiceIsCount(d.health, id);
    LatestIsLocated(d.health, id);
    SamplesAreLocated(d.health, id);
    if samples != [] {
      var i := Places(d.health, id)[LatestIndex(samples)];
      assert LatestAt(d.health, id, i) && d.health[i] == samples[LatestIndex(samples)];
      assert forall j :: LatestAt(d.health, id, j) ==> j == i;
    }
  }

  /** Advance promotes exactly the succeeded deployments whose latest sample is healthy and
      that have two healthy ones; and promoting changes nothing. */
  lemma PromotedIff(crypto: Crypto, s: CpState, id: string, stamp: Stamp)
    ensures var d, a := s.store.deployments, AdvanceSpec(crypto, s, id, stamp);
            && (a.outcome == Promoted <==>
                  && id in d.plans && id in d.statuses && d.statuses[id] == Succeeded
                  && LatestIsHealthy(d.health, id) && HealthyTwice(d.health, id))
            && (!a.outcome.Queued? ==> a.state == s)
  {
    if id in s.store.deployments.statuses {
      ReadinessMeans(s.store.deployments, id, s.store.deployments.statuses[id]);
    }
  }

  /** It queues a command only for a succeeded deployment whose latest sample is unhealthy. */
  lemma QueuedOnlyWhenUnhealthy(crypto: Crypto, s: CpState, id: string, stamp: Stamp)
    requires AdvanceSpec(crypto, s, id, stamp).outcome.Queued?
    ensures var d := s.store.deployments;
            && id in d.statuses && d.statuses[id] == Succeeded && !LatestIsHealthy(d.health, id)
            && id in d.pointers && d.pointers[id].previousId.Some?
            && AdvanceSpec(crypto, s, id, stamp).outcome.command.kind.RollbackDeployment?
            && AdvanceSpec(crypto, s, id, stamp).outcome.command.kind.rollbackTo == d.pointers[id].previousId.value
  {
    ReadinessMeans(s.store.deployments, id, s.store.deployments.statuses[id]);
  }
}

/** Sequence allocation and delivery when allocating, enqueueing and polling interleave. */
module Delivery {
  import opened Domain
  import opened CommandQueue
  import opened Store
  import opened ControlPlane
  import opened ControlLoop

  type Jobs = map<nat, Job>

  predicate SameNumber(c: RunnerCommand, e: RunnerCommand) {
    c.nodeId == e.nodeId && c.sequence == e.sequence
  }

  /** Signed commands have positive sequences up to the counter, one command each. */
  ghost predicate SequencesInv(sequences: map<string, nat>, signed: set<RunnerCommand>) {
    && (forall c :: c in signed ==> 1 <= c.sequence <= SequenceOf(sequences, c.nodeId))
    && (forall c, e :: c in signed && e in signed && SameNumber(c, e) ==> c == e)
  }

  ghost predicate Ready(jobs: Jobs, h: nat) {
    h in jobs && jobs[h].stage.NeedsEnqueue?
  }

  /** Handlers about to enqueue hold signed commands, each its own. */
  ghost predicate ReadyInv(jobs: Jobs, signed: set<RunnerCommand>) {
    && (forall h :: Ready(jobs, h) ==> jobs[h].stage.command in signed)
    && (forall g, h :: Ready(jobs, g) && Ready(jobs, h) && g != h ==> jobs[g].stage.command != jobs[h].stage.command)
  }

  /** Everything a node was sent or is about to be sent, oldest first. */
  function Sent(w: World, node: string): seq<SignedRunnerCommand> {
    DeliveredTo(w, node) + QueueOf(w.store, node)
  }

  ghost predicate Distinct(s: seq<SignedRunnerCommand>) {
    forall i, j :: 0 <= i < j < |s| ==> s[i].command != s[j].command
  }

  ghost predicate SignedFor(s: seq<SignedRunnerCommand>, signed: set<RunnerCommand>, node: string) {
    forall i :: 0 <= i < |s| ==> s[i].command in signed && s[i].command.nodeId == node
  }

  /** No handler still holds a command that was sent. */
  ghost predicate NotHeld(s: seq<SignedRunnerCommand>, jobs: Jobs) {
    forall i :: 0 <= i < |s| ==> Free(s[i].command, jobs)
  }

  ghost predicate Free(c: RunnerCommand, jobs: Jobs) {
    forall h :: Ready(jobs, h) ==> jobs[h].stage.command != c
  }

  ghost predicate SentInv(s: seq<SignedRunnerCommand>, jobs: Jobs, signed: set<RunnerCommand>, node: string) {
    Distinct(s) && SignedFor(s, signed, node) && NotHeld(s, jobs)
  }

  ghost predicate DeliveryInv(w: World) {
    && SequencesInv(w.sequences, w.past.signed)
    && ReadyInv(w.jobs, w.past.signed)
    && forall node :: SentInv(Sent(w, node), w.jobs, w.past.signed, node)
  }

  // ---------------------------------------------------------------------------
  // What the steps do, piece by piece
  // ---------------------------------------------------------------------------

  /** A handler that is ready afterwards was ready before, with the same command. */
  ghost predicate NoNewReady(jobs: Jobs, jobs': Jobs) {
    forall h :: Ready(jobs', h) ==> Ready(jobs, h) && jobs'[h] == jobs[h]
  }

  lemma ReadyShrinks(jobs: Jobs, jobs': Jobs, signed: set<RunnerCommand>)
    requires ReadyInv(jobs, signed) && NoNewReady(jobs, jobs')
    ensures ReadyInv(jobs', signed)
  {
  }

  lemma FreeStays(c: RunnerCommand, jobs: Jobs, jobs': Jobs)
    requires Free(c, jobs) && NoNewReady(jobs, jobs')
    ensures Free(c, jobs')
  {
  }

  lemma SentStays(s: seq<SignedRunnerCommand>, jobs: Jobs, jobs': Jobs, signed: set<RunnerCommand>, node: string)
    requires SentInv(s, jobs, signed, node) && NoNewReady(jobs, jobs')
    ensures SentInv(s, jobs', signed, node)
  {
    forall i | 0 <= i < |s|
      ensures Free(s[i].command, jobs')
    {
      FreeStays(s[i].command, jobs, jobs');
    }
  }

  /** A command nobody has seen is signed and handed to a handler. */
  lemma ReadyGrows(jobs: Jobs, h: nat, job: Job, signed: set<RunnerCommand>, c: RunnerCommand)
    requires ReadyInv(jobs, signed) && c !in signed && job.stage == NeedsEnqueue(c)
    ensures ReadyInv(jobs[h := job], signed + {c})
  {
    var jobs' := jobs[h := job];
    forall g | Ready(jobs', g) && g != h
      ensures Ready(jobs, g) && jobs'[g] == jobs[g]
    {
    }
  }

  lemma SentUnsigned(s: seq<SignedRunnerCommand>, jobs: Jobs, h: nat, job: Job, signed: set<RunnerCommand>,
                     c: RunnerCommand, node: string)
    requires SentInv(s, jobs, signed, node) && c !in signed && job.stage == NeedsEnqueue(c)
    ensures SentInv(s, jobs[h := job], signed + {c}, node)
  {
    forall i | 0 <= i < |s|
      ensures Free(s[i].command, jobs[h := job])
    {
      FreeOfNew(s[i].command, jobs, h, job);
    }
  }

  lemma FreeOfNew(c: RunnerCommand, jobs: Jobs, h: nat, job: Job)
    requires Free(c, jobs) && job.stage.NeedsEnqueue? && job.stage.command != c
    ensures Free(c, jobs[h := job])
  {
    var jobs' := jobs[h := job];
    forall g | Ready(jobs', g)
      ensures jobs'[g].stage.command != c
    {
      assert g != h ==> Ready(jobs, g);
    }
  }

  lemma SequencesGrow(sequences: map<string, nat>, signed: set<RunnerCommand>, c: RunnerCommand)
    requires SequencesInv(sequences, signed) && c.sequence == SequenceOf(sequences, c.nodeId) + 1
    ensures c !in signed && SequencesInv(sequences[c.nodeId := c.sequence], signed + {c})
  {
  }

  /** A handler's command joins what its node was sent, and the handler is done. */
  lemma SentGrows(s: seq<SignedRunnerCommand>, jobs: Jobs, jobs': Jobs, signed: set<RunnerCommand>, h: nat,
                  e: SignedRunnerCommand)
    requires ReadyInv(jobs, signed) && SentInv(s, jobs, signed, e.command.nodeId)
    requires Ready(jobs, h) && jobs[h].stage.command == e.command && NoNewReady(jobs, jobs') && !Ready(jobs', h)
    ensures SentInv(s + [e], jobs', signed, e.command.nodeId)
  {
    SentStays(s, jobs, jobs', signed, e.command.nodeId);
    assert Free(e.command, jobs');
    forall i | 0 <= i < |s|
      ensures s[i].command != e.command
    {
      assert Free(s[i].command, jobs);
    }
  }

  /** Cutting a stretch out keeps everything. */
  lemma SentCut(a: seq<SignedRunnerCommand>, b: seq<SignedRunnerCommand>, k: nat, jobs: Jobs,
                signed: set<RunnerCommand>, node: string)
    requires k <= |b| && SentInv(a + b, jobs, signed, node)
    ensures SentInv(a + b[k..], jobs, signed, node)
  {
    var cut, all := a + b[k..], a + b;
    forall i | 0 <= i < |cut|
      ensures cut[i] == all[Before(|a|, k, i)]
    {
    }
    forall i, j | 0 <= i < j < |cut|
      ensures cut[i].command != cut[j].command
    {
      assert cut[i] == all[Before(|a|, k, i)] && cut[j] == all[Before(|a|, k, j)];
    }
  }

  /** Where a command stood before the cut. */
  function Before(n: nat, k: nat, i: nat): nat {
    if i < n then i else i + k
  }

  lemma {:induction false} PollCut(sent: seq<SignedRunnerCommand>, queue: seq<SignedRunnerCommand>, last: nat)
    ensures var p := PollSpec(queue, last);
            sent + AsSeq(p.handed) + p.queue == sent + queue[StaleCount(queue, last)..]
  {
  }

  // ---------------------------------------------------------------------------
  // Each kind of step
  // ---------------------------------------------------------------------------

  lemma AllocateKeepsDelivery(crypto: Crypto, w: World, step: Step)
    requires DeliveryInv(w) && Enabled(crypto, w, step) && step.Allocate?
    ensures DeliveryInv(Next(crypto, w, step))
  {
    var w', s := Next(crypto, w, step), w.jobs[step.h].stage;
    var c := NewCommand(w.sequences, s.node, step.at, step.nonce, s.kind);
    var job := w.jobs[step.h].(stage := NeedsEnqueue(c));
    assert w'.jobs == w.jobs[step.h := job] && w'.past.signed == w.past.signed + {c};
    SequencesGrow(w.sequences, w.past.signed, c);
    ReadyGrows(w.jobs, step.h, job, w.past.signed, c);
    forall node
      ensures SentInv(Sent(w', node), w'.jobs, w'.past.signed, node)
    {
      assert Sent(w', node) == Sent(w, node);
      SentUnsigned(Sent(w, node), w.jobs, step.h, job, w.past.signed, c, node);
    }
  }

  lemma EnqueueFrame(w: World, h: nat, signature: string, node: string)
    requires Ready(w.jobs, h)
    ensures var e, w' := SignedRunnerCommand(w.jobs[h].stage.command, signature), AfterEnqueue(w, h, signature);
            && NoNewReady(w.jobs, w'.jobs) && !Ready(w'.jobs, h)
            && w'.past == w.past && w'.sequences == w.sequences
            && Sent(w', node) == Sent(w, node) + (if node == e.command.nodeId then [e] else [])
  {
    var e, w' := SignedRunnerCommand(w.jobs[h].stage.command, signature), AfterEnqueue(w, h, signature);
    if node == e.command.nodeId {
      assert QueueOf(w'.store, node) == QueueOf(w.store, node) + [e];
    } else {
      assert QueueOf(w'.store, node) == QueueOf(w.store, node);
    }
  }

  lemma EnqueueKeepsDelivery(crypto: Crypto, w: World, step: Step)
    requires DeliveryInv(w) && Enabled(crypto, w, step) && step.EnqueueCommand?
    ensures DeliveryInv(Next(crypto, w, step))
  {
    var w' := AfterEnqueue(w, step.h, step.signature);
    var e := SignedRunnerCommand(w.jobs[step.h].stage.command, step.signature);
    assert Ready(w.jobs, step.h);
    EnqueueFrame(w, step.h, step.signature, e.command.nodeId);
    ReadyShrinks(w.jobs, w'.jobs, w.past.signed);
    forall node
      ensures SentInv(Sent(w', node), w'.jobs, w'.past.signed, node)
    {
      EnqueueFrame(w, step.h, step.signature, node);
      if node == e.command.nodeId {
        SentGrows(Sent(w, node), w.jobs, w'.jobs, w.past.signed, step.h, e);
      } else {
        SentStays(Sent(w, node), w.jobs, w'.jobs, w.past.signed, node);
      }
    }
  }

  lemma {:induction false} PollFrame(w: World, polled: string, last: nat, node: string)
    ensures var w', k := AfterPollQueue(w, polled, last), StaleCount(QueueOf(w.store, node), last);
            && w'.jobs == w.jobs && w'.past.signed == w.past.signed && w'.sequences == w.sequences
            && Sent(w', node)
                == (if node == polled then DeliveredTo(w, node) + QueueOf(w.store, node)[k..] else Sent(w, node))
  {
    var w', queue := AfterPollQueue(w, polled, last), QueueOf(w.store, node);
    if node == polled {
      PollCut(DeliveredTo(w, node), queue, last);
      assert QueueOf(w'.store, node) == PollSpec(queue, last).queue;
      assert DeliveredTo(w', node) == DeliveredTo(w, node) + AsSeq(PollSpec(queue, last).handed);
    } else {
      assert QueueOf(w'.store, node) == queue;
    }
  }

  lemma PollKeepsDelivery(crypto: Crypto, w: World, step: Step)
    requires DeliveryInv(w) && Enabled(crypto, w, step) && step.PollQueue?
    ensures DeliveryInv(Next(crypto, w, step))
  {
    var w' := AfterPollQueue(w, step.node, step.last);
    PollFrame(w, step.node, step.last, step.node);
    forall node
      ensures SentInv(Sent(w', node), w'.jobs, w'.past.signed, node)
    {
      PollFrame(w, step.node, step.last, node);
      assert SentInv(Sent(w, node), w.jobs, w.past.signed, node);
      if node == step.node {
        var queue := QueueOf(w.store, node);
        SentCut(DeliveredTo(w, node), queue, StaleCount(queue, step.last), w.jobs, w.past.signed, node);
      }
    }
  }

  predicate TouchesDelivery(step: Step) {
    step.Allocate? || step.EnqueueCommand? || step.PollQueue?
  }

  lemma OthersReachNoStage(crypto: Crypto, w: World, step: Step)
    requires Enabled(crypto, w, step) && !TouchesDelivery(step)
    ensures NoNewReady(w.jobs, Next(crypto, w, step).jobs)
  {
  }

  /** A step of any other kind leaves queues, deliveries and counters alone, and no
      handler reaches the enqueue stage by it. */
  lemma OthersFrame(crypto: Crypto, w: World, step: Step)
    requires Enabled(crypto, w, step) && !TouchesDelivery(step)
    ensures var w' := Next(crypto, w, step);
            && w'.past.signed == w.past.signed && w'.past.delivered == w.past.delivered && w'.sequences == w.sequences
            && w'.store.queues == w.store.queues
  {
  }

  lemma SameDelivery(w: World, w': World)
    requires DeliveryInv(w) && w'.past.signed == w.past.signed && w'.past.delivered == w.past.delivered
    requires w'.sequences == w.sequences && w'.store.queues == w.store.queues && NoNewReady(w.jobs, w'.jobs)
    ensures DeliveryInv(w')
  {
    ReadyShrinks(w.jobs, w'.jobs, w.past.signed);
    forall node
      ensures SentInv(Sent(w', node), w'.jobs, w'.past.signed, node)
    {
      assert Sent(w', node) == Sent(w, node);
      SentStays(Sent(w, node), w.jobs, w'.jobs, w.past.signed, node);
    }
  }

  /** Every kind of step keeps each command in one place. */
  lemma StepKeepsDelivery(crypto: Crypto, w: World, step: Step)
    requires DeliveryInv(w) && Enabled(crypto, w, step)
    ensures DeliveryInv(Next(crypto, w, step))
  {
    if step.Allocate? {
      AllocateKeepsDelivery(crypto, w, step);
    } else if step.EnqueueCommand? {
      EnqueueKeepsDelivery(crypto, w, step);
    } else if step.PollQueue? {
      PollKeepsDelivery(crypto, w, step);
    } else {
      OthersFrame(crypto, w, step);
      OthersReachNoStage(crypto, w, step);
      SameDelivery(w, Next(crypto, w, step));
    }
  }

  lemma {:induction false} RunKeepsDelivery(crypto: Crypto, tenant: string, steps: seq<Step>)
    requires ValidRun(crypto, Initial(tenant), steps)
    ensures DeliveryInv(RunFrom(crypto, Initial(tenant), steps))
    decreases |steps|
  {
    if steps != [] {
      RunKeepsDelivery(crypto, tenant, steps[..|steps|-1]);
      StepKeepsDelivery(crypto, RunFrom(crypto, Initial(tenant), steps[..|steps|-1]), steps[|steps|-1]);
    }
  }

  lemma ReachableDelivery(crypto: Crypto, w: World)
    requires Reachable(crypto, w)
    ensures DeliveryInv(w)
  {
    var tenant, steps :| ValidRun(crypto, Initial(tenant), steps) && RunFrom(crypto, Initial(tenant), steps) == w;
    RunKeepsDelivery(crypto, tenant, steps);
  }

  // ---------------------------------------------------------------------------
  // At most once
  // ---------------------------------------------------------------------------

  ghost predicate DistinctNumbers(s: seq<SignedRunnerCommand>) {
    forall i, j :: 0 <= i < j < |s| ==> s[i].command.sequence != s[j].command.sequence
  }

  lemma NumbersAreDistinct(sequences: map<string, nat>, signed: set<RunnerCommand>, s: seq<SignedRunnerCommand>,
                           node: string)
    requires SequencesInv(sequences, signed) && Distinct(s) && SignedFor(s, signed, node)
    ensures DistinctNumbers(s)
  {
    forall i, j | 0 <= i < j < |s|
      ensures s[i].command.sequence != s[j].command.sequence
    {
      assert s[i].command in signed && s[j].command in signed && s[i].command != s[j].command;
      assert !SameNumber(s[i].command, s[j].command);
    }
  }

  /** What was delivered has no number twice, nor one that is still queued. */
  lemma PartsAreDistinct(a: seq<SignedRunnerCommand>, b: seq<SignedRunnerCommand>)
    requires DistinctNumbers(a + b)
    ensures DistinctNumbers(a)
    ensures forall i, q :: 0 <= i < |a| && q in b ==> q.command.sequence != a[i].command.sequence
  {
    forall i, j | 0 <= i < j < |a|
      ensures a[i].command.sequence != a[j].command.sequence
    {
      assert (a + b)[i] == a[i] && (a + b)[j] == a[j];
    }
    forall i, q | 0 <= i < |a| && q in b
      ensures q.command.sequence != a[i].command.sequence
    {
      var k :| 0 <= k < |b| && b[k] == q;
      assert (a + b)[i] == a[i] && (a + b)[|a| + k] == q;
    }
  }

  /** Under every interleaving of handlers, polls and runner restarts, the store hands a
      node only commands signed for it, no two with the same sequence, and none that is
      still queued. */
  lemma HandedOutAtMostOnce(crypto: Crypto, w: World, node: string)
    requires Reachable(crypto, w)
    ensures var s := DeliveredTo(w, node);
            && SignedFor(s, w.past.signed, node)
            && DistinctNumbers(s)
            && forall i, q :: 0 <= i < |s| && q in QueueOf(w.store, node) ==>
                 q.command.sequence != s[i].command.sequence
  {
    var s, queue := DeliveredTo(w, node), QueueOf(w.store, node);
    ReachableDelivery(crypto, w);
    assert SentInv(s + queue, w.jobs, w.past.signed, node) by { assert Sent(w, node) == s + queue; }
    NumbersAreDistinct(w.sequences, w.past.signed, s + queue, node);
    PartsAreDistinct(s, queue);
    forall i | 0 <= i < |s|
      ensures s[i].command in w.past.signed && s[i].command.nodeId == node
    {
      assert (s + queue)[i] == s[i];
    }
  }
}

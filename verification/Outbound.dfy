/** The outbound runner: poll for a command newer than the last, apply it, report back. */
module Outbound {
  import opened Domain
  import opened Runner
  import opened CommandQueue

  datatype Session = Session(runner: RunnerState, queue: seq<SignedRunnerCommand>, results: seq<DeploymentResult>)

  datatype Tick = Tick(now: int, oracles: Oracles)

  /** Nothing waiting, a command refused or not supported, or a result. */
  datatype Polled = Idle | Errored | Reported(result: DeploymentResult)

  function ReportOf(x: Reaction): seq<DeploymentResult> {
    if x.report.Some? then [x.report.value] else []
  }

  function PollOnce(crypto: Crypto, s: Session, t: Tick): Session {
    var p := PollSpec(s.queue, s.runner.lastSequence);
    if p.handed.None? then s.(queue := p.queue)
    else
      var x := ApplySpec(crypto, s.runner, p.handed.value, t.now, t.oracles);
      Session(x.state, p.queue, s.results + ReportOf(x))
  }

  function PollAll(crypto: Crypto, s: Session, ticks: seq<Tick>): Session {
    if ticks == [] then s else PollOnce(crypto, PollAll(crypto, s, ticks[..|ticks|-1]), ticks[|ticks|-1])
  }

  /** A polled command is never refused as stale. */
  lemma PolledIsNotStale(crypto: Crypto, s: Session, t: Tick)
    requires PollSpec(s.queue, s.runner.lastSequence).handed.Some?
    ensures var polled := PollSpec(s.queue, s.runner.lastSequence).handed.value;
            VerifySpec(crypto, s.runner, polled, t.now).outcome != Err(Sequence)
  {
  }

  /** A poll drops what it skips, and the command it hands out. */
  lemma PollShortens(crypto: Crypto, s: Session, t: Tick)
    ensures var q := PollOnce(crypto, s, t).queue;
            |q| <= |s.queue| && q == s.queue[|s.queue| - |q|..] && (s.queue != [] ==> |q| < |s.queue|)
    ensures PollSpec(s.queue, s.runner.lastSequence).handed.None? ==> PollOnce(crypto, s, t) == s.(queue := [])
  {
  }

  /** Whatever is in the queue, as many polls as it has commands empty it. */
  lemma {:induction false} QueueRunsDry(crypto: Crypto, s: Session, ticks: seq<Tick>)
    ensures |PollAll(crypto, s, ticks).queue| <= if |ticks| <= |s.queue| then |s.queue| - |ticks| else 0
    decreases |ticks|
  {
    if ticks != [] {
      QueueRunsDry(crypto, s, ticks[..|ticks|-1]);
      PollShortens(crypto, PollAll(crypto, s, ticks[..|ticks|-1]), ticks[|ticks|-1]);
    }
  }

  /** A command this runner will accept up to the deadline. */
  ghost predicate Genuine(crypto: Crypto, r: RunnerState, e: SignedRunnerCommand, deadline: int) {
    && e.command.nodeId == r.nodeId && deadline <= e.command.expiresAt
    && e.command.sequence > r.lastSequence && e.command.nonce !in r.seenNonces
    && crypto.verifies(e.command, e.signatureHex)
  }

  ghost predicate GenuineQueue(crypto: Crypto, r: RunnerState, queue: seq<SignedRunnerCommand>, deadline: int) {
    && (forall i :: 0 <= i < |queue| ==> Genuine(crypto, r, queue[i], deadline))
    && (forall i, j :: 0 <= i < j < |queue| ==>
          queue[i].command.sequence < queue[j].command.sequence && queue[i].command.nonce != queue[j].command.nonce)
  }

  /** One poll of a genuine queue accepts its head and leaves a genuine queue. */
  lemma PollTakesHead(crypto: Crypto, s: Session, t: Tick, deadline: int)
    requires GenuineQueue(crypto, s.runner, s.queue, deadline) && t.now < deadline && s.queue != []
    ensures var x := ApplySpec(crypto, s.runner, s.queue[0], t.now, t.oracles);
            && x.accepted
            && PollOnce(crypto, s, t) == Session(x.state, s.queue[1..], s.results + ReportOf(x))
    ensures GenuineQueue(crypto, PollOnce(crypto, s, t).runner, s.queue[1..], deadline)
  {
    assert Genuine(crypto, s.runner, s.queue[0], deadline);
    RefusalChangesNothing(crypto, s.runner, s.queue[0], t.now, t.oracles);
    var r := PollOnce(crypto, s, t).runner;
    assert r.nodeId == s.runner.nodeId;
    forall i | 0 <= i < |s.queue[1..]|
      ensures Genuine(crypto, r, s.queue[1..][i], deadline)
    {
      assert s.queue[1..][i] == s.queue[i + 1] && Genuine(crypto, s.runner, s.queue[i + 1], deadline);
    }
  }

  /** Poll i is answered with command i, and the runner accepts it. */
  ghost predicate AcceptsAt(crypto: Crypto, s: Session, ticks: seq<Tick>, i: nat)
    requires i < |ticks| && i < |s.queue|
  {
    ApplySpec(crypto, PollAll(crypto, s, ticks[..i]).runner, s.queue[i], ticks[i].now, ticks[i].oracles).accepted
  }

  /** After k polls the rest of the queue waits, and is still genuine. */
  ghost predicate Drained(crypto: Crypto, s: Session, ticks: seq<Tick>, deadline: int, k: nat)
    requires k <= |ticks| && k <= |s.queue|
  {
    && PollAll(crypto, s, ticks[..k]).queue == s.queue[k..]
    && GenuineQueue(crypto, PollAll(crypto, s, ticks[..k]).runner, s.queue[k..], deadline)
  }

  lemma DrainOne(crypto: Crypto, s: Session, ticks: seq<Tick>, deadline: int, k: nat)
    requires k < |ticks| && k < |s.queue| && ticks[k].now < deadline && Drained(crypto, s, ticks, deadline, k)
    ensures AcceptsAt(crypto, s, ticks, k) && Drained(crypto, s, ticks, deadline, k + 1)
  {
    assert ticks[..k+1][..k] == ticks[..k];
    assert s.queue[k..][0] == s.queue[k] && s.queue[k..][1..] == s.queue[k+1..];
    PollTakesHead(crypto, PollAll(crypto, s, ticks[..k]), ticks[k], deadline);
  }

  lemma DrainNone(crypto: Crypto, s: Session, ticks: seq<Tick>, deadline: int)
    requires GenuineQueue(crypto, s.runner, s.queue, deadline)
    ensures Drained(crypto, s, ticks, deadline, 0)
  {
    assert ticks[..0] == [] && s.queue[0..] == s.queue;
  }

  lemma {:induction false} DrainSome(crypto: Crypto, s: Session, ticks: seq<Tick>, deadline: int, k: nat)
    requires Drained(crypto, s, ticks, deadline, 0) && k <= |ticks| && k <= |s.queue|
    requires forall i :: 0 <= i < |ticks| ==> ticks[i].now < deadline
    ensures Drained(crypto, s, ticks, deadline, k)
    decreases k
  {
    if k > 0 {
      DrainSome(crypto, s, ticks, deadline, k - 1);
      DrainOne(crypto, s, ticks, deadline, k - 1);
    }
  }

  /** Every genuine queue is worked off completely: poll i accepts command i, whatever
      test, reload and health commands answer, and nothing is skipped or left over. */
  lemma GenuineQueueIsDrained(crypto: Crypto, s: Session, ticks: seq<Tick>, deadline: int, k: nat)
    requires GenuineQueue(crypto, s.runner, s.queue, deadline) && k <= |ticks| && k <= |s.queue|
    requires forall i :: 0 <= i < |ticks| ==> ticks[i].now < deadline
    ensures Drained(crypto, s, ticks, deadline, k)
    ensures forall i :: 0 <= i < k ==> AcceptsAt(crypto, s, ticks, i)
  {
    DrainNone(crypto, s, ticks, deadline);
    DrainSome(crypto, s, ticks, deadline, k);
    forall i | 0 <= i < k
      ensures AcceptsAt(crypto, s, ticks, i)
    {
      DrainSome(crypto, s, ticks, deadline, i);
      DrainOne(crypto, s, ticks, deadline, i);
    }
  }

  // ---------------------------------------------------------------------------
  // The implementation
  // ---------------------------------------------------------------------------

  class OutboundRunner {
    const local: LocalRunner
    const source: RecordingCommandSource

    constructor (local: LocalRunner, source: RecordingCommandSource)
      ensures this.local == local && this.source == source
    {
      this.local, this.source := local, source;
    }

    ghost function View(): Session
      reads local, source
    {
      Session(local.View(), source.commands, source.results)
    }

    method PollApplyOnce(now: int, o: Oracles) returns (polled: Polled)
      modifies local, source
      ensures View() == PollOnce(local.crypto, old(View()), Tick(now, o))
      ensures polled.Idle? <==> PollSpec(old(source.commands), old(local.lastSequence)).handed.None?
      ensures source.results == old(source.results) + (if polled.Reported? then [polled.result] else [])
    {
      var command := source.NextCommand(local.lastSequence);
      if command.None? {
        return Idle;
      }
      var accepted, report := local.Apply(command.value, now, o);
      if report.None? {
        return Errored;
      }
      source.SubmitResult(report.value);
      return Reported(report.value);
    }
  }
}

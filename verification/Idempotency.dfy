/** Compile requests that carry an idempotency key, when handlers do not overlap. */
module Idempotency {
  import opened Domain
  import CommandQueue
  import opened Store
  import opened ControlPlane

  datatype Call =
    | Compile(request: CompileRequest, compiled: Option<string>, previous: Option<string>, stamp: Stamp)
    | Rollback(id: string, stamp: Stamp)
    | Other(op: StoreOp)

  ghost predicate Allowed(s: CpState, call: Call) {
    match call
    case Compile(r, compiled, previous, _) => IsPrevious(s.store.deployments, r.node, previous)
    case Rollback(_, _) => true
    case Other(op) => op.ResultOp? || op.HealthOp? || op.NextOp?
  }

  /** State after a call, its answer when it is a compile, and the apply commands issued. */
  datatype Serving = Serving(state: CpState, answer: Option<Response>, issued: seq<RunnerCommand>)

  ghost function Serve(crypto: Crypto, s: CpState, call: Call): Serving
    requires Allowed(s, call)
  {
    match call
    case Compile(r, compiled, previous, stamp) =>
      if IsReplay(s, r) then Serving(s, Some(s.store.responses[r.key.value]), [])
      else if compiled.None? then Serving(s, None, [])
      else
        var done := CompileBody(crypto, s, r, compiled.value, previous, stamp);
        var response := ResponseFor(crypto, done, compiled.value);
        Serving(Remember(done, r.key, response), Some(response),
                [NewCommand(s.sequences, r.node, stamp.now, stamp.nonce, ApplyKind(crypto, compiled.value))])
    case Rollback(id, stamp) => Serving(RollbackSpec(crypto, s, id, stamp).state, None, [])
    case Other(op) => Serving(s.(store := StoreStep(crypto, s.store, op)), None, [])
  }

  function Sign(commands: seq<RunnerCommand>, signature: string): seq<SignedRunnerCommand> {
    seq(|commands|, i requires 0 <= i < |commands| => SignedRunnerCommand(commands[i], signature))
  }

  /** The issued commands are what the call adds to the queue of the request's node. */
  lemma IssuedIsEnqueued(crypto: Crypto, s: CpState, call: Call)
    requires Allowed(s, call) && call.Compile?
    ensures var x := Serve(crypto, s, call);
            && QueueOf(x.state.store, call.request.node)
               == QueueOf(s.store, call.request.node) + Sign(x.issued, call.stamp.signature)
            && forall n :: n != call.request.node ==> QueueOf(x.state.store, n) == QueueOf(s.store, n)
  {
  }

  /** Polls between compiles take commands off the queues, and change nothing else. */
  lemma PollsTakeCommands(crypto: Crypto, s: CpState, node: string, last: nat)
    ensures var s' := Serve(crypto, s, Other(NextOp(node, last))).state;
            && QueueOf(s'.store, node) == CommandQueue.PollSpec(QueueOf(s.store, node), last).queue
            && (forall n :: n != node ==> QueueOf(s'.store, n) == QueueOf(s.store, n))
            && s'.store.responses == s.store.responses && s'.sequences == s.sequences
  {
  }

  datatype Run = Run(state: CpState, answers: seq<Option<Response>>, issued: seq<RunnerCommand>)

  ghost predicate ValidCalls(crypto: Crypto, start: CpState, calls: seq<Call>)
    decreases |calls|, 0
  {
    calls == [] ||
    (var n := |calls| - 1;
     ValidCalls(crypto, start, calls[..n]) && Allowed(RunCalls(crypto, start, calls[..n]).state, calls[n]))
  }

  ghost function RunCalls(crypto: Crypto, start: CpState, calls: seq<Call>): Run
    requires ValidCalls(crypto, start, calls)
    decreases |calls|, 1
  {
    if calls == [] then Run(start, [], [])
    else
      var r := RunCalls(crypto, start, calls[..|calls|-1]);
      var x := Serve(crypto, r.state, calls[|calls|-1]);
      Run(x.state, r.answers + [x.answer], r.issued + x.issued)
  }

  // ---------------------------------------------------------------------------
  // Replays
  // ---------------------------------------------------------------------------

  /** Replaying a key changes nothing and issues nothing. */
  lemma ReplayChangesNothing(crypto: Crypto, s: CpState, call: Call)
    requires Allowed(s, call) && call.Compile? && IsReplay(s, call.request)
    ensures Serve(crypto, s, call) == Serving(s, Some(s.store.responses[call.request.key.value]), [])
  {
  }

  ghost predicate KeepsResponses(s: CpState, s': CpState) {
    forall k :: k in s.store.responses ==> k in s'.store.responses && s'.store.responses[k] == s.store.responses[k]
  }

  lemma ServeKeepsResponses(crypto: Crypto, s: CpState, call: Call)
    requires Allowed(s, call)
    ensures KeepsResponses(s, Serve(crypto, s, call).state)
    ensures call.Compile? && call.request.key.Some? && Serve(crypto, s, call).answer.Some? ==>
              var k, s' := call.request.key.value, Serve(crypto, s, call).state;
              k in s'.store.responses && s'.store.responses[k] == Serve(crypto, s, call).answer.value
  {
  }

  predicate Keyed(call: Call) {
    call.Compile? && call.request.key.Some?
  }

  /** The answer to this call is what the store remembers under its key. */
  ghost predicate IsRemembered(responses: map<string, Response>, call: Call, answer: Option<Response>) {
    Keyed(call) && answer.Some? ==>
      call.request.key.value in responses && responses[call.request.key.value] == answer.value
  }

  lemma RememberedStays(s: CpState, s': CpState, call: Call, answer: Option<Response>)
    requires KeepsResponses(s, s') && IsRemembered(s.store.responses, call, answer)
    ensures IsRemembered(s'.store.responses, call, answer)
  {
  }

  lemma RememberedNow(crypto: Crypto, s: CpState, call: Call)
    requires Allowed(s, call)
    ensures IsRemembered(Serve(crypto, s, call).state.store.responses, call, Serve(crypto, s, call).answer)
  {
    ServeKeepsResponses(crypto, s, call);
  }

  /** One answer per call; an answered key is remembered with that answer from then on. */
  lemma {:induction false} AnswersAreRemembered(crypto: Crypto, start: CpState, calls: seq<Call>)
    requires ValidCalls(crypto, start, calls)
    ensures var r := RunCalls(crypto, start, calls);
            && |r.answers| == |calls|
            && forall i :: 0 <= i < |calls| ==> IsRemembered(r.state.store.responses, calls[i], r.answers[i])
    decreases |calls|
  {
    if calls != [] {
      var n := |calls| - 1;
      var before, after := RunCalls(crypto, start, calls[..n]), RunCalls(crypto, start, calls);
      AnswersAreRemembered(crypto, start, calls[..n]);
      ServeKeepsResponses(crypto, before.state, calls[n]);
      RememberedNow(crypto, before.state, calls[n]);
      forall i | 0 <= i < n
        ensures IsRemembered(after.state.store.responses, calls[i], after.answers[i])
      {
        assert calls[..n][i] == calls[i] && before.answers[i] == after.answers[i];
        RememberedStays(before.state, after.state, calls[i], before.answers[i]);
      }
    }
  }

  /** Once a keyed compile has been answered, every later request with that key gets
      the very same answer, leaves the state alone and issues nothing. */
  lemma {:induction false} ReplayReturnsFirstAnswer(crypto: Crypto, start: CpState, calls: seq<Call>, replay: Call,
                                                    i: nat)
    requires ValidCalls(crypto, start, calls) && Allowed(RunCalls(crypto, start, calls).state, replay)
    requires i < |calls| && Keyed(calls[i]) && Keyed(replay) && replay.request.key == calls[i].request.key
    requires |RunCalls(crypto, start, calls).answers| == |calls| && RunCalls(crypto, start, calls).answers[i].Some?
    ensures var r := RunCalls(crypto, start, calls);
            Serve(crypto, r.state, replay) == Serving(r.state, r.answers[i], [])
  {
    AnswersAreRemembered(crypto, start, calls);
    assert IsRemembered(RunCalls(crypto, start, calls).state.store.responses, calls[i],
                        RunCalls(crypto, start, calls).answers[i]);
    ReplayChangesNothing(crypto, RunCalls(crypto, start, calls).state, replay);
  }

  // ---------------------------------------------------------------------------
  // Counting
  // ---------------------------------------------------------------------------

  /** Successful compiles without a key. */
  ghost function Keyless(crypto: Crypto, start: CpState, calls: seq<Call>): nat
    requires ValidCalls(crypto, start, calls)
    decreases |calls|
  {
    if calls == [] then 0
    else
      var n := |calls| - 1;
      var x := Serve(crypto, RunCalls(crypto, start, calls[..n]).state, calls[n]);
      Keyless(crypto, start, calls[..n])
          + (if calls[n].Compile? && calls[n].request.key.None? && x.answer.Some? then 1 else 0)
  }

  /** The distinct keys used. */
  function Keys(calls: seq<Call>): set<string> {
    if calls == [] then {}
    else
      var n := |calls| - 1;
      Keys(calls[..n]) + (if Keyed(calls[n]) then {calls[n].request.key.value} else {})
  }

  lemma RememberCounts(s: CpState, key: string, response: Response)
    requires key !in s.store.responses
    ensures |Remember(s, Some(key), response).store.responses| == |s.store.responses| + 1
  {
    var before, after := s.store.responses, s.store.responses[key := response];
    assert after.Keys == before.Keys + {key};
    assert |after.Keys| == |before.Keys| + 1;
  }

  lemma ServeCounts(crypto: Crypto, s: CpState, call: Call)
    requires Allowed(s, call)
    ensures var x := Serve(crypto, s, call);
            var keyless := if call.Compile? && call.request.key.None? && x.answer.Some? then 1 else 0;
            && |x.issued| + |s.store.responses| == keyless + |x.state.store.responses|
            && x.state.store.responses.Keys <= s.store.responses.Keys
                + (if Keyed(call) then {call.request.key.value} else {})
  {
    if Keyed(call) && !IsReplay(s, call.request) && call.compiled.Some? {
      var done := CompileBody(crypto, s, call.request, call.compiled.value, call.previous, call.stamp);
      assert done.store.responses == s.store.responses;
      RememberCounts(done, call.request.key.value, ResponseFor(crypto, done, call.compiled.value));
    }
  }

  /** Apply commands issued in a run: one per keyless success and one per remembered key. */
  lemma {:induction false} CompileCount(crypto: Crypto, start: CpState, calls: seq<Call>)
    requires ValidCalls(crypto, start, calls) && start.store.responses == map[]
    ensures var r := RunCalls(crypto, start, calls);
            && |r.issued| == Keyless(crypto, start, calls) + |r.state.store.responses|
            && r.state.store.responses.Keys <= Keys(calls)
    decreases |calls|
  {
    if calls != [] {
      var n := |calls| - 1;
      CompileCount(crypto, start, calls[..n]);
      ServeCounts(crypto, RunCalls(crypto, start, calls[..n]).state, calls[n]);
    }
  }

  lemma SubsetIsSmaller(a: set<string>, b: set<string>)
    requires a <= b
    ensures |a| <= |b|
  {
    assert b == a + (b - a);
  }

  /** Hence at most one per keyless success and per distinct key. */
  lemma {:induction false} CompileBound(crypto: Crypto, start: CpState, calls: seq<Call>)
    requires ValidCalls(crypto, start, calls) && start.store.responses == map[]
    ensures |RunCalls(crypto, start, calls).issued| <= Keyless(crypto, start, calls) + |Keys(calls)|
  {
    CompileCount(crypto, start, calls);
    var responses := RunCalls(crypto, start, calls).state.store.responses;
    SubsetIsSmaller(responses.Keys, Keys(calls));
    assert |responses| == |responses.Keys|;
  }
}

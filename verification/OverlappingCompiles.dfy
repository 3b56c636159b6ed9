/** Compile requests with idempotency keys when handlers overlap: looking the key up, doing
    the work and recording the answer are separate steps, interleaved arbitrarily. */
module OverlappingCompiles {
  import opened Domain
  import opened Store
  import opened ControlPlane

  /** What a handler carries from step to step. */
  datatype Stage = Looked(request: CompileRequest) | Worked(request: CompileRequest, response: Response)

  datatype Server = Server(cp: CpState, handlers: map<nat, Stage>, used: set<nat>)

  /** Handler ids are never used again. `Refuse` is a request that does not compile, and
      `Elsewhere` any other change to the store, which records no response. */
  datatype Act =
    | LookUp(h: nat, request: CompileRequest)
    | Work(h: nat, request: CompileRequest, config: string, previous: Option<string>, stamp: Stamp)
    | Answer(h: nat, request: CompileRequest)
    | Refuse(h: nat, request: CompileRequest)
    | Elsewhere(cp: CpState)

  ghost predicate Possible(s: Server, act: Act) {
    match act
    case LookUp(h, _) => h !in s.used
    case Work(h, r, _, previous, _) =>
      h in s.handlers && s.handlers[h] == Looked(r) && IsPrevious(s.cp.store.deployments, r.node, previous)
    case Answer(h, r) => h in s.handlers && s.handlers[h].Worked? && s.handlers[h].request == r
    case Refuse(h, r) => h in s.handlers && s.handlers[h] == Looked(r)
    case Elsewhere(cp) => cp.store.responses == s.cp.store.responses
  }

  ghost function Do(crypto: Crypto, s: Server, act: Act): Server
    requires Possible(s, act)
  {
    match act
    case LookUp(h, r) =>
      Server(s.cp, if IsReplay(s.cp, r) then s.handlers else s.handlers[h := Looked(r)], s.used + {h})
    case Work(h, r, config, previous, stamp) =>
      var cp := CompileBody(crypto, s.cp, r, config, previous, stamp);
      Server(cp, s.handlers[h := Worked(r, ResponseFor(crypto, cp, config))], s.used)
    case Answer(h, r) => Server(Remember(s.cp, r.key, s.handlers[h].response), s.handlers - {h}, s.used)
    case Refuse(h, _) => s.(handlers := s.handlers - {h})
    case Elsewhere(cp) => s.(cp := cp)
  }

  /** The handler an act belongs to. */
  function HandlerOf(act: Act): Option<nat> {
    if act.Elsewhere? then None else Some(act.h)
  }

  /** A handler that has answered or refused does nothing more; and whatever else happens to
      the store can happen in between. */
  lemma HandlersEnd(crypto: Crypto, s: Server, act: Act, later: Act)
    requires Possible(s, act) && s.handlers.Keys <= s.used
    ensures Do(crypto, s, act).handlers.Keys <= Do(crypto, s, act).used
    ensures (act.Answer? || act.Refuse?) && HandlerOf(later) == HandlerOf(act) ==> !Possible(Do(crypto, s, act), later)
    ensures act.Elsewhere? ==> Do(crypto, s, act).cp == act.cp
  {
  }

  ghost predicate Legal(crypto: Crypto, start: CpState, acts: seq<Act>)
    decreases |acts|, 0
  {
    acts == [] ||
    (var n := |acts| - 1; Legal(crypto, start, acts[..n]) && Possible(After(crypto, start, acts[..n]), acts[n]))
  }

  ghost function After(crypto: Crypto, start: CpState, acts: seq<Act>): Server
    requires Legal(crypto, start, acts)
    decreases |acts|, 1
  {
    if acts == [] then Server(start, map[], {})
    else Do(crypto, After(crypto, start, acts[..|acts|-1]), acts[|acts|-1])
  }

  function CommandOf(crypto: Crypto, s: Server, act: Act): RunnerCommand
    requires act.Work?
  {
    NewCommand(s.cp.sequences, act.request.node, act.stamp.now, act.stamp.nonce, ApplyKind(crypto, act.config))
  }

  /** The work step is what issues the command: one more on the node's queue. */
  lemma WorkIssuesOne(crypto: Crypto, s: Server, act: Act)
    requires Possible(s, act) && act.Work?
    ensures QueueOf(Do(crypto, s, act).cp.store, act.request.node)
         == QueueOf(s.cp.store, act.request.node)
             + [SignedRunnerCommand(CommandOf(crypto, s, act), act.stamp.signature)]
  {
  }

  // ---------------------------------------------------------------------------
  // Reading the steps
  // ---------------------------------------------------------------------------

  predicate LooksUp(act: Act, key: string, h: nat) {
    act.LookUp? && act.request.key == Some(key) && act.h == h
  }

  predicate WorksOn(act: Act, key: string) {
    act.Work? && act.request.key == Some(key)
  }

  predicate Records(act: Act, key: string) {
    act.Answer? && act.request.key == Some(key)
  }

  ghost predicate Recorded(acts: seq<Act>, key: string) {
    exists i :: 0 <= i < |acts| && Records(acts[i], key)
  }

  /** The handler looked the key up before any answer to it was recorded. */
  ghost predicate LookedEarly(acts: seq<Act>, key: string, h: nat) {
    exists i :: 0 <= i < |acts| && LooksUp(acts[i], key, h) && !Recorded(acts[..i], key)
  }

  /** The commands issued under a key. */
  function Issued(acts: seq<Act>, key: string): nat {
    if acts == [] then 0 else Issued(acts[..|acts|-1], key) + (if WorksOn(acts[|acts|-1], key) then 1 else 0)
  }

  /** The handlers that got as far as issuing one. */
  function Workers(acts: seq<Act>, key: string): set<nat> {
    if acts == [] then {}
    else Workers(acts[..|acts|-1], key) + (if WorksOn(acts[|acts|-1], key) then {acts[|acts|-1].h} else {})
  }

  lemma {:induction false} WorkersAre(acts: seq<Act>, key: string, h: nat)
    ensures h in Workers(acts, key) <==> exists i :: 0 <= i < |acts| && WorksOn(acts[i], key) && acts[i].h == h
    decreases |acts|
  {
    if acts != [] {
      var front := acts[..|acts|-1];
      WorkersAre(front, key, h);
      assert forall i :: 0 <= i < |front| ==> front[i] == acts[i];
    }
  }

  lemma RecordedAppend(acts: seq<Act>, act: Act, key: string)
    ensures Recorded(acts + [act], key) <==> Recorded(acts, key) || Records(act, key)
  {
    var all := acts + [act];
    assert forall i :: 0 <= i < |acts| ==> all[i] == acts[i];
    assert all[|acts|] == act;
  }

  lemma EarlyStays(acts: seq<Act>, act: Act, key: string, h: nat)
    requires LookedEarly(acts, key, h)
    ensures LookedEarly(acts + [act], key, h)
  {
    var i :| 0 <= i < |acts| && LooksUp(acts[i], key, h) && !Recorded(acts[..i], key);
    assert (acts + [act])[i] == acts[i] && (acts + [act])[..i] == acts[..i];
  }

  // ---------------------------------------------------------------------------
  // What every interleaving keeps
  // ---------------------------------------------------------------------------

  /** Handlers under way on the key looked it up early, and none that has only looked it up
      has worked yet. */
  ghost predicate HandlersInv(handlers: map<nat, Stage>, acts: seq<Act>, key: string) {
    forall h :: h in handlers ==>
      && (handlers[h].request.key == Some(key) ==> LookedEarly(acts, key, h))
      && (handlers[h].Looked? ==> h !in Workers(acts, key))
  }

  /** Those that worked looked it up early, and worked once. */
  ghost predicate WorkersInv(used: set<nat>, acts: seq<Act>, key: string) {
    && (forall h :: h in Workers(acts, key) ==> LookedEarly(acts, key, h) && h in used)
    && Issued(acts, key) == |Workers(acts, key)|
  }

  /** A response is stored exactly when one was recorded. */
  ghost predicate KeyInv(s: Server, acts: seq<Act>, key: string) {
    && (key in s.cp.store.responses <==> Recorded(acts, key))
    && HandlersInv(s.handlers, acts, key)
    && WorkersInv(s.used, acts, key)
    && s.handlers.Keys <= s.used
  }

  lemma LastOf(acts: seq<Act>, act: Act)
    ensures (acts + [act])[..|acts|] == acts && (acts + [act])[|acts|] == act
  {
  }

  lemma EarlyAllStay(acts: seq<Act>, act: Act, key: string)
    ensures forall h :: LookedEarly(acts, key, h) ==> LookedEarly(acts + [act], key, h)
  {
    forall h | LookedEarly(acts, key, h)
      ensures LookedEarly(acts + [act], key, h)
    {
      EarlyStays(acts, act, key, h);
    }
  }

  /** A step without work on the key leaves its workers alone. */
  lemma {:induction false} IdleWorkers(used: set<nat>, acts: seq<Act>, act: Act, key: string)
    requires !WorksOn(act, key)
    ensures Workers(acts + [act], key) == Workers(acts, key) && Issued(acts + [act], key) == Issued(acts, key)
    ensures WorkersInv(used, acts, key) ==> WorkersInv(used, acts + [act], key)
  {
    LastOf(acts, act);
    EarlyAllStay(acts, act, key);
  }

  lemma IdleHandlers(handlers: map<nat, Stage>, handlers': map<nat, Stage>, acts: seq<Act>, act: Act, key: string)
    requires HandlersInv(handlers, acts, key) && !WorksOn(act, key)
    requires forall h :: h in handlers' ==> h in handlers && handlers'[h] == handlers[h]
    ensures HandlersInv(handlers', acts + [act], key)
  {
    EarlyAllStay(acts, act, key);
    IdleWorkers({}, acts, act, key);
  }

  lemma NewHandler(handlers: map<nat, Stage>, used: set<nat>, acts: seq<Act>, act: Act, key: string)
    requires HandlersInv(handlers, acts, key) && WorkersInv(used, acts, key) && act.LookUp? && act.h !in used
    requires act.request.key == Some(key) ==> !Recorded(acts, key)
    ensures HandlersInv(handlers[act.h := Looked(act.request)], acts + [act], key)
  {
    var all := acts + [act];
    LastOf(acts, act);
    EarlyAllStay(acts, act, key);
    IdleWorkers(used, acts, act, key);
    if act.request.key == Some(key) {
      assert LooksUp(all[|acts|], key, act.h) && !Recorded(all[..|acts|], key);
    }
  }

  /** A worker that has not worked before joins the list. */
  lemma {:induction false} NewWorker(used: set<nat>, acts: seq<Act>, act: Act, key: string)
    requires WorkersInv(used, acts, key) && WorksOn(act, key)
    requires act.h in used && act.h !in Workers(acts, key) && LookedEarly(acts, key, act.h)
    ensures Workers(acts + [act], key) == Workers(acts, key) + {act.h}
    ensures WorkersInv(used, acts + [act], key)
  {
    LastOf(acts, act);
    EarlyAllStay(acts, act, key);
  }

  lemma {:induction false} WorkedHandler(handlers: map<nat, Stage>, acts: seq<Act>, act: Act, key: string,
                                         response: Response)
    requires HandlersInv(handlers, acts, key) && act.Work? && act.h in handlers
    requires handlers[act.h] == Looked(act.request)
    requires Workers(acts + [act], key) <= Workers(acts, key) + {act.h}
    ensures HandlersInv(handlers[act.h := Worked(act.request, response)], acts + [act], key)
  {
    EarlyAllStay(acts, act, key);
  }

  lemma HandlerWorks(handlers: map<nat, Stage>, used: set<nat>, acts: seq<Act>, act: Act, key: string,
                     response: Response)
    requires HandlersInv(handlers, acts, key) && WorkersInv(used, acts, key) && handlers.Keys <= used
    requires act.Work? && act.h in handlers && handlers[act.h] == Looked(act.request)
    ensures HandlersInv(handlers[act.h := Worked(act.request, response)], acts + [act], key)
    ensures WorkersInv(used, acts + [act], key)
  {
    if WorksOn(act, key) {
      NewWorker(used, acts, act, key);
    } else {
      IdleWorkers(used, acts, act, key);
    }
    WorkedHandler(handlers, acts, act, key, response);
  }

  lemma LookUpKeeps(crypto: Crypto, s: Server, acts: seq<Act>, act: Act, key: string)
    requires KeyInv(s, acts, key) && Possible(s, act) && act.LookUp?
    ensures KeyInv(Do(crypto, s, act), acts + [act], key)
  {
    RecordedAppend(acts, act, key);
    IdleWorkers(s.used, acts, act, key);
    if IsReplay(s.cp, act.request) {
      IdleHandlers(s.handlers, s.handlers, acts, act, key);
    } else {
      NewHandler(s.handlers, s.used, acts, act, key);
    }
  }

  lemma WorkKeeps(crypto: Crypto, s: Server, acts: seq<Act>, act: Act, key: string)
    requires KeyInv(s, acts, key) && Possible(s, act) && act.Work?
    ensures KeyInv(Do(crypto, s, act), acts + [act], key)
  {
    var s' := Do(crypto, s, act);
    RecordedAppend(acts, act, key);
    assert s'.cp.store.responses == s.cp.store.responses;
    HandlerWorks(s.handlers, s.used, acts, act, key, s'.handlers[act.h].response);
  }

  lemma AnswerKeeps(crypto: Crypto, s: Server, acts: seq<Act>, act: Act, key: string)
    requires KeyInv(s, acts, key) && Possible(s, act) && !act.LookUp? && !act.Work?
    ensures KeyInv(Do(crypto, s, act), acts + [act], key)
  {
    RecordedAppend(acts, act, key);
    IdleWorkers(s.used, acts, act, key);
    IdleHandlers(s.handlers, Do(crypto, s, act).handlers, acts, act, key);
  }

  lemma {:induction false} RunKeeps(crypto: Crypto, start: CpState, acts: seq<Act>, key: string)
    requires Legal(crypto, start, acts) && key !in start.store.responses
    ensures KeyInv(After(crypto, start, acts), acts, key)
    decreases |acts|
  {
    if acts != [] {
      var front, act := acts[..|acts|-1], acts[|acts|-1];
      RunKeeps(crypto, start, front, key);
      var s := After(crypto, start, front);
      assert front + [act] == acts;
      if act.LookUp? {
        LookUpKeeps(crypto, s, front, act, key);
      } else if act.Work? {
        WorkKeeps(crypto, s, front, act, key);
      } else {
        AnswerKeeps(crypto, s, front, act, key);
      }
    }
  }

  // ---------------------------------------------------------------------------
  // How many commands a key can cost
  // ---------------------------------------------------------------------------

  /** The handlers that went through although another may have, too: they looked the key up
      before the first answer to it was recorded, and did the work. */
  ghost predicate WentThrough(acts: seq<Act>, key: string, h: nat) {
    h in Workers(acts, key) && LookedEarly(acts, key, h)
  }

  /** Over every interleaving, the commands issued under a key number the handlers that
      looked it up before the first answer was recorded and did the work; no other handler
      issues one. */
  lemma {:induction false} CommandsPerKey(crypto: Crypto, start: CpState, acts: seq<Act>, key: string)
    requires Legal(crypto, start, acts) && key !in start.store.responses
    ensures Issued(acts, key) == |set h | h in Workers(acts, key) && WentThrough(acts, key, h)|
    ensures forall h :: h in Workers(acts, key) ==> WentThrough(acts, key, h)
  {
    RunKeeps(crypto, start, acts, key);
    assert Workers(acts, key) == set h | h in Workers(acts, key) && WentThrough(acts, key, h);
  }

  /** There always is a deployment to count as previous, or none at all. */
  lemma {:induction false} SomePrevious(d: Deployments, node: string, among: set<string>) returns (p: Option<string>)
    requires among <= d.plans.Keys
    ensures p.Some? ==> p.value in among && SucceededOn(d, node, p.value)
    ensures forall q :: q in among && SucceededOn(d, node, q) ==>
              p.Some? && d.plans[q].createdAt <= d.plans[p.value].createdAt
    decreases |among|
  {
    if among == {} {
      p := None;
    } else {
      var q :| q in among;
      p := SomePrevious(d, node, among - {q});
      if SucceededOn(d, node, q) && (p.None? || d.plans[p.value].createdAt <= d.plans[q].createdAt) {
        p := Some(q);
      }
    }
  }

  lemma PreviousExists(d: Deployments, node: string) returns (p: Option<string>)
    ensures IsPrevious(d, node, p)
  {
    p := SomePrevious(d, node, d.plans.Keys);
  }

  function Overlap(g: nat, h: nat, r: CompileRequest, config: string, p: Option<string>, q: Option<string>,
                   stamp: Stamp): seq<Act> {
    [LookUp(g, r)] + [LookUp(h, r)] + [Work(g, r, config, p, stamp)] + [Work(h, r, config, q, stamp)]
  }

  lemma {:induction false} BothLookUp(crypto: Crypto, start: CpState, g: nat, h: nat, r: CompileRequest)
    requires g != h && !IsReplay(start, r)
    ensures var acts := [LookUp(g, r)] + [LookUp(h, r)];
            && Legal(crypto, start, acts)
            && After(crypto, start, acts) == Server(start, map[g := Looked(r), h := Looked(r)], {g, h})
  {
    assert [] + [LookUp(g, r)] == [LookUp(g, r)];
    LegalAppend(crypto, start, [], LookUp(g, r));
    LegalAppend(crypto, start, [LookUp(g, r)], LookUp(h, r));
  }

  lemma {:induction false} BothWork(crypto: Crypto, start: CpState, acts: seq<Act>, x: Act, y: Act)
    requires Legal(crypto, start, acts) && x.Work? && y.Work? && x.h != y.h
    requires var s := After(crypto, start, acts);
             && x.h in s.handlers && s.handlers[x.h] == Looked(x.request)
             && y.h in s.handlers && s.handlers[y.h] == Looked(y.request)
             && IsPrevious(s.cp.store.deployments, x.request.node, x.previous)
             && IsPrevious(CompileBody(crypto, s.cp, x.request, x.config, x.previous, x.stamp).store.deployments,
                           y.request.node, y.previous)
    ensures Legal(crypto, start, acts + [x] + [y])
  {
    LegalAppend(crypto, start, acts, x);
    LegalAppend(crypto, start, acts + [x], y);
  }

  lemma {:induction false} OverlapCounts(x1: Act, x2: Act, x3: Act, x4: Act, key: string)
    requires x1.LookUp? && x2.LookUp? && WorksOn(x3, key) && WorksOn(x4, key)
    ensures Issued([x1] + [x2] + [x3] + [x4], key) == 2
  {
    assert [] + [x1] == [x1];
    IssuedAppend([], x1, key);
    IssuedAppend([x1], x2, key);
    IssuedAppend([x1] + [x2], x3, key);
    IssuedAppend([x1] + [x2] + [x3], x4, key);
  }

  /** Two handlers that both look the key up first both issue: from any state, for a key
      not yet answered, the run is there. */
  lemma {:induction false} OverlapIssuesTwo(crypto: Crypto, start: CpState, g: nat, h: nat, r: CompileRequest,
                                            key: string, config: string, p: Option<string>, q: Option<string>,
                                            stamp: Stamp)
    requires g != h && r.key == Some(key) && key !in start.store.responses
    requires IsPrevious(start.store.deployments, r.node, p)
    requires IsPrevious(CompileBody(crypto, start, r, config, p, stamp).store.deployments, r.node, q)
    ensures Legal(crypto, start, Overlap(g, h, r, config, p, q, stamp))
    ensures Issued(Overlap(g, h, r, config, p, q, stamp), key) == 2
  {
    var x, y := Work(g, r, config, p, stamp), Work(h, r, config, q, stamp);
    BothLookUp(crypto, start, g, h, r);
    BothWork(crypto, start, [LookUp(g, r)] + [LookUp(h, r)], x, y);
    OverlapCounts(LookUp(g, r), LookUp(h, r), x, y, key);
  }

  /** Only these handlers look the key up before the first answer to it is recorded. */
  ghost predicate OnlyEarly(acts: seq<Act>, key: string, hs: set<nat>) {
    forall h :: LookedEarly(acts, key, h) ==> h in hs
  }

  lemma OverlapIsEarly(g: nat, h: nat, r: CompileRequest, key: string, config: string, p: Option<string>,
                       q: Option<string>, stamp: Stamp, hs: set<nat>)
    requires g in hs && h in hs
    ensures OnlyEarly(Overlap(g, h, r, config, p, q, stamp), key, hs)
  {
    var acts := Overlap(g, h, r, config, p, q, stamp);
    forall x | LookedEarly(acts, key, x)
      ensures x in hs
    {
      var i :| 0 <= i < |acts| && LooksUp(acts[i], key, x) && !Recorded(acts[..i], key);
      assert acts[0] == LookUp(g, r) && acts[1] == LookUp(h, r) && acts[2].Work? && acts[3].Work?;
    }
  }

  /** However handlers interleave. */
  ghost predicate AtMostOneCommand(crypto: Crypto, start: CpState, key: string, hs: set<nat>) {
    forall acts :: Legal(crypto, start, acts) && OnlyEarly(acts, key, hs) ==> Issued(acts, key) <= 1
  }

  lemma SmallerSet(a: set<nat>, b: set<nat>)
    requires a <= b
    ensures |a| <= |b|
  {
    assert b == a + (b - a);
  }

  lemma TwoOf(hs: set<nat>) returns (g: nat, h: nat)
    requires |hs| > 1
    ensures g in hs && h in hs && g != h
  {
    g :| g in hs;
    var rest := hs - {g};
    assert |rest| == |hs| - 1;
    h :| h in rest;
  }

  /** A condition on lookups alone: whatever else happens, a key that is not yet answered
      costs at most one command if and only if at most one handler looks it up before the
      first answer to it is recorded. */
  lemma OneCommandIff(crypto: Crypto, start: CpState, key: string, hs: set<nat>)
    requires key !in start.store.responses
    ensures AtMostOneCommand(crypto, start, key, hs) <==> |hs| <= 1
  {
    if |hs| <= 1 {
      forall acts | Legal(crypto, start, acts) && OnlyEarly(acts, key, hs)
        ensures Issued(acts, key) <= 1
      {
        RunKeeps(crypto, start, acts, key);
        SmallerSet(Workers(acts, key), hs);
      }
    } else {
      var g, h := TwoOf(hs);
      var r, stamp := CompileRequest(Some(key), "", ""), Stamp(0, "", "", "");
      var p := PreviousExists(start.store.deployments, r.node);
      var q := PreviousExists(CompileBody(crypto, start, r, "", p, stamp).store.deployments, r.node);
      OverlapIssuesTwo(crypto, start, g, h, r, key, "", p, q, stamp);
      OverlapIsEarly(g, h, r, key, "", p, q, stamp, hs);
    }
  }

  lemma {:induction false} LegalAppend(crypto: Crypto, start: CpState, acts: seq<Act>, act: Act)
    requires Legal(crypto, start, acts) && Possible(After(crypto, start, acts), act)
    ensures Legal(crypto, start, acts + [act])
    ensures After(crypto, start, acts + [act]) == Do(crypto, After(crypto, start, acts), act)
  {
    LastOf(acts, act);
  }

  lemma {:induction false} IssuedAppend(acts: seq<Act>, act: Act, key: string)
    ensures Issued(acts + [act], key) == Issued(acts, key) + if WorksOn(act, key) then 1 else 0
  {
    LastOf(acts, act);
  }
}

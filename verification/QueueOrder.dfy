/** Exactly which enqueue orders are safe: when no command can be lost, and when the deque
    and the table cannot be told apart. */
module QueueOrder {
  import opened Domain
  import opened CommandQueue

  predicate Ascending(es: seq<SignedRunnerCommand>) {
    forall i, j :: 0 <= i < j < |es| ==> es[i].command.sequence < es[j].command.sequence
  }

  /** Sequences are unsigned 64-bit numbers, and the control plane starts at 1. */
  predicate Sequences(es: seq<SignedRunnerCommand>) {
    forall i :: 0 <= i < |es| ==> 0 < es[i].command.sequence < 2 * TwoTo63
  }

  /** The sequences also fit the table's signed column. */
  predicate Fit(es: seq<SignedRunnerCommand>) {
    forall i :: 0 <= i < |es| ==> es[i].command.sequence < TwoTo63
  }

  /** Every enqueued command was handed out or still waits, in order. */
  ghost predicate LosesNothing(ops: seq<Op>) {
    Enqueued(ops) == Handed(RunDeque(ops).answers) + RunDeque(ops).queue
  }

  ghost predicate RunsAgree(ops: seq<Op>) {
    RunDeque(ops).answers == RunTable(ops).answers
  }

  ghost predicate PollsBelow(ops: seq<Op>, bound: nat) {
    forall i :: 0 <= i < |ops| && ops[i].PollAfter? ==> ops[i].last < bound
  }

  // ---------------------------------------------------------------------------
  // What is enqueued decides the order of the enqueue operations
  // ---------------------------------------------------------------------------

  lemma {:induction false} EnqueueIsEnqueued(ops: seq<Op>, i: nat)
    requires i < |ops| && ops[i].Enqueue?
    ensures ops[i].envelope in Enqueued(ops)
    decreases |ops|
  {
    if i < |ops| - 1 {
      EnqueueIsEnqueued(ops[..|ops|-1], i);
    }
  }

  lemma {:induction false} AscendingIsIncreasing(ops: seq<Op>)
    requires Ascending(Enqueued(ops))
    ensures IncreasingEnqueues(ops)
    decreases |ops|
  {
    if ops != [] {
      var front, last := ops[..|ops|-1], ops[|ops|-1];
      var es := Enqueued(front);
      assert forall i :: 0 <= i < |es| ==> es[i] == Enqueued(ops)[i];
      AscendingIsIncreasing(front);
      if last.Enqueue? {
        forall i | 0 <= i < |front| && front[i].Enqueue?
          ensures front[i].envelope.command.sequence < last.envelope.command.sequence
        {
          EnqueueIsEnqueued(front, i);
          var k :| 0 <= k < |es| && es[k] == front[i].envelope;
          assert Enqueued(ops)[k] == es[k] && Enqueued(ops)[|es|] == last.envelope;
        }
      }
    }
  }

  lemma {:induction false} EnqueuesAre(ops: seq<Op>, i: nat)
    requires Sequences(Enqueued(ops)) && i < |ops| && ops[i].Enqueue?
    ensures ops[i].envelope.command.sequence > 0
    ensures Fit(Enqueued(ops)) ==> ops[i].envelope.command.sequence < TwoTo63
  {
    EnqueueIsEnqueued(ops, i);
    var k :| 0 <= k < |Enqueued(ops)| && Enqueued(ops)[k] == ops[i].envelope;
  }

  lemma {:induction false} AdjacentSuffices(es: seq<SignedRunnerCommand>)
    requires forall k :: 0 <= k < |es| - 1 ==> es[k].command.sequence < es[k + 1].command.sequence
    ensures Ascending(es)
    decreases |es|
  {
    if es != [] {
      var n := |es| - 1;
      AdjacentSuffices(es[..n]);
      assert forall i :: 0 <= i < n ==> es[..n][i] == es[i];
      forall i | 0 <= i < n
        ensures es[i].command.sequence < es[n].command.sequence
      {
        assert es[n - 1].command.sequence < es[n - 1 + 1].command.sequence;
        assert i < n - 1 ==> es[..n][i].command.sequence < es[..n][n - 1].command.sequence;
      }
    }
  }

  // ---------------------------------------------------------------------------
  // The run that shows everything: enqueue all, then poll with 0
  // ---------------------------------------------------------------------------

  function EnqueueAll(es: seq<SignedRunnerCommand>): seq<Op> {
    if es == [] then [] else EnqueueAll(es[..|es|-1]) + [Enqueue(es[|es|-1])]
  }

  function Drain(es: seq<SignedRunnerCommand>, n: nat): seq<Op> {
    if n == 0 then EnqueueAll(es) else Drain(es, n - 1) + [PollAfter(0)]
  }

  function Answers(es: seq<SignedRunnerCommand>): (r: seq<Option<SignedRunnerCommand>>)
    ensures |r| == |es| && forall i :: 0 <= i < |es| ==> r[i] == Some(es[i])
  {
    seq(|es|, i requires 0 <= i < |es| => Some(es[i]))
  }

  /** Nothing in it reports a sequence. */
  predicate PollsZero(ops: seq<Op>) {
    forall i :: 0 <= i < |ops| && ops[i].PollAfter? ==> ops[i].last == 0
  }

  lemma {:induction false} EnqueuedAppend(ops: seq<Op>, op: Op)
    ensures Enqueued(ops + [op]) == if op.Enqueue? then Enqueued(ops) + [op.envelope] else Enqueued(ops)
  {
    assert (ops + [op])[..|ops|] == ops;
  }

  ghost predicate AllWait(es: seq<SignedRunnerCommand>) {
    RunDeque(EnqueueAll(es)) == DequeRun(es, []) && Enqueued(EnqueueAll(es)) == es && PollsZero(EnqueueAll(es))
  }

  lemma {:induction false} EnqueueAllAppend(es: seq<SignedRunnerCommand>, e: SignedRunnerCommand)
    ensures EnqueueAll(es + [e]) == EnqueueAll(es) + [Enqueue(e)]
  {
    assert (es + [e])[..|es|] == es;
  }

  lemma OneMoreWaits(es: seq<SignedRunnerCommand>, e: SignedRunnerCommand)
    requires AllWait(es)
    ensures AllWait(es + [e])
  {
    EnqueueAllAppend(es, e);
    DequeAppend(EnqueueAll(es), Enqueue(e));
    EnqueuedAppend(EnqueueAll(es), Enqueue(e));
  }

  lemma EnqueueAllRuns(es: seq<SignedRunnerCommand>)
    ensures AllWait(es)
  {
    var p := (k: nat) => k <= |es| ==> AllWait(es[..k]);
    forall k: nat
      ensures Steps(p, k)
    {
      if k < |es| && AllWait(es[..k]) {
        OneMoreWaits(es[..k], es[k]);
        assert es[..k] + [es[k]] == es[..k+1];
      }
    }
    assert AllWait(es[..0]);
    Climb(p, |es|);
    assert es[..|es|] == es;
  }

  lemma PollZeroTakesHead(queue: seq<SignedRunnerCommand>)
    requires queue != [] && queue[0].command.sequence > 0
    ensures PollSpec(queue, 0) == Poll(queue[1..], Some(queue[0]))
  {
  }

  lemma {:induction false} DrainEnqueues(es: seq<SignedRunnerCommand>, n: nat)
    ensures Enqueued(Drain(es, n)) == es && PollsZero(Drain(es, n))
    decreases n
  {
    if n == 0 {
      EnqueueAllRuns(es);
    } else {
      DrainEnqueues(es, n - 1);
      EnqueuedAppend(Drain(es, n - 1), PollAfter(0));
    }
  }

  lemma AnswersAppend(es: seq<SignedRunnerCommand>, n: nat)
    requires n < |es|
    ensures Answers(es[..n]) + [Some(es[n])] == Answers(es[..n+1])
  {
  }

  lemma {:induction false} DrainStep(es: seq<SignedRunnerCommand>, n: nat, ops: seq<Op>)
    requires Sequences(es) && n < |es| && RunDeque(ops) == DequeRun(es[n..], Answers(es[..n]))
    ensures RunDeque(ops + [PollAfter(0)]) == DequeRun(es[n+1..], Answers(es[..n+1]))
  {
    DequeAppend(ops, PollAfter(0));
    var queue := es[n..];
    assert queue[0] == es[n] && queue[1..] == es[n+1..];
    PollZeroTakesHead(queue);
    AnswersAppend(es, n);
  }

  ghost predicate DrainedTo(es: seq<SignedRunnerCommand>, n: nat) {
    n <= |es| ==> RunDeque(Drain(es, n)) == DequeRun(es[n..], Answers(es[..n]))
  }

  lemma NothingDrained(es: seq<SignedRunnerCommand>)
    ensures DrainedTo(es, 0)
  {
    EnqueueAllRuns(es);
    assert es[0..] == es && Answers(es[..0]) == [];
  }

  lemma OneMoreDrained(es: seq<SignedRunnerCommand>, n: nat)
    requires Sequences(es) && DrainedTo(es, n)
    ensures DrainedTo(es, n + 1)
  {
    if n < |es| {
      DrainStep(es, n, Drain(es, n));
    }
  }

  lemma {:induction false} DrainRuns(es: seq<SignedRunnerCommand>, n: nat)
    requires Sequences(es) && n <= |es|
    ensures RunDeque(Drain(es, n)) == DequeRun(es[n..], Answers(es[..n]))
  {
    var p := (k: nat) => DrainedTo(es, k);
    NothingDrained(es);
    forall k: nat
      ensures Steps(p, k)
    {
      if DrainedTo(es, k) {
        OneMoreDrained(es, k);
      }
    }
    Climb(p, n);
  }

  lemma {:induction false} HandedAnswers(es: seq<SignedRunnerCommand>)
    ensures Handed(Answers(es)) == es
    decreases |es|
  {
    if es != [] {
      var front, e := es[..|es|-1], es[|es|-1];
      HandedAnswers(front);
      assert Answers(es) == Answers(front) + [Some(e)];
      HandedAppend(Answers(front), Some(e));
      assert front + [e] == es;
    }
  }

  // ---------------------------------------------------------------------------
  // Nothing is lost exactly in ascending order
  // ---------------------------------------------------------------------------

  /** Everything is enqueued, k + 1 commands are taken, and the last of them is reported. */
  function Report(es: seq<SignedRunnerCommand>, k: nat): seq<Op>
    requires k < |es|
  {
    Drain(es, k + 1) + [PollAfter(es[k].command.sequence)]
  }

  lemma ReportIsHonest(es: seq<SignedRunnerCommand>, k: nat)
    requires Sequences(es) && k < |es|
    ensures HonestPolls(Report(es, k)) && Enqueued(Report(es, k)) == es
  {
    var ops, drained := Report(es, k), Drain(es, k + 1);
    DrainRuns(es, k + 1);
    DrainEnqueues(es, k + 1);
    EnqueuedAppend(drained, PollAfter(es[k].command.sequence));
    HandedAnswers(es[..k+1]);
    forall i | 0 <= i < |ops| && ops[i].PollAfter?
      ensures
        || ops[i].last == 0
        || exists e :: e in Handed(RunDeque(ops[..i]).answers) && e.command.sequence == ops[i].last
    {
      if i < |drained| {
        assert ops[i] == drained[i];
      } else {
        assert ops[..i] == drained;
        assert es[..k+1][k] == es[k];
      }
    }
  }

  /** Where the order descends, the honest report of the larger sequence makes the store
      drop the smaller one unseen. */
  lemma DescentLosesACommand(es: seq<SignedRunnerCommand>, k: nat)
    requires Sequences(es) && k + 1 < |es| && es[k].command.sequence >= es[k + 1].command.sequence
    ensures !LosesNothing(Report(es, k))
  {
    var last, queue := es[k].command.sequence, es[k+1..];
    DrainRuns(es, k + 1);
    ReportIsHonest(es, k);
    DequeAppend(Drain(es, k + 1), PollAfter(last));
    var p := PollSpec(queue, last);
    HandedAppend(Answers(es[..k+1]), p.handed);
    HandedAnswers(es[..k+1]);
    assert queue[0] == es[k + 1] && StaleCount(queue, last) >= 1;
    assert |AsSeq(p.handed)| + |p.queue| < |queue|;
    assert RunDeque(Report(es, k)) == DequeRun(p.queue, Answers(es[..k+1]) + [p.handed]);
  }

  lemma {:induction false} OrderLosesNothing(ops: seq<Op>)
    requires Sequences(Enqueued(ops)) && Ascending(Enqueued(ops)) && HonestPolls(ops)
    ensures LosesNothing(ops)
  {
    AscendingIsIncreasing(ops);
    forall i | 0 <= i < |ops| && ops[i].Enqueue?
      ensures ops[i].envelope.command.sequence > 0
    {
      EnqueuesAre(ops, i);
    }
    NothingIsLost(ops);
  }

  ghost predicate NeverLoses(es: seq<SignedRunnerCommand>) {
    forall ops :: Enqueued(ops) == es && HonestPolls(ops) ==> LosesNothing(ops)
  }

  /** Commands enqueued in this order are safe from being dropped unseen, however honest
      polls fall in between, if and only if their sequences ascend. */
  lemma NothingIsLostIff(es: seq<SignedRunnerCommand>)
    requires Sequences(es)
    ensures NeverLoses(es) <==> Ascending(es)
  {
    if Ascending(es) {
      forall ops | Enqueued(ops) == es && HonestPolls(ops)
        ensures LosesNothing(ops)
      {
        OrderLosesNothing(ops);
      }
    } else {
      if forall k :: 0 <= k < |es| - 1 ==> es[k].command.sequence < es[k + 1].command.sequence {
        AdjacentSuffices(es);
      }
      var k :| 0 <= k < |es| - 1 && es[k].command.sequence >= es[k + 1].command.sequence;
      DescentLosesACommand(es, k);
      ReportIsHonest(es, k);
    }
  }

  // ---------------------------------------------------------------------------
  // The queues agree exactly in ascending order below 2^63
  // ---------------------------------------------------------------------------

  function Signed(e: SignedRunnerCommand): int {
    AsI64(e.command.sequence)
  }

  ghost predicate RowsOk(rows: seq<Row>) {
    && (forall i :: 0 <= i < |rows| ==> rows[i].sequence == Signed(rows[i].envelope))
    && (forall i, j :: 0 <= i < j < |rows| ==> rows[i].sequence != rows[j].sequence)
  }

  /** All answers so far are positive and below everything the table can still lease. */
  ghost predicate Below(answers: seq<Option<SignedRunnerCommand>>, rows: seq<Row>) {
    forall i :: 0 <= i < |answers| && answers[i].Some? ==>
      && 0 < Signed(answers[i].value)
      && forall r :: 0 <= r < |rows| && Leasable(rows[r], 0) ==> Signed(answers[i].value) < rows[r].sequence
  }

  ghost predicate Rising(answers: seq<Option<SignedRunnerCommand>>) {
    forall i, j :: 0 <= i < j < |answers| && answers[i].Some? && answers[j].Some? ==>
      Signed(answers[i].value) < Signed(answers[j].value)
  }

  ghost predicate TableInv(t: TableRun) {
    RowsOk(t.rows) && Below(t.answers, t.rows) && Rising(t.answers)
  }

  lemma {:induction false} EnqueueAllTable(es: seq<SignedRunnerCommand>)
    ensures RowsOk(RunTable(EnqueueAll(es)).rows) && RunTable(EnqueueAll(es)).answers == []
    decreases |es|
  {
    if es != [] {
      EnqueueAllTable(es[..|es|-1]);
      TableAppend(EnqueueAll(es[..|es|-1]), Enqueue(es[|es|-1]));
    }
  }

  /** A poll with 0 makes nothing leasable. */
  ghost predicate Shrinks(rows: seq<Row>, rows': seq<Row>) {
    |rows'| == |rows| &&
    forall r :: 0 <= r < |rows| && Leasable(rows'[r], 0) ==>
        Leasable(rows[r], 0) && rows'[r].sequence == rows[r].sequence
  }

  /** What it hands out was leasable and is below everything still leasable. */
  ghost predicate TakesLeast(rows: seq<Row>, rows': seq<Row>, m: int) {
    && 0 < m
    && (exists r :: 0 <= r < |rows| && Leasable(rows[r], 0) && rows[r].sequence == m)
    && forall r :: 0 <= r < |rows'| && Leasable(rows'[r], 0) ==> m < rows'[r].sequence
  }

  lemma {:induction false} MarkZero(rows: seq<Row>)
    requires RowsOk(rows)
    ensures RowsOk(MarkSkipped(rows, 0)) && Shrinks(rows, MarkSkipped(rows, 0))
  {
  }

  lemma LeaseLeast(rows: seq<Row>, i: nat)
    requires RowsOk(rows) && LeaseIndex(rows, 0) == Some(i)
    ensures var leased := rows[i := rows[i].(status := LeasedRow)];
            RowsOk(leased) && Shrinks(rows, leased) && TakesLeast(rows, leased, Signed(rows[i].envelope))
  {
  }

  lemma PollZeroTable(rows: seq<Row>)
    requires RowsOk(rows)
    ensures var p := PollRows(rows, 0);
            && RowsOk(p.rows) && Shrinks(rows, p.rows)
            && (p.handed.Some? ==> TakesLeast(rows, p.rows, Signed(p.handed.value)))
  {
    var marked := MarkSkipped(rows, 0);
    MarkZero(rows);
    if LeaseIndex(marked, 0).Some? {
      var i := LeaseIndex(marked, 0).value;
      LeaseLeast(marked, i);
      assert Leasable(rows[i], 0) && rows[i].sequence == Signed(marked[i].envelope);
    }
  }

  lemma BelowShrinks(answers: seq<Option<SignedRunnerCommand>>, rows: seq<Row>, rows': seq<Row>)
    requires Below(answers, rows) && Shrinks(rows, rows')
    ensures Below(answers, rows')
  {
  }

  lemma BelowGrows(answers: seq<Option<SignedRunnerCommand>>, rows: seq<Row>, rows': seq<Row>, e: SignedRunnerCommand)
    requires Below(answers, rows) && Below(answers, rows') && Rising(answers) && TakesLeast(rows, rows', Signed(e))
    ensures Below(answers + [Some(e)], rows') && Rising(answers + [Some(e)])
  {
    var r :| 0 <= r < |rows| && Leasable(rows[r], 0) && rows[r].sequence == Signed(e);
    assert forall i :: 0 <= i < |answers| && answers[i].Some? ==> Signed(answers[i].value) < Signed(e);
  }

  lemma PollKeepsTableInv(t: TableRun)
    requires TableInv(t)
    ensures TableInv(StepTable(t, PollAfter(0)))
  {
    var p := PollRows(t.rows, 0);
    PollZeroTable(t.rows);
    BelowShrinks(t.answers, t.rows, p.rows);
    if p.handed.Some? {
      BelowGrows(t.answers, t.rows, p.rows, p.handed.value);
    }
  }

  lemma {:induction false} TableAfterPoll(ops: seq<Op>)
    requires TableInv(RunTable(ops))
    ensures TableInv(RunTable(ops + [PollAfter(0)]))
  {
    PollKeepsTableInv(RunTable(ops));
    TableAppend(ops, PollAfter(0));
  }

  ghost predicate TableDrained(es: seq<SignedRunnerCommand>, n: nat) {
    TableInv(RunTable(Drain(es, n)))
  }

  lemma TableStart(es: seq<SignedRunnerCommand>)
    ensures TableDrained(es, 0)
  {
    EnqueueAllTable(es);
  }

  lemma TableNext(es: seq<SignedRunnerCommand>, n: nat)
    requires TableDrained(es, n)
    ensures TableDrained(es, n + 1)
  {
    TableAfterPoll(Drain(es, n));
  }

  lemma DrainTable(es: seq<SignedRunnerCommand>, n: nat)
    ensures TableDrained(es, n)
  {
    var p := (k: nat) => TableDrained(es, k);
    TableStart(es);
    forall k: nat
      ensures Steps(p, k)
    {
      if TableDrained(es, k) {
        TableNext(es, k);
      }
    }
    Climb(p, n);
  }

  /** The table hands out rising positive column values. */
  lemma AnswersOrder(es: seq<SignedRunnerCommand>, rows: seq<Row>)
    requires TableInv(TableRun(rows, Answers(es))) && Sequences(es)
    ensures Ascending(es) && Fit(es)
  {
    forall i | 0 <= i < |es|
      ensures es[i].command.sequence < TwoTo63
    {
      assert Answers(es)[i].Some?;
      assert 0 < Signed(es[i]);
    }
    forall i, j | 0 <= i < j < |es|
      ensures es[i].command.sequence < es[j].command.sequence
    {
      assert Answers(es)[i] == Some(es[i]) && Answers(es)[j] == Some(es[j]);
      assert Signed(es[i]) < Signed(es[j]);
    }
  }

  /** The deque hands out what was enqueued. */
  lemma {:induction false} AgreementMeansOrder(es: seq<SignedRunnerCommand>)
    requires Sequences(es) && RunsAgree(Drain(es, |es|))
    ensures Ascending(es) && Fit(es)
  {
    var t := RunTable(Drain(es, |es|));
    DrainRuns(es, |es|);
    DrainTable(es, |es|);
    assert es[..|es|] == es;
    AnswersOrder(es, t.rows);
  }

  lemma {:induction false} OrderMeansAgreement(ops: seq<Op>)
    requires Sequences(Enqueued(ops)) && Ascending(Enqueued(ops)) && Fit(Enqueued(ops)) && PollsBelow(ops, TwoTo63)
    ensures RunsAgree(ops)
  {
    AscendingIsIncreasing(ops);
    forall i | 0 <= i < |ops| && ops[i].Enqueue?
      ensures ops[i].envelope.command.sequence < TwoTo63
    {
      EnqueuesAre(ops, i);
    }
    QueuesAgree(ops);
  }

  lemma {:induction false} OrderMeansSameQueue(es: seq<SignedRunnerCommand>)
    requires Sequences(es) && Ascending(es) && Fit(es)
    ensures var t := RunTable(EnqueueAll(es)); t.answers == [] && PendingOf(t.rows) == es && SortedRows(t.rows)
  {
    var ops := EnqueueAll(es);
    EnqueueAllRuns(es);
    EnqueueAllTable(es);
    AscendingIsIncreasing(ops);
    forall i | 0 <= i < |ops|
      ensures match ops[i] case Enqueue(e) => e.command.sequence < TwoTo63 case PollAfter(last) => last < TwoTo63
    {
      if ops[i].Enqueue? {
        EnqueuesAre(ops, i);
      }
    }
    QueuesAgree(ops);
  }

  /** Below every sequence in the table, some pending row is leased. */
  lemma {:induction false} PendingIsLeased(rows: seq<Row>, last: int)
    requires SortedRows(rows) && PendingOf(rows) != [] && last < 0
    ensures PollRows(rows, last).handed.Some?
  {
    var marked := MarkSkipped(rows, last);
    if LeaseIndex(marked, last).None? {
      forall i | 0 <= i < |rows|
        ensures rows[i].status != PendingRow
      {
        assert !Leasable(marked[i], last) && marked[i] == Mark(rows[i], last) && rows[i].sequence >= 0;
      }
      NoPendingIsEmpty(rows);
    }
  }

  lemma NothingNewer(queue: seq<SignedRunnerCommand>, last: nat)
    requires Fit(queue) && TwoTo63 <= last
    ensures PollSpec(queue, last) == Poll([], None)
  {
    assert StaleCount(queue, last) == |queue|;
  }

  lemma {:induction false} WidePollOfDeque(es: seq<SignedRunnerCommand>, last: nat)
    requires Fit(es) && TwoTo63 <= last
    ensures RunDeque(EnqueueAll(es) + [PollAfter(last)]).answers == [None]
  {
    EnqueueAllRuns(es);
    DequeAppend(EnqueueAll(es), PollAfter(last));
    NothingNewer(es, last);
  }

  lemma {:induction false} WidePollOfTable(es: seq<SignedRunnerCommand>, last: nat)
    requires es != [] && Sequences(es) && Ascending(es) && Fit(es) && TwoTo63 <= last < 2 * TwoTo63
    ensures var answers := RunTable(EnqueueAll(es) + [PollAfter(last)]).answers; |answers| == 1 && answers[0].Some?
  {
    TableAppend(EnqueueAll(es), PollAfter(last));
    OrderMeansSameQueue(es);
    PendingIsLeased(RunTable(EnqueueAll(es)).rows, AsI64(last));
  }

  /** The bound on polls is needed, too: a reported sequence that does not fit the signed
      column empties the deque, while the table hands out a command. */
  lemma {:induction false} WidePollsDisagree(es: seq<SignedRunnerCommand>, last: nat)
    requires es != [] && Sequences(es) && Ascending(es) && Fit(es) && TwoTo63 <= last < 2 * TwoTo63
    ensures !RunsAgree(EnqueueAll(es) + [PollAfter(last)])
  {
    WidePollOfDeque(es, last);
    WidePollOfTable(es, last);
  }

  /** Nothing enqueued, nothing handed out. */
  lemma {:induction false} EmptyAgrees(ops: seq<Op>)
    requires Enqueued(ops) == []
    ensures RunDeque(ops).queue == [] && RunTable(ops).rows == [] && RunsAgree(ops)
    decreases |ops|
  {
    if ops != [] {
      var front, op := ops[..|ops|-1], ops[|ops|-1];
      assert op.PollAfter?;
      EmptyAgrees(front);
      EmptyPolls(op.last);
    }
  }

  lemma EmptyPolls(last: nat)
    ensures PollSpec([], last) == Poll([], None) && PollTable([], last) == TablePoll([], None)
  {
  }

  ghost predicate AlwaysAgree(es: seq<SignedRunnerCommand>, bound: nat) {
    forall ops :: Enqueued(ops) == es && PollsBelow(ops, bound) ==> RunsAgree(ops)
  }

  /** Commands enqueued in this order get the same answers from deque and table, however
      polls below the bound fall in between, if and only if there are none, or their
      sequences ascend and stay below 2^63 and so do the polls. */
  lemma {:induction false} QueuesAgreeIff(es: seq<SignedRunnerCommand>, bound: nat)
    requires Sequences(es) && 0 < bound <= 2 * TwoTo63
    ensures AlwaysAgree(es, bound) <==> es == [] || (Ascending(es) && Fit(es) && bound <= TwoTo63)
  {
    if es == [] {
      forall ops | Enqueued(ops) == es && PollsBelow(ops, bound)
        ensures RunsAgree(ops)
      {
        EmptyAgrees(ops);
      }
    } else if Ascending(es) && Fit(es) && bound <= TwoTo63 {
      forall ops | Enqueued(ops) == es && PollsBelow(ops, bound)
        ensures RunsAgree(ops)
      {
        OrderMeansAgreement(ops);
      }
    } else if AlwaysAgree(es, bound) {
      BoundIsNeeded(es, bound);
    }
  }

  lemma OrderIsNeeded(es: seq<SignedRunnerCommand>, bound: nat)
    requires Sequences(es) && 0 < bound && AlwaysAgree(es, bound)
    ensures Ascending(es) && Fit(es)
  {
    DrainEnqueues(es, |es|);
    assert PollsBelow(Drain(es, |es|), bound);
    AgreementMeansOrder(es);
  }

  lemma OneMorePollBelow(ops: seq<Op>, last: nat, bound: nat)
    requires PollsZero(ops) && last < bound
    ensures PollsBelow(ops + [PollAfter(last)], bound)
  {
  }

  lemma {:induction false} WidePollRun(es: seq<SignedRunnerCommand>, last: nat, bound: nat)
    requires last < bound
    ensures Enqueued(EnqueueAll(es) + [PollAfter(last)]) == es && PollsBelow(EnqueueAll(es) + [PollAfter(last)], bound)
  {
    EnqueueAllRuns(es);
    EnqueuedAppend(EnqueueAll(es), PollAfter(last));
    OneMorePollBelow(EnqueueAll(es), last, bound);
  }

  lemma BoundIsNeeded(es: seq<SignedRunnerCommand>, bound: nat)
    requires Sequences(es) && es != [] && 0 < bound <= 2 * TwoTo63 && AlwaysAgree(es, bound)
    ensures Ascending(es) && Fit(es) && bound <= TwoTo63
  {
    OrderIsNeeded(es, bound);
    if bound > TwoTo63 {
      WidePollRun(es, TwoTo63, bound);
      WidePollsDisagree(es, TwoTo63);
    }
  }
}

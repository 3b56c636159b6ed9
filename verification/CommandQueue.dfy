/** The per-node command queue, twice: the in-memory deque that skips stale entries
    and pops, and the table that marks stale rows and leases the smallest one. */
module CommandQueue {
  import opened Domain

  // ---------------------------------------------------------------------------
  // The deque
  // ---------------------------------------------------------------------------

  /** Length of the longest prefix of commands the runner has already passed. */
  function StaleCount(queue: seq<SignedRunnerCommand>, last: nat): (k: nat)
    ensures k <= |queue|
    ensures forall i :: 0 <= i < k ==> queue[i].command.sequence <= last
    ensures k < |queue| ==> last < queue[k].command.sequence
  {
    if queue != [] && queue[0].command.sequence <= last then 1 + StaleCount(queue[1..], last) else 0
  }

  datatype Poll = Poll(queue: seq<SignedRunnerCommand>, handed: Option<SignedRunnerCommand>)

  function PollSpec(queue: seq<SignedRunnerCommand>, last: nat): Poll {
    var k := StaleCount(queue, last);
    if k == |queue| then Poll([], None) else Poll(queue[k+1..], Some(queue[k]))
  }

  // ---------------------------------------------------------------------------
  // The table
  // ---------------------------------------------------------------------------

  datatype RowStatus = PendingRow | SkippedRow | LeasedRow

  datatype Row = Row(sequence: int, envelope: SignedRunnerCommand, status: RowStatus)

  const TwoTo63: nat := 0x8000_0000_0000_0000

  /** The `as i64` cast on the unsigned 64-bit values that sequences are. */
  function AsI64(x: nat): int {
    if x < TwoTo63 then x else x - 2 * TwoTo63
  }

  /** Insertion does nothing when the sequence is already present. */
  function InsertRow(rows: seq<Row>, e: SignedRunnerCommand): seq<Row> {
    if exists i :: 0 <= i < |rows| && rows[i].sequence == AsI64(e.command.sequence)
    then rows
    else rows + [Row(AsI64(e.command.sequence), e, PendingRow)]
  }

  function Mark(row: Row, last: int): Row {
    if row.sequence <= last && row.status == PendingRow then row.(status := SkippedRow) else row
  }

  function MarkSkipped(rows: seq<Row>, last: int): (marked: seq<Row>)
    ensures |marked| == |rows|
    ensures forall i :: 0 <= i < |rows| ==> marked[i] == Mark(rows[i], last)
  {
    if rows == [] then [] else [Mark(rows[0], last)] + MarkSkipped(rows[1..], last)
  }

  predicate Leasable(row: Row, last: int) {
    row.sequence > last && row.status == PendingRow
  }

  /** Index of the leasable row with the smallest sequence. */
  function LeaseIndex(rows: seq<Row>, last: int): (r: Option<nat>)
    ensures r.None? ==> forall i :: 0 <= i < |rows| ==> !Leasable(rows[i], last)
    ensures r.Some? ==> r.value < |rows| && Leasable(rows[r.value], last)
    ensures r.Some? ==> forall i :: 0 <= i < |rows| && Leasable(rows[i], last) ==>
        rows[r.value].sequence <= rows[i].sequence
  {
    if rows == [] then None
    else
      var n := |rows| - 1;
      var best := LeaseIndex(rows[..n], last);
      if Leasable(rows[n], last) && (best.None? || rows[n].sequence < rows[best.value].sequence) then Some(n) else best
  }

  datatype TablePoll = TablePoll(rows: seq<Row>, handed: Option<SignedRunnerCommand>)

  function PollRows(rows: seq<Row>, last: int): TablePoll {
    var marked := MarkSkipped(rows, last);
    match LeaseIndex(marked, last)
    case None => TablePoll(marked, None)
    case Some(i) => TablePoll(marked[i := marked[i].(status := LeasedRow)], Some(marked[i].envelope))
  }

  function PollTable(rows: seq<Row>, last: nat): TablePoll {
    PollRows(rows, AsI64(last))
  }

  // ---------------------------------------------------------------------------
  // Runs of one node's queue
  // ---------------------------------------------------------------------------

  datatype Op = Enqueue(envelope: SignedRunnerCommand) | PollAfter(last: nat)

  datatype DequeRun = DequeRun(queue: seq<SignedRunnerCommand>, answers: seq<Option<SignedRunnerCommand>>)

  datatype TableRun = TableRun(rows: seq<Row>, answers: seq<Option<SignedRunnerCommand>>)

  function StepDeque(s: DequeRun, op: Op): DequeRun {
    match op
    case Enqueue(e) => s.(queue := s.queue + [e])
    case PollAfter(last) => var p := PollSpec(s.queue, last); DequeRun(p.queue, s.answers + [p.handed])
  }

  function StepTable(s: TableRun, op: Op): TableRun {
    match op
    case Enqueue(e) => s.(rows := InsertRow(s.rows, e))
    case PollAfter(last) => var p := PollTable(s.rows, last); TableRun(p.rows, s.answers + [p.handed])
  }

  function RunDeque(ops: seq<Op>): DequeRun {
    if ops == [] then DequeRun([], []) else StepDeque(RunDeque(ops[..|ops|-1]), ops[|ops|-1])
  }

  function RunTable(ops: seq<Op>): TableRun {
    if ops == [] then TableRun([], []) else StepTable(RunTable(ops[..|ops|-1]), ops[|ops|-1])
  }

  /** The column holds what is left of a sequence in 64 bits of two's complement. */
  lemma ColumnIsTwosComplement(x: nat)
    requires x <= 18446744073709551615
    ensures -9223372036854775808 <= AsI64(x) <= 9223372036854775807
    ensures AsI64(x) == x || AsI64(x) == x - 18446744073709551616
  {
  }

  ghost predicate Distinct(rows: seq<Row>) {
    forall i, j :: 0 <= i < j < |rows| ==> rows[i].sequence != rows[j].sequence
  }

  ghost predicate HasRow(rows: seq<Row>, value: int) {
    exists i :: 0 <= i < |rows| && rows[i].sequence == value
  }

  ghost predicate SameColumn(rows: seq<Row>, rows': seq<Row>) {
    |rows| == |rows'| && forall i :: 0 <= i < |rows| ==> rows'[i].sequence == rows[i].sequence
  }

  lemma PollKeepsColumn(rows: seq<Row>, last: int)
    ensures SameColumn(rows, PollRows(rows, last).rows)
  {
  }

  lemma InsertIntoColumn(rows: seq<Row>, e: SignedRunnerCommand, value: int)
    ensures var rows' := InsertRow(rows, e);
            && (Distinct(rows) ==> Distinct(rows'))
            && (HasRow(rows', value) <==> HasRow(rows, value) || value == AsI64(e.command.sequence))
  {
    var rows' := InsertRow(rows, e);
    assert forall i :: 0 <= i < |rows| ==> rows'[i] == rows[i];
    if rows' != rows {
      assert rows'[|rows|].sequence == AsI64(e.command.sequence);
    }
  }

  ghost predicate WasEnqueued(ops: seq<Op>, value: int) {
    exists i :: 0 <= i < |ops| && ops[i].Enqueue? && AsI64(ops[i].envelope.command.sequence) == value
  }

  lemma EnqueuedStep(front: seq<Op>, op: Op, value: int)
    ensures WasEnqueued(front + [op], value)
       <==> WasEnqueued(front, value) || (op.Enqueue? && AsI64(op.envelope.command.sequence) == value)
  {
    var ops := front + [op];
    assert ops[|front|] == op && forall i :: 0 <= i < |front| ==> ops[i] == front[i];
  }

  lemma SameColumnSame(rows: seq<Row>, rows': seq<Row>, value: int)
    requires SameColumn(rows, rows')
    ensures (Distinct(rows) ==> Distinct(rows')) && (HasRow(rows, value) <==> HasRow(rows', value))
  {
  }

  /** Whatever is enqueued and polled: no column value has two rows, and exactly those that
      were enqueued have one. */
  lemma {:induction false} RowsAreDistinct(ops: seq<Op>, value: int)
    ensures Distinct(RunTable(ops).rows)
    ensures HasRow(RunTable(ops).rows, value) <==> WasEnqueued(ops, value)
    decreases |ops|
  {
    if ops != [] {
      var front, op := ops[..|ops|-1], ops[|ops|-1];
      var rows := RunTable(front).rows;
      RowsAreDistinct(front, value);
      EnqueuedStep(front, op, value);
      assert ops == front + [op];
      match op {
        case Enqueue(e) => InsertIntoColumn(rows, e, value);
        case PollAfter(last) =>
          PollKeepsColumn(rows, AsI64(last));
          SameColumnSame(rows, PollTable(rows, last).rows, value);
      }
    }
  }

  lemma {:induction false} DequeAppend(ops: seq<Op>, op: Op)
    ensures RunDeque(ops + [op]) == StepDeque(RunDeque(ops), op)
  {
    assert (ops + [op])[..|ops|] == ops;
  }

  lemma {:induction false} TableAppend(ops: seq<Op>, op: Op)
    ensures RunTable(ops + [op]) == StepTable(RunTable(ops), op)
  {
    assert (ops + [op])[..|ops|] == ops;
  }

  /** Commands enqueued, in order. */
  function Enqueued(ops: seq<Op>): seq<SignedRunnerCommand> {
    if ops == [] then []
    else
      var front := Enqueued(ops[..|ops|-1]);
      if ops[|ops|-1].Enqueue? then front + [ops[|ops|-1].envelope] else front
  }

  /** Commands handed out, in order. */
  function Handed(answers: seq<Option<SignedRunnerCommand>>): seq<SignedRunnerCommand> {
    if answers == [] then []
    else
      var front := Handed(answers[..|answers|-1]);
      if answers[|answers|-1].Some? then front + [answers[|answers|-1].value] else front
  }

  ghost predicate IncreasingEnqueues(ops: seq<Op>) {
    forall i, j :: 0 <= i < j < |ops| && ops[i].Enqueue? && ops[j].Enqueue? ==>
      ops[i].envelope.command.sequence < ops[j].envelope.command.sequence
  }

  ghost predicate FitsI64(ops: seq<Op>) {
    forall i :: 0 <= i < |ops| ==>
      match ops[i]
      case Enqueue(e) => e.command.sequence < TwoTo63
      case PollAfter(last) => last < TwoTo63
  }

  // ---------------------------------------------------------------------------
  // The two implementations agree
  // ---------------------------------------------------------------------------

  /** The deque a table stands for: its pending envelopes, in row order. */
  function PendingOf(rows: seq<Row>): seq<SignedRunnerCommand> {
    if rows == [] then []
    else if rows[0].status == PendingRow then [rows[0].envelope] + PendingOf(rows[1..])
    else PendingOf(rows[1..])
  }

  ghost predicate SortedRows(rows: seq<Row>) {
    && (forall i, j :: 0 <= i < j < |rows| ==> rows[i].sequence < rows[j].sequence)
    && (forall i :: 0 <= i < |rows| ==> rows[i].sequence == rows[i].envelope.command.sequence)
  }

  lemma {:induction false} PendingOfAppend(rows: seq<Row>, row: Row)
    requires row.status == PendingRow
    ensures PendingOf(rows + [row]) == PendingOf(rows) + [row.envelope]
    decreases |rows|
  {
    var all := rows + [row];
    if rows == [] {
      assert all[1..] == [];
    } else {
      assert all[1..] == rows[1..] + [row] && all[0] == rows[0];
      PendingOfAppend(rows[1..], row);
    }
  }

  /** Marking a sorted table skips exactly the deque's stale prefix. */
  lemma {:induction false} MarkIsSkip(rows: seq<Row>, last: nat)
    requires SortedRows(rows)
    ensures var q := PendingOf(rows);
            PendingOf(MarkSkipped(rows, last)) == q[StaleCount(q, last)..]
    decreases |rows|
  {
    if rows != [] {
      if rows[0].sequence <= last {
        MarkIsSkip(rows[1..], last);
        MarkedHead(rows, last);
      } else {
        assert forall i :: 0 <= i < |rows| ==> rows[i].sequence > last;
        assert MarkSkipped(rows, last) == rows;
        PendingAboveHasNoStale(rows, last);
      }
    }
  }

  lemma {:induction false} MarkedHead(rows: seq<Row>, last: nat)
    requires rows != [] && SortedRows(rows) && rows[0].sequence <= last
    ensures PendingOf(MarkSkipped(rows, last)) == PendingOf(MarkSkipped(rows[1..], last))
    ensures var q, rest := PendingOf(rows), PendingOf(rows[1..]);
            q[StaleCount(q, last)..] == rest[StaleCount(rest, last)..]
  {
    var q := PendingOf(rows);
    assert MarkSkipped(rows, last)[1..] == MarkSkipped(rows[1..], last);
    if rows[0].status == PendingRow {
      assert q[1..] == PendingOf(rows[1..]) && q[0].command.sequence <= last;
    }
  }

  lemma {:induction false} PendingAboveHasNoStale(rows: seq<Row>, last: nat)
    requires SortedRows(rows)
    requires forall i :: 0 <= i < |rows| ==> rows[i].sequence > last
    ensures StaleCount(PendingOf(rows), last) == 0
    decreases |rows|
  {
    if rows != [] {
      PendingAboveHasNoStale(rows[1..], last);
    }
  }

  /** In a sorted table whose pending rows are all leasable, leasing the minimum is
      popping the front. */
  lemma {:induction false} LeaseIsPop(rows: seq<Row>, i: nat)
    requires i < |rows| && rows[i].status == PendingRow
    requires forall j :: 0 <= j < i ==> rows[j].status != PendingRow
    ensures PendingOf(rows) == [rows[i].envelope] + PendingOf(rows[i := rows[i].(status := LeasedRow)])
    decreases i
  {
    var leased := rows[i := rows[i].(status := LeasedRow)];
    if i == 0 {
      assert leased[1..] == rows[1..];
    } else {
      assert leased[1..] == rows[1..][i-1 := rows[i].(status := LeasedRow)];
      LeaseIsPop(rows[1..], i - 1);
    }
  }

  lemma {:induction false} NoPendingIsEmpty(rows: seq<Row>)
    requires forall j :: 0 <= j < |rows| ==> rows[j].status != PendingRow
    ensures PendingOf(rows) == []
    decreases |rows|
  {
    if rows != [] {
      NoPendingIsEmpty(rows[1..]);
    }
  }

  /** In a sorted table the smallest leasable row is the first pending one. */
  lemma {:induction false} MinimumIsFirst(rows: seq<Row>, last: int, i: nat)
    requires SortedRows(rows) && LeaseIndex(MarkSkipped(rows, last), last) == Some(i)
    ensures forall j :: 0 <= j < i ==> MarkSkipped(rows, last)[j].status != PendingRow
  {
    var marked := MarkSkipped(rows, last);
    assert SortedRows(marked);
    forall j | 0 <= j < i
      ensures marked[j].status != PendingRow
    {
      EarlierIsSkipped(rows, last, i, j);
    }
  }

  lemma {:induction false} EarlierIsSkipped(rows: seq<Row>, last: int, i: nat, j: nat)
    requires SortedRows(MarkSkipped(rows, last)) && LeaseIndex(MarkSkipped(rows, last), last) == Some(i) && j < i
    ensures MarkSkipped(rows, last)[j].status != PendingRow
  {
    var marked := MarkSkipped(rows, last);
    assert marked[j].sequence < marked[i].sequence;
    assert !Leasable(marked[j], last);
  }

  ghost predicate SameEnvelopes(a: seq<Row>, b: seq<Row>) {
    |a| == |b| && forall i :: 0 <= i < |a| ==> a[i].envelope == b[i].envelope && a[i].sequence == b[i].sequence
  }

  lemma LeasesAgree(rows: seq<Row>, marked: seq<Row>, i: nat)
    requires SameEnvelopes(rows, marked) && i < |marked| && marked[i].status == PendingRow
    requires forall j :: 0 <= j < i ==> marked[j].status != PendingRow
    ensures var leased := marked[i := marked[i].(status := LeasedRow)];
            PendingOf(marked) == [marked[i].envelope] + PendingOf(leased) && SameEnvelopes(rows, leased)
  {
    LeaseIsPop(marked, i);
  }

  lemma {:induction false} PollFromRest(queue: seq<SignedRunnerCommand>, last: nat, e: SignedRunnerCommand,
                                        rest: seq<SignedRunnerCommand>)
    requires queue[StaleCount(queue, last)..] == [e] + rest
    ensures PollSpec(queue, last) == Poll(rest, Some(e))
  {
    var k := StaleCount(queue, last);
    assert queue[k..][0] == e && queue[k..][1..] == rest;
  }

  /** One poll on related states returns the same command and keeps them related. */
  lemma {:induction false} PollsAgree(rows: seq<Row>, last: nat)
    requires SortedRows(rows)
    ensures PollSpec(PendingOf(rows), last) == Poll(PendingOf(PollRows(rows, last).rows), PollRows(rows, last).handed)
    ensures SameEnvelopes(rows, PollRows(rows, last).rows)
  {
    var marked := MarkSkipped(rows, last);
    MarkIsSkip(rows, last);
    assert SameEnvelopes(rows, marked);
    match LeaseIndex(marked, last) {
      case None =>
        NoPendingIsEmpty(marked);
      case Some(i) =>
        MinimumIsFirst(rows, last, i);
        LeasesAgree(rows, marked, i);
        PollFromRest(PendingOf(rows), last, marked[i].envelope,
            PendingOf(marked[i := marked[i].(status := LeasedRow)]));
    }
  }

  ghost predicate RowsFrom(rows: seq<Row>, ops: seq<Op>) {
    forall i :: 0 <= i < |rows| ==> Enqueue(rows[i].envelope) in ops
  }

  ghost predicate Related(ops: seq<Op>, d: DequeRun, t: TableRun) {
    d.answers == t.answers && d.queue == PendingOf(t.rows) && SortedRows(t.rows) && RowsFrom(t.rows, ops)
  }

  lemma NewestRow(rows: seq<Row>, ops: seq<Op>, e: SignedRunnerCommand, i: nat)
    requires i < |rows| && SortedRows(rows) && RowsFrom(rows, ops) && IncreasingEnqueues(ops + [Enqueue(e)])
    ensures rows[i].sequence < e.command.sequence && Enqueue(rows[i].envelope) in ops + [Enqueue(e)]
  {
    var next := ops + [Enqueue(e)];
    var k :| 0 <= k < |ops| && ops[k] == Enqueue(rows[i].envelope);
    assert next[k] == ops[k] && next[|ops|] == Enqueue(e);
  }

  lemma InsertLast(rows: seq<Row>, e: SignedRunnerCommand)
    requires SortedRows(rows) && e.command.sequence < TwoTo63
    requires forall i :: 0 <= i < |rows| ==> rows[i].sequence < e.command.sequence
    ensures InsertRow(rows, e) == rows + [Row(e.command.sequence, e, PendingRow)] && SortedRows(InsertRow(rows, e))
  {
  }

  lemma {:induction false} EnqueueAgrees(rows: seq<Row>, ops: seq<Op>, e: SignedRunnerCommand)
    requires SortedRows(rows) && RowsFrom(rows, ops)
    requires IncreasingEnqueues(ops + [Enqueue(e)]) && e.command.sequence < TwoTo63
    ensures SortedRows(InsertRow(rows, e)) && RowsFrom(InsertRow(rows, e), ops + [Enqueue(e)])
    ensures PendingOf(InsertRow(rows, e)) == PendingOf(rows) + [e]
  {
    forall i | 0 <= i < |rows|
      ensures rows[i].sequence < e.command.sequence && Enqueue(rows[i].envelope) in ops + [Enqueue(e)]
    {
      NewestRow(rows, ops, e, i);
    }
    InsertLast(rows, e);
    PendingOfAppend(rows, Row(e.command.sequence, e, PendingRow));
  }

  lemma StepsAgree(ops: seq<Op>, d: DequeRun, t: TableRun, op: Op)
    requires Related(ops, d, t)
    requires IncreasingEnqueues(ops + [op]) && FitsI64([op])
    ensures Related(ops + [op], StepDeque(d, op), StepTable(t, op))
  {
    assert [op][0] == op;
    match op {
      case Enqueue(e) =>
        EnqueueAgrees(t.rows, ops, e);
      case PollAfter(last) =>
        PollsAgree(t.rows, last);
        assert RowsFrom(t.rows, ops + [op]);
    }
  }

  /** For every interleaving of enqueues and polls with increasing sequences that fit
      the signed column, deque and table give the same answer to every poll. */
  lemma {:induction false} QueuesAgree(ops: seq<Op>)
    requires IncreasingEnqueues(ops) && FitsI64(ops)
    ensures RunDeque(ops).answers == RunTable(ops).answers
    ensures Related(ops, RunDeque(ops), RunTable(ops))
    decreases |ops|
  {
    if ops != [] {
      var front, op := ops[..|ops|-1], ops[|ops|-1];
      assert ops == front + [op];
      QueuesAgree(front);
      StepsAgree(front, RunDeque(front), RunTable(front), op);
    }
  }

  // ---------------------------------------------------------------------------
  // At most once, and nothing lost
  // ---------------------------------------------------------------------------

  lemma {:induction false} HandedAppend(answers: seq<Option<SignedRunnerCommand>>, a: Option<SignedRunnerCommand>)
    ensures Handed(answers + [a]) == Handed(answers) + AsSeq(a)
  {
    assert (answers + [a])[..|answers|] == answers;
  }

  function AsSeq(a: Option<SignedRunnerCommand>): seq<SignedRunnerCommand> {
    if a.Some? then [a.value] else []
  }

  /** A poll splits the queue into dropped, handed and kept commands. */
  lemma {:induction false} PollSplits(queue: seq<SignedRunnerCommand>, last: nat)
    ensures var p := PollSpec(queue, last);
            queue == queue[..StaleCount(queue, last)] + AsSeq(p.handed) + p.queue
  {
    var k := StaleCount(queue, last);
    if k == |queue| {
      assert queue[..k] == queue;
    } else {
      assert queue == queue[..k] + [queue[k]] + queue[k+1..];
    }
  }

  /** Whatever order commands arrive in and whatever pollers claim to have seen, no
      enqueued command is handed out twice or left in the queue after being handed out. */
  lemma {:induction false} AtMostOnce(ops: seq<Op>)
    ensures multiset(Handed(RunDeque(ops).answers)) + multiset(RunDeque(ops).queue) <= multiset(Enqueued(ops))
    decreases |ops|
  {
    if ops != [] {
      var front, op := ops[..|ops|-1], ops[|ops|-1];
      AtMostOnce(front);
      var s := RunDeque(front);
      match op {
        case Enqueue(e) =>
        case PollAfter(last) =>
          var p := PollSpec(s.queue, last);
          HandedAppend(s.answers, p.handed);
          PollSplits(s.queue, last);
          var dropped := s.queue[..StaleCount(s.queue, last)];
          assert multiset(s.queue) == multiset(dropped) + multiset(AsSeq(p.handed)) + multiset(p.queue);
          assert multiset(Handed(s.answers + [p.handed])) == multiset(Handed(s.answers)) + multiset(AsSeq(p.handed));
      }
    }
  }

  /** Every poll reports 0 or the sequence of a command already handed out. */
  ghost predicate HonestPolls(ops: seq<Op>) {
    forall i :: 0 <= i < |ops| && ops[i].PollAfter? ==>
      ops[i].last == 0 || exists e :: e in Handed(RunDeque(ops[..i]).answers) && e.command.sequence == ops[i].last
  }

  ghost predicate PositiveSequences(ops: seq<Op>) {
    forall i :: 0 <= i < |ops| && ops[i].Enqueue? ==> ops[i].envelope.command.sequence > 0
  }

  lemma {:induction false} EnqueuedIsSorted(ops: seq<Op>)
    requires IncreasingEnqueues(ops)
    ensures forall i, j :: 0 <= i < j < |Enqueued(ops)| ==>
        Enqueued(ops)[i].command.sequence < Enqueued(ops)[j].command.sequence
    ensures forall e :: e in Enqueued(ops) ==> Enqueue(e) in ops
    decreases |ops|
  {
    if ops != [] {
      var front, op := ops[..|ops|-1], ops[|ops|-1];
      EnqueuedIsSorted(front);
      assert forall x :: x in front ==> x in ops;
      if op.Enqueue? {
        forall e | e in Enqueued(front)
          ensures e.command.sequence < op.envelope.command.sequence
        {
          var k :| 0 <= k < |front| && front[k] == Enqueue(e);
          assert ops[k] == front[k];
        }
      }
    }
  }

  /** The waiting commands are newer than anything an honest poller can report. */
  lemma {:induction false} HonestPollIsBehind(ops: seq<Op>, sent: seq<SignedRunnerCommand>,
                                              queue: seq<SignedRunnerCommand>, last: nat)
    requires IncreasingEnqueues(ops) && PositiveSequences(ops)
    requires Enqueued(ops) == sent + queue
    requires last == 0 || exists e :: e in sent && e.command.sequence == last
    ensures StaleCount(queue, last) == 0
  {
    EnqueuedIsSorted(ops);
    if queue != [] {
      var all := Enqueued(ops);
      assert all[|sent|] == queue[0];
      if last != 0 {
        var k :| 0 <= k < |sent| && sent[k].command.sequence == last;
        assert all[k] == sent[k];
      } else {
        var k :| 0 <= k < |ops| && ops[k] == Enqueue(queue[0]);
      }
    }
  }

  lemma HonestFront(ops: seq<Op>)
    requires ops != [] && IncreasingEnqueues(ops) && PositiveSequences(ops) && HonestPolls(ops)
    ensures var front := ops[..|ops|-1]; IncreasingEnqueues(front) && PositiveSequences(front) && HonestPolls(front)
  {
    var front := ops[..|ops|-1];
    assert forall i :: 0 <= i < |front| ==> front[..i] == ops[..i];
  }

  lemma Reassociate(a: seq<SignedRunnerCommand>, b: seq<SignedRunnerCommand>, c: seq<SignedRunnerCommand>)
    ensures a + (b + c) == (a + b) + c
  {
  }

  /** A poll that skips nothing only moves the head of the queue to the answers. */
  lemma {:induction false} PollMovesHead(answers: seq<Option<SignedRunnerCommand>>, queue: seq<SignedRunnerCommand>,
                                         last: nat)
    requires StaleCount(queue, last) == 0
    ensures var p := PollSpec(queue, last); Handed(answers + [p.handed]) + p.queue == Handed(answers) + queue
  {
    var p := PollSpec(queue, last);
    assert queue == AsSeq(p.handed) + p.queue;
    HandedAppend(answers, p.handed);
    Reassociate(Handed(answers), AsSeq(p.handed), p.queue);
  }

  /** When commands are enqueued in allocation order and polls are honest, delivery is
      exact: what was enqueued is what was handed out followed by what still waits. */
  lemma {:induction false} NothingIsLost(ops: seq<Op>)
    requires IncreasingEnqueues(ops) && PositiveSequences(ops) && HonestPolls(ops)
    ensures Enqueued(ops) == Handed(RunDeque(ops).answers) + RunDeque(ops).queue
    decreases |ops|
  {
    if ops != [] {
      var front, op := ops[..|ops|-1], ops[|ops|-1];
      HonestFront(ops);
      NothingIsLost(front);
      if op.PollAfter? {
        var s := RunDeque(front);
        HonestPollIsBehind(front, Handed(s.answers), s.queue, op.last);
        PollMovesHead(s.answers, s.queue, op.last);
      }
    }
  }

  /** Commands to one node, each numbered and enqueued in one step, and polls. */
  datatype Traffic = Send(envelope: SignedRunnerCommand) | Ask(last: nat)

  function SendCount(traffic: seq<Traffic>): nat {
    if traffic == [] then 0
    else SendCount(traffic[..|traffic|-1]) + (if traffic[|traffic|-1].Send? then 1 else 0)
  }

  /** A send takes the next number, whatever its envelope said before. */
  function Renumber(e: SignedRunnerCommand, sequence: nat): SignedRunnerCommand {
    e.(command := e.command.(sequence := sequence))
  }

  function Numbered(traffic: seq<Traffic>): (ops: seq<Op>)
    ensures |ops| == |traffic|
  {
    if traffic == [] then []
    else
      var front := traffic[..|traffic|-1];
      Numbered(front) + [match traffic[|traffic|-1]
                         case Send(e) => Enqueue(Renumber(e, SendCount(front) + 1))
                         case Ask(last) => PollAfter(last)]
  }

  lemma {:induction false} NumberedIsIncreasing(traffic: seq<Traffic>)
    ensures IncreasingEnqueues(Numbered(traffic)) && PositiveSequences(Numbered(traffic))
    ensures forall i :: 0 <= i < |traffic| && Numbered(traffic)[i].Enqueue? ==>
              Numbered(traffic)[i].envelope.command.sequence <= SendCount(traffic)
    decreases |traffic|
  {
    if traffic != [] {
      NumberedIsIncreasing(traffic[..|traffic|-1]);
    }
  }

  /** With allocation and enqueueing in one step and honest polls, no command is discarded
      undelivered: what was sent is what was handed out followed by what still waits. */
  lemma {:induction false} AtomicSendsLoseNothing(traffic: seq<Traffic>)
    requires HonestPolls(Numbered(traffic))
    ensures var ops := Numbered(traffic); Enqueued(ops) == Handed(RunDeque(ops).answers) + RunDeque(ops).queue
  {
    NumberedIsIncreasing(traffic);
    NothingIsLost(Numbered(traffic));
  }

  // ---------------------------------------------------------------------------
  // The recording source of the runner crate: the same loop over its own deque
  // ---------------------------------------------------------------------------

  class RecordingCommandSource {
    var commands: seq<SignedRunnerCommand>
    var results: seq<DeploymentResult>

    constructor (commands: seq<SignedRunnerCommand>)
      ensures this.commands == commands && results == []
    {
      this.commands, results := commands, [];
    }

    method NextCommand(last: nat) returns (handed: Option<SignedRunnerCommand>)
      modifies this`commands
      ensures Poll(commands, handed) == PollSpec(old(commands), last)
    {
      ghost var k := StaleCount(commands, last);
      ghost var skipped := 0;
      while commands != [] && commands[0].command.sequence <= last
        invariant skipped <= k
        invariant commands == old(commands)[skipped..]
        decreases |commands|
      {
        commands := commands[1..];
        skipped := skipped + 1;
      }
      if commands == [] {
        return None;
      }
      handed := Some(commands[0]);
      commands := commands[1..];
    }

    method SubmitResult(result: DeploymentResult)
      modifies this`results
      ensures results == old(results) + [result]
    {
      results := results + [result];
    }
  }
}

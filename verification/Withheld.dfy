/** What becomes of a row, once a device has been shown it or refused it. */
module Withheld {
  import opened Common
  import opened OpLog
  import opened ArchiveFilter
  import opened Pull
  import opened PullPages
  import opened NoLostOps

  lemma {:induction false} RunJoin(s: System, past: seq<Event>, future: seq<Event>)
    ensures Run(s, past + future) == Run(Run(s, past), future)
    decreases |future|
  {
    if future == [] {
      assert past + future == past;
    } else {
      assert (past + future)[..|past + future| - 1] == past + future[..|future| - 1];
      RunJoin(s, past, future[..|future| - 1]);
    }
  }

  /** Nothing a device was shown, and no row of the log, is ever taken back. */
  ghost predicate Extends(s: System, s': System) {
    && |s.readers| <= |s'.readers| && s.log.rows <= s'.log.rows
    && forall r :: 0 <= r < |s.readers| ==>
         s.readers[r].watermark <= s'.readers[r].watermark && s.readers[r].seen <= s'.readers[r].seen
  }

  lemma StepExtends(s: System, e: Event)
    requires Good(s)
    ensures Extends(s, Step(s, e))
  {
    hide PageStep, PageExamined, Find, InFlightGood;
    match e
    case AppendOp(_, _, _) =>
    case DrawElsewhere =>
    case Join =>
    case _ =>
      if e.reader < |s.readers| {
        var r := s.readers[e.reader];
        assert ReaderGood(s.log, r);
        assert r.pull.Some? ==> r.watermark <= r.pull.value.scan.cursor by { CursorAbove(s.log, r); }
      }
  }

  lemma CursorAbove(log: Log, r: Reader)
    requires ReaderGood(log, r)
    ensures r.pull.Some? ==> r.watermark <= r.pull.value.scan.cursor
  {
  }

  lemma {:induction false} RunExtends(s: System, past: seq<Event>, future: seq<Event>)
    requires Initial(s)
    ensures Extends(Run(s, past), Run(s, past + future))
    decreases |future|
  {
    if future == [] {
      assert past + future == past;
    } else {
      var before := past + future[..|future| - 1];
      assert (past + future)[..|past + future| - 1] == before;
      RunExtends(s, past, future[..|future| - 1]);
      RunKeepsGood(s, before);
      StepExtends(Run(s, before), future[|future| - 1]);
      hide Run, Step, Good;
    }
  }

  /** A row examined twice would be counted twice. */
  lemma {:induction false} ExaminedAt(es: seq<Examined>, row: LogRow, i: nat, j: nat)
    requires multiset(RowsOf(es))[row] == 1 && i < |es| && j < |es| && es[i].row == row && es[j].row == row
    ensures i == j
  {
    var rest := RowsOf(es[1..]);
    assert multiset(RowsOf(es)) == multiset{es[0].row} + multiset(rest) by { assert RowsOf(es) == [es[0].row] + rest; }
    if i > 0 && j > 0 {
      assert es[1..][i - 1] == es[i] && es[1..][j - 1] == es[j];
      RowIsIn(es[1..], row, i - 1);
      assert multiset(rest)[row] == 1;
      ExaminedAt(es[1..], row, i - 1, j - 1);
    } else if i != j {
      var k: nat := if i > 0 then i - 1 else j - 1;
      assert es[1..][k].row == row;
      RowIsIn(es[1..], row, k);
    }
  }

  lemma {:induction false} RowIsIn(es: seq<Examined>, row: LogRow, i: nat)
    requires i < |es| && es[i].row == row
    ensures row in RowsOf(es)
  {
    if i > 0 {
      RowIsIn(es[1..], row, i - 1);
    }
  }

  /** In a good state the page that examined a row decides for good whether the device has it, and then exactly once. */
  lemma DecidedByItsPage(log: Log, r: Reader, i: nat, k: nat)
    requires log.Valid() && ReaderGood(log, r) && i < |log.rows| && 0 < log.rows[i].opSeq <= r.watermark
    requires k < |r.seen| && r.seen[k].row == log.rows[i]
    ensures multiset(r.received)[log.rows[i]] == if r.seen[k].withheld then 0 else 1
  {
    EachRowOnce(log, r, i);
    WindowOnce(log.rows, 0, r.watermark, i);
    var j :| 0 <= j < |r.seen| && r.seen[j].row == log.rows[i]
             && multiset(r.received)[log.rows[i]] == if r.seen[j].withheld then 0 else 1;
    ExaminedAt(r.seen, log.rows[i], j, k);
  }

  /**
   * Whatever happens later: a row at or below a device's watermark has arrived, once,
   * if the page that examined it did not withhold it, and otherwise never arrives.
   */
  lemma DecidedForGood(s: System, past: seq<Event>, future: seq<Event>, reader: nat, i: nat, k: nat)
    requires Initial(s) && reader < |Run(s, past).readers| && i < |Run(s, past).log.rows|
    requires var (r, row) := (Run(s, past).readers[reader], Run(s, past).log.rows[i]);
             0 < row.opSeq <= r.watermark && k < |r.seen| && r.seen[k].row == row
    ensures var (r, row) := (Run(s, past).readers[reader], Run(s, past).log.rows[i]);
            var later := Run(s, past + future);
            && reader < |later.readers|
            && (row in later.readers[reader].received <==> !r.seen[k].withheld)
            && multiset(later.readers[reader].received)[row] <= 1
  {
    RunExtends(s, past, future);
    RunKeepsGood(s, past + future);
    var later := Run(s, past + future);
    var r := Run(s, past).readers[reader];
    assert later.readers[reader].seen[k] == r.seen[k];
    assert later.log.rows[i] == Run(s, past).log.rows[i];
    assert ReaderGood(later.log, later.readers[reader]);
    DecidedByItsPage(later.log, later.readers[reader], i, k);
  }

  // ---- a run in which the ledger is opened again too late -------------------

  /** The first op of a workspace is shown to its only device by a page that finds the ledger archived. */
  function FirstPull(op: NormalizedOp, t: Tables): seq<Event> {
    [Join, AppendOp(op, "", 0), Begin(0, None), Page(0, t, map[]), Answer(0)]
  }

  function Empty(): System {
    System(Log([], 1), [])
  }

  lemma FirstPage(row: LogRow, t: Tables)
    requires row.opSeq == 1 && Usable(row) && row.entityId in ArchivedIds(t, [row])
    ensures var (w, s) := (World([row], t, map[]), Scan(0, [], Scanning));
            PageStep(w, s, PULL_DEFAULT_LIMIT) == Scan(1, [], Exhausted)
            && PageExamined(w, s, PULL_DEFAULT_LIMIT) == [Examined(row, true)]
  {
    var rows := [row];
    assert rows[..0] == [] && rows[1..] == [];
    assert FetchPage(rows, 0, PULL_DEFAULT_LIMIT) == rows by {
      assert Rank(rows, 0) == 0;
      PageIsSlice(rows, 0, PULL_DEFAULT_LIMIT);
    }
    assert UsableRows(rows) == [] + [row] == rows;
    hide FetchPage, ArchivedIds;
    var w := World(rows, t, map[]);
    var s := Scan(0, [], Scanning);
    var s1 := HandleRow(w, ArchivedIds(t, rows), s, row);
    assert HandleRows(w, ArchivedIds(t, rows), s, rows, PULL_DEFAULT_LIMIT) == s1;
    assert ExaminedRows(ArchivedIds(t, rows), 0, rows, PULL_DEFAULT_LIMIT) == [Examined(row, true)];
  }

  lemma FiveEvents(s: System, events: seq<Event>)
    requires |events| == 5
    ensures Run(s, events) == Step(Step(Step(Step(Step(s, events[0]), events[1]), events[2]), events[3]), events[4])
  {
    assert events[..5] == events && events[..0] == [];
    forall k: nat | k < 5
      ensures events[..k + 1][..k] == events[..k] && Run(s, events[..k + 1]) == Step(Run(s, events[..k]), events[k])
    {
      assert events[..k + 1][..k] == events[..k];
    }
  }

  lemma FirstPullWithholds(op: NormalizedOp, t: Tables)
    requires op.entityId in ArchivedIds(t, [RowOf(op, "", 0, 1)])
    ensures var s := Run(Empty(), FirstPull(op, t));
            s.log.rows == [RowOf(op, "", 0, 1)]
              && s.readers == [Reader(1, [Examined(RowOf(op, "", 0, 1), true)], [], None)]
  {
    hide Run, PageStep, PageExamined, ArchivedIds;
    var row := RowOf(op, "", 0, 1);
    FirstPage(row, t);
    FiveEvents(Empty(), FirstPull(op, t));
    var s1 := Step(Empty(), Join);
    var s2 := Step(s1, AppendOp(op, "", 0));
    assert s2 == System(Log([row], 2), [Reader(0, [], [], None)]);
    var s3 := Step(s2, Begin(0, None));
    assert s3.readers == [Reader(0, [], [], Some(InFlight(PULL_DEFAULT_LIMIT, Scan(0, [], Scanning), [], 0)))];
    var s4 := Step(s3, Page(0, t, map[]));
    assert s3.log.rows == [row] && [] + [Examined(row, true)] == [Examined(row, true)];
    assert s4.readers
           == [Reader(0, [], [], Some(InFlight(PULL_DEFAULT_LIMIT, Scan(1, [], Exhausted), [Examined(row, true)], 1)))];
    var s5 := Step(s4, Answer(0));
    assert OpRows([]) == [] && [] + OpRows([]) == [];
    assert s5.readers == [Reader(1, [Examined(row, true)], [], None)];
  }

  /** However often that device pulls afterwards, and whatever the archive tables then say, the op never arrives. */
  lemma ReopenedTooLate(op: NormalizedOp, archived: Tables, future: seq<Event>)
    requires op.entityId in ArchivedIds(archived, [RowOf(op, "", 0, 1)])
    ensures var later := Run(Empty(), FirstPull(op, archived) + future);
            0 < |later.readers| && RowOf(op, "", 0, 1) !in later.readers[0].received
  {
    FirstPullWithholds(op, archived);
    DecidedForGood(Empty(), FirstPull(op, archived), future, 0, 0, 0);
  }

  /** The tables while contact `contact` is under `ledger`, archived or not. */
  function OneLedger(ledger: string, contact: string, isArchived: bool): Tables {
    Tables(map[ledger := isArchived], map[contact := ledger], map[])
  }

  /** Its ledger opened again, the device pulls once more: the contact's op is still missing. */
  lemma PullAfterReopening(op: NormalizedOp, ledger: string)
    requires op.entityType == "contact" && ledger != ""
    ensures var t := b => OneLedger(ledger, op.entityId, b);
            var events := FirstPull(op, t(true)) + [Begin(0, None), Page(0, t(false), map[]), Answer(0)];
            var later := Run(Empty(), events);
            && !InArchivedLedger(t(false), op.entityId)
            && 0 < |later.readers| && RowOf(op, "", 0, 1) !in later.readers[0].received
  {
    var archived := OneLedger(ledger, op.entityId, true);
    var row := RowOf(op, "", 0, 1);
    assert RowArchived(archived, [row][0]);
    ReopenedTooLate(op, archived, [Begin(0, None), Page(0, OneLedger(ledger, op.entityId, false), map[]), Answer(0)]);
  }
}

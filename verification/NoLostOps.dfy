/**
 * Writers append while any number of readers page through the log. The log is
 * the only thing they share; every step below is one atomic database access or
 * one message to a client.
 */
module NoLostOps {
  import opened Common
  import opened OpLog
  import opened ArchiveFilter
  import opened Pull
  import opened PullPages

  /** A pull request on its way: what it has collected and looked at so far. */
  datatype InFlight = InFlight(limit: nat, scan: Scan, looked: seq<Examined>, pages: nat)

  /** A device: its watermark, every row the server examined for it, every row it got. */
  datatype Reader = Reader(watermark: nat, seen: seq<Examined>, received: seq<LogRow>, pull: Option<InFlight>)

  datatype System = System(log: Log, readers: seq<Reader>)

  datatype Event =
    | AppendOp(op: NormalizedOp, deviceId: string, now: int)
    | DrawElsewhere                    // another workspace, or a rolled-back draw
    | Join
    | Begin(reader: nat, limitRaw: Option<nat>)
    | Page(reader: nat, tables: Tables, roleByDevice: map<string, string>)
    | Answer(reader: nat)              // the response reaches the device, which adopts next_since_op_seq
    | Abort(reader: nat)               // the request fails or its response is lost

  predicate Finished(p: InFlight) {
    p.scan.status != Scanning || p.pages == PULL_MAX_SCAN_PAGES
  }

  function ReaderStep(rows: seq<LogRow>, r: Reader, e: Event): Reader {
    match e
    case Begin(_, limitRaw) =>
      if r.pull.Some? then r
      else r.(pull := Some(InFlight(EffectiveLimit(limitRaw), Scan(r.watermark, [], Scanning), [], 0)))
    case Page(_, tables, roleByDevice) =>
      if r.pull.None? || Finished(r.pull.value) then r
      else
        var p := r.pull.value;
        var w := World(rows, tables, roleByDevice);
        r.(pull := Some(InFlight(p.limit, PageStep(w, p.scan, p.limit),
                                 p.looked + PageExamined(w, p.scan, p.limit), p.pages + 1)))
    case Answer(_) =>
      if r.pull.None? || !Finished(r.pull.value) then r
      else
        var p := r.pull.value;
        var response := Respond(p.scan, r.watermark);
        Reader(response.nextSinceOpSeq, r.seen + p.looked, r.received + OpRows(response.ops), None)
    case Abort(_) => r.(pull := None)
    case _ => r
  }

  function Step(s: System, e: Event): System {
    match e
    case AppendOp(op, deviceId, now) => s.(log := Append(s.log, op, deviceId, now).0)
    case DrawElsewhere => s.(log := s.log.(nextSeq := s.log.nextSeq + 1))
    case Join => s.(readers := s.readers + [Reader(0, [], [], None)])
    case _ =>
      if e.reader < |s.readers|
      then s.(readers := s.readers[e.reader := ReaderStep(s.log.rows, s.readers[e.reader], e)])
      else s
  }

  function Run(s: System, events: seq<Event>): System
    decreases |events|
  {
    if events == [] then s else Step(Run(s, events[..|events| - 1]), events[|events| - 1])
  }

  ghost predicate Initial(s: System) {
    s.log.Valid() && s.log.nextSeq >= 1 && s.readers == []
  }

  ghost predicate InFlightGood(log: Log, watermark: nat, p: InFlight) {
    && 1 <= p.limit && |p.scan.ops| <= p.limit
    && watermark <= p.scan.cursor < log.nextSeq
    && (forall i :: 0 <= i < |p.scan.ops| ==> p.scan.ops[i].row.opSeq <= p.scan.cursor)
    && OpRows(p.scan.ops) == Delivered(p.looked)
    && RowsOf(p.looked) == Window(log.rows, watermark, p.scan.cursor)
  }

  /** The server has examined exactly the rows at or below the watermark, and delivered those not withheld. */
  ghost predicate ReaderGood(log: Log, r: Reader) {
    && r.watermark < log.nextSeq
    && RowsOf(r.seen) == Window(log.rows, 0, r.watermark)
    && r.received == Delivered(r.seen)
    && (r.pull.Some? ==> InFlightGood(log, r.watermark, r.pull.value))
  }

  ghost predicate Good(s: System) {
    s.log.Valid() && s.log.nextSeq >= 1 && forall r :: 0 <= r < |s.readers| ==> ReaderGood(s.log, s.readers[r])
  }

  /** Growing the log never puts a row at or below a watermark. */
  lemma AppendKeepsReader(log: Log, op: NormalizedOp, deviceId: string, now: int, r: Reader)
    requires log.Valid() && ReaderGood(log, r)
    ensures ReaderGood(Append(log, op, deviceId, now).0, r)
  {
    var log' := Append(log, op, deviceId, now).0;
    if log' != log {
      var added := [RowOf(op, deviceId, now, log.nextSeq)];
      WindowConcat(log.rows, added, 0, r.watermark);
      WindowEmpty(added, 0, r.watermark);
      if r.pull.Some? {
        WindowConcat(log.rows, added, r.watermark, r.pull.value.scan.cursor);
        WindowEmpty(added, r.watermark, r.pull.value.scan.cursor);
      }
    }
  }

  lemma BeginKeepsReader(log: Log, r: Reader, e: Event)
    requires log.Valid() && ReaderGood(log, r) && e.Begin?
    ensures ReaderGood(log, ReaderStep(log.rows, r, e))
  {
    WindowEmpty(log.rows, r.watermark, r.watermark);
  }

  lemma PageKeepsReader(log: Log, r: Reader, e: Event)
    requires log.Valid() && ReaderGood(log, r) && e.Page?
    ensures ReaderGood(log, ReaderStep(log.rows, r, e))
  {
    if r.pull.Some? && !Finished(r.pull.value) {
      var p := r.pull.value;
      var w := World(log.rows, e.tables, e.roleByDevice);
      var page := FetchPage(w.rows, p.scan.cursor, p.limit);
      var (s', es) := (PageStep(w, p.scan, p.limit), PageExamined(w, p.scan, p.limit));
      PageCovers(w, p.scan, p.limit);
      LoopBehindCursor(w, ArchivedIds(w.tables, UsableRows(page)), p.scan, page, p.limit);
      RowsOfConcat(p.looked, es);
      DeliveredConcat(p.looked, es);
      WindowJoin(log.rows, r.watermark, p.scan.cursor, s'.cursor);
    }
  }

  lemma AnswerKeepsReader(log: Log, r: Reader, e: Event)
    requires log.Valid() && ReaderGood(log, r) && e.Answer?
    ensures ReaderGood(log, ReaderStep(log.rows, r, e))
  {
    if r.pull.Some? && Finished(r.pull.value) {
      var p := r.pull.value;
      RowsOfConcat(r.seen, p.looked);
      DeliveredConcat(r.seen, p.looked);
      WindowJoin(log.rows, 0, r.watermark, p.scan.cursor);
    }
  }

  lemma StepKeepsGood(s: System, e: Event)
    requires Good(s)
    ensures Good(Step(s, e))
  {
    match e
    case AppendOp(op, deviceId, now) =>
      AppendKeepsValid(s.log, op, deviceId, now);
      forall r | 0 <= r < |s.readers|
        ensures ReaderGood(Step(s, e).log, s.readers[r])
      {
        AppendKeepsReader(s.log, op, deviceId, now, s.readers[r]);
      }
    case DrawElsewhere =>
    case Join => WindowEmpty(s.log.rows, 0, 0);
    case _ =>
      if e.reader < |s.readers| {
        var r := s.readers[e.reader];
        match e
        case Begin(_, _) => BeginKeepsReader(s.log, r, e);
        case Page(_, _, _) => PageKeepsReader(s.log, r, e);
        case Answer(_) => AnswerKeepsReader(s.log, r, e);
        case _ =>
      }
  }

  lemma {:induction false} RunKeepsGood(s: System, events: seq<Event>)
    requires Initial(s)
    ensures Good(Run(s, events))
    decreases |events|
  {
    if events != [] {
      RunKeepsGood(s, events[..|events| - 1]);
      StepKeepsGood(Run(s, events[..|events| - 1]), events[|events| - 1]);
    }
  }

  // ---- exactly once --------------------------------------------------------

  lemma {:induction false} WindowOnce(rows: seq<LogRow>, lo: nat, hi: nat, i: nat)
    requires Ascending(rows) && i < |rows| && Usable(rows[i]) && lo < rows[i].opSeq <= hi
    ensures multiset(Window(rows, lo, hi))[rows[i]] == 1
  {
    var rest := Window(rows[1..], lo, hi);
    if i == 0 {
      WindowAbove(rows[1..], lo, hi, rows[0].opSeq);
      assert rows[0] !in multiset(rest);
      assert Window(rows, lo, hi) == [rows[0]] + rest;
    } else {
      WindowOnce(rows[1..], lo, hi, i - 1);
      assert Window(rows, lo, hi) == Window(rows[..1], lo, hi) + rest by {
        assert rows == rows[..1] + rows[1..];
        WindowConcat(rows[..1], rows[1..], lo, hi);
      }
      assert rows[i] !in Window(rows[..1], lo, hi);
    }
  }

  lemma {:induction false} WindowAbove(rows: seq<LogRow>, lo: nat, hi: nat, floor: nat)
    requires forall i :: 0 <= i < |rows| ==> rows[i].opSeq > floor
    ensures forall row :: row in Window(rows, lo, hi) ==> row.opSeq > floor
  {
    if rows != [] {
      WindowAbove(rows[1..], lo, hi, floor);
    }
  }

  lemma {:induction false} DeliveredOrWithheld(es: seq<Examined>, row: LogRow)
    requires multiset(RowsOf(es))[row] == 1
    ensures exists k :: 0 <= k < |es| && es[k].row == row
                        && multiset(Delivered(es))[row] == if es[k].withheld then 0 else 1
  {
    var rest := RowsOf(es[1..]);
    assert RowsOf(es) == [es[0].row] + rest;
    if es[0].row == row {
      assert row !in multiset(rest);
      NotExaminedNotDelivered(es[1..], row);
      assert es[0].row == row && multiset(Delivered(es))[row] == if es[0].withheld then 0 else 1;
    } else {
      assert multiset(RowsOf(es)) == multiset{es[0].row} + multiset(rest);
      DeliveredOrWithheld(es[1..], row);
      var k :| 0 <= k < |es[1..]| && es[1..][k].row == row
               && multiset(Delivered(es[1..]))[row] == if es[1..][k].withheld then 0 else 1;
      assert es[k + 1] == es[1..][k];
      assert multiset(Delivered(es))[row] == multiset(Delivered(es[1..]))[row];
    }
  }

  lemma {:induction false} NotExaminedNotDelivered(es: seq<Examined>, row: LogRow)
    requires row !in RowsOf(es)
    ensures row !in Delivered(es)
  {
    if es != [] {
      NotExaminedNotDelivered(es[1..], row);
    }
  }

  /** The device's server examined this row, and it got it once, or not at all if that page withheld it. */
  ghost predicate AccountedFor(r: Reader, row: LogRow) {
    exists k :: 0 <= k < |r.seen| && r.seen[k].row == row
                && multiset(r.received)[row] == if r.seen[k].withheld then 0 else 1
  }

  lemma EachRowOnce(log: Log, r: Reader, i: nat)
    requires log.Valid() && ReaderGood(log, r)
    requires i < |log.rows| && 0 < log.rows[i].opSeq <= r.watermark
    ensures AccountedFor(r, log.rows[i])
  {
    WindowOnce(log.rows, 0, r.watermark, i);
    DeliveredOrWithheld(r.seen, log.rows[i]);
  }

  /**
   * No lost ops: in every reachable state, each log row at or below a device's
   * watermark was examined for that device, and the device received it exactly
   * once unless the page that examined it withheld it.
   */
  lemma NoOpIsLost(s: System, events: seq<Event>, reader: nat, i: nat)
    requires Initial(s)
    requires reader < |Run(s, events).readers| && i < |Run(s, events).log.rows|
    requires 0 < Run(s, events).log.rows[i].opSeq <= Run(s, events).readers[reader].watermark
    ensures AccountedFor(Run(s, events).readers[reader], Run(s, events).log.rows[i])
  {
    RunKeepsGood(s, events);
    var t := Run(s, events);
    assert ReaderGood(t.log, t.readers[reader]);
    EachRowOnce(t.log, t.readers[reader], i);
  }
}

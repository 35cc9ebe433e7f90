/**
 * The protocol that append_sync_audit_op replaced: a number is drawn in one
 * transaction and its row committed in a later one.
 */
module LegacyDraw {
  import opened Common
  import opened OpLog
  import opened ArchiveFilter
  import opened Pull
  import opened PullPages
  import Drain

  /** `drawn` holds numbered rows that are not committed yet; `rows` is in commit order. */
  datatype Legacy = Legacy(rows: seq<LogRow>, nextSeq: nat, drawn: seq<LogRow>, watermark: nat, received: seq<LogRow>)

  datatype Event =
    | Draw(op: NormalizedOp, deviceId: string, now: int)
    | Commit(index: nat)
    | PullOnce(tables: Tables, roleByDevice: map<string, string>, limitRaw: Option<nat>)

  function Worlds(s: Legacy, e: Event): seq<World>
    requires e.PullOnce?
  {
    seq(PULL_MAX_SCAN_PAGES, _ => World(s.rows, e.tables, e.roleByDevice))
  }

  function Step(s: Legacy, e: Event): Legacy {
    match e
    case Draw(op, deviceId, now) =>
      s.(nextSeq := s.nextSeq + 1, drawn := s.drawn + [RowOf(op, deviceId, now, s.nextSeq)])
    case Commit(i) =>
      if i < |s.drawn| then s.(rows := s.rows + [s.drawn[i]], drawn := s.drawn[..i] + s.drawn[i + 1..]) else s
    case PullOnce(_, _, limitRaw) =>
      var r := PullSpec(Worlds(s, e), s.watermark, EffectiveLimit(limitRaw));
      s.(watermark := r.nextSinceOpSeq, received := s.received + OpRows(r.ops))
  }

  function Run(s: Legacy, events: seq<Event>): Legacy
    decreases |events|
  {
    if events == [] then s else Step(Run(s, events[..|events| - 1]), events[|events| - 1])
  }

  /** Durably stored, at or below the watermark, and never delivered. */
  ghost predicate Lost(s: Legacy, row: LogRow) {
    row in s.rows && row.opSeq <= s.watermark && row !in s.received
  }

  lemma {:induction false} LoopStaysAbove(w: World, archived: set<string>, s: Scan, rows: seq<LogRow>, limit: nat,
                                          floor: nat)
    requires floor <= s.cursor && forall i :: 0 <= i < |s.ops| ==> s.ops[i].row.opSeq > floor
    requires forall i :: 0 <= i < |rows| ==> rows[i].opSeq > floor
    ensures var s' := HandleRows(w, archived, s, rows, limit);
            floor <= s'.cursor && forall i :: 0 <= i < |s'.ops| ==> s'.ops[i].row.opSeq > floor
    decreases |rows|
  {
    if rows != [] && |s.ops| < limit {
      LoopStaysAbove(w, archived, HandleRow(w, archived, s, rows[0]), rows[1..], limit, floor);
    }
  }

  lemma {:induction false} ScanStaysAbove(worlds: seq<World>, s: Scan, limit: nat, floor: nat)
    requires floor <= s.cursor && forall i :: 0 <= i < |s.ops| ==> s.ops[i].row.opSeq > floor
    ensures var s' := ScanPages(worlds, s, limit);
            floor <= s'.cursor && forall i :: 0 <= i < |s'.ops| ==> s'.ops[i].row.opSeq > floor
    decreases |worlds|
  {
    if worlds != [] && s.status == Scanning {
      var rows := FetchPage(worlds[0].rows, s.cursor, limit);
      PageIsAbove(worlds[0].rows, s.cursor, limit);
      LoopStaysAbove(worlds[0], ArchivedIds(worlds[0].tables, UsableRows(rows)), s, rows, limit, floor);
      assert ScanPages(worlds, s, limit) == ScanPages(worlds[1..], PageStep(worlds[0], s, limit), limit);
      ScanStaysAbove(worlds[1..], PageStep(worlds[0], s, limit), limit, floor);
    }
  }

  /** No later draw, commit or pull brings a lost row back. */
  lemma {:induction false} LossIsForever(s: Legacy, events: seq<Event>, row: LogRow)
    requires Lost(s, row)
    ensures Lost(Run(s, events), row)
    decreases |events|
  {
    if events != [] {
      var (before, e) := (Run(s, events[..|events| - 1]), events[|events| - 1]);
      LossIsForever(s, events[..|events| - 1], row);
      if e.PullOnce? {
        ScanStaysAbove(Worlds(before, e), Scan(before.watermark, [], Scanning), EffectiveLimit(e.limitRaw),
                       before.watermark);
      }
    }
  }

  lemma {:induction false} OnlyFromLog(rows: seq<LogRow>, t: Tables, lo: nat, hi: nat)
    ensures forall row :: row in Drain.Deliverable(rows, t, lo, hi) ==> row in rows
  {
    if rows != [] {
      OnlyFromLog(rows[1..], t, lo, hi);
    }
  }

  /** The reader that pulls a log holding only B's row moves past it and gets nothing else. */
  lemma PullPastB(rowB: LogRow, rowA: LogRow, s: Legacy, e: Event)
    requires e.PullOnce? && s.rows == [rowB] && s.watermark < rowB.opSeq && Usable(rowB)
    requires rowA != rowB && s.received == []
    ensures Step(s, e).watermark >= rowB.opSeq && rowA !in Step(s, e).received
  {
    var w := World([rowB], e.tables, e.roleByDevice);
    var limit := EffectiveLimit(e.limitRaw);
    var r := PullSpec(Worlds(s, e), s.watermark, limit);
    Drain.PullIsFilter(Worlds(s, e), w, s.watermark, limit);
    Drain.PullAdvances(Worlds(s, e), w, s.watermark, limit);
    OnlyFromLog([rowB], e.tables, s.watermark, r.nextSinceOpSeq);
    assert !r.hasMore ==> w.rows[0].opSeq <= r.nextSinceOpSeq;
  }

  function Race(a: NormalizedOp, b: NormalizedOp, pull: Event): seq<Event> {
    [Draw(a, "A", 0), Draw(b, "B", 0), Commit(1), pull, Commit(0)]
  }

  lemma RaceUnfolds(a: NormalizedOp, b: NormalizedOp, pull: Event)
    ensures var s3 := Legacy([RowOf(b, "B", 0, 2)], 3, [RowOf(a, "A", 0, 1)], 0, []);
            Run(Legacy([], 1, [], 0, []), Race(a, b, pull)) == Step(Step(s3, pull), Commit(0))
  {
    var (rowA, rowB) := (RowOf(a, "A", 0, 1), RowOf(b, "B", 0, 2));
    var (events, s0) := (Race(a, b, pull), Legacy([], 1, [], 0, []));
    assert events[..1][..0] == [] && events[..2][..1] == events[..1] && events[..3][..2] == events[..2];
    assert events[..4][..3] == events[..3] && events[..5][..4] == events[..4] && events[..5] == events;
    assert Run(s0, events[..1]) == Legacy([], 2, [rowA], 0, []);
    assert Run(s0, events[..2]) == Legacy([], 3, [rowA, rowB], 0, []);
    assert Run(s0, events[..3]) == Legacy([rowB], 3, [rowA], 0, []);
    assert Run(s0, events[..4]) == Step(Run(s0, events[..3]), pull);
  }

  /**
   * Two writers and one reader are enough: A draws, B draws and commits, the
   * reader pulls, A commits. A's row is then lost, whatever the limit and the
   * archive state.
   */
  lemma SplitDrawLosesAnOp(a: NormalizedOp, b: NormalizedOp, tables: Tables, limitRaw: Option<nat>)
    requires a.id != b.id
    ensures Lost(Run(Legacy([], 1, [], 0, []), Race(a, b, PullOnce(tables, map[], limitRaw))), RowOf(a, "A", 0, 1))
  {
    var (rowA, rowB) := (RowOf(a, "A", 0, 1), RowOf(b, "B", 0, 2));
    var pull := PullOnce(tables, map[], limitRaw);
    var s3 := Legacy([rowB], 3, [rowA], 0, []);
    RaceUnfolds(a, b, pull);
    PullPastB(rowB, rowA, s3, pull);
    assert Step(Step(s3, pull), Commit(0)).rows == [rowB] + [rowA];
  }
}

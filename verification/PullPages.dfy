/** What one page and one whole pull examine, deliver and leave behind. */
module PullPages {
  import opened Common
  import opened OpLog
  import opened ArchiveFilter
  import opened Pull

  /** A row the handler looked at, and whether that page withheld it. */
  datatype Examined = Examined(row: LogRow, withheld: bool)

  function RowsOf(es: seq<Examined>): seq<LogRow> {
    if es == [] then [] else [es[0].row] + RowsOf(es[1..])
  }

  function Delivered(es: seq<Examined>): seq<LogRow> {
    if es == [] then [] else (if es[0].withheld then [] else [es[0].row]) + Delivered(es[1..])
  }

  function OpRows(ops: seq<PullOp>): seq<LogRow> {
    seq(|ops|, i requires 0 <= i < |ops| => ops[i].row)
  }

  /** The stamped rows numbered above `lo` and up to `hi`, in log order. */
  function Window(rows: seq<LogRow>, lo: nat, hi: nat): seq<LogRow> {
    if rows == [] then []
    else (if Usable(rows[0]) && lo < rows[0].opSeq <= hi then [rows[0]] else []) + Window(rows[1..], lo, hi)
  }

  lemma {:induction false} WindowConcat(a: seq<LogRow>, b: seq<LogRow>, lo: nat, hi: nat)
    ensures Window(a + b, lo, hi) == Window(a, lo, hi) + Window(b, lo, hi)
  {
    if a == [] {
      assert a + b == b;
    } else {
      assert (a + b)[1..] == a[1..] + b;
      WindowConcat(a[1..], b, lo, hi);
    }
  }

  lemma {:induction false} WindowEmpty(rows: seq<LogRow>, lo: nat, hi: nat)
    requires forall i :: 0 <= i < |rows| ==> !(Usable(rows[i]) && lo < rows[i].opSeq <= hi)
    ensures Window(rows, lo, hi) == []
  {
    if rows != [] {
      WindowEmpty(rows[1..], lo, hi);
    }
  }

  lemma {:induction false} WindowJoin(rows: seq<LogRow>, lo: nat, mid: nat, hi: nat)
    requires Ascending(rows) && lo <= mid <= hi
    ensures Window(rows, lo, hi) == Window(rows, lo, mid) + Window(rows, mid, hi)
  {
    if rows != [] {
      WindowJoin(rows[1..], lo, mid, hi);
      if rows[0].opSeq > mid {
        WindowEmpty(rows, lo, mid);
      }
    }
  }

  lemma {:induction false} RowsOfConcat(a: seq<Examined>, b: seq<Examined>)
    ensures RowsOf(a + b) == RowsOf(a) + RowsOf(b)
  {
    if a == [] {
      assert a + b == b;
    } else {
      assert (a + b)[0] == a[0] && (a + b)[1..] == a[1..] + b;
      RowsOfConcat(a[1..], b);
    }
  }

  lemma {:induction false} DeliveredConcat(a: seq<Examined>, b: seq<Examined>)
    ensures Delivered(a + b) == Delivered(a) + Delivered(b)
  {
    if a == [] {
      assert a + b == b;
    } else {
      assert (a + b)[0] == a[0] && (a + b)[1..] == a[1..] + b;
      DeliveredConcat(a[1..], b);
    }
  }

  // ---- one page ------------------------------------------------------------

  /** The rows the row loop gets to, starting with `taken` ops already collected. */
  function ExaminedRows(archived: set<string>, taken: nat, rows: seq<LogRow>, limit: nat): seq<Examined>
    decreases |rows|
  {
    if rows == [] || taken >= limit then []
    else if !Usable(rows[0]) then ExaminedRows(archived, taken, rows[1..], limit)
    else
      var withheld := rows[0].entityId in archived;
      [Examined(rows[0], withheld)] + ExaminedRows(archived, if withheld then taken else taken + 1, rows[1..], limit)
  }

  function PageExamined(w: World, s: Scan, limit: nat): seq<Examined> {
    var rows := FetchPage(w.rows, s.cursor, limit);
    ExaminedRows(ArchivedIds(w.tables, UsableRows(rows)), |s.ops|, rows, limit)
  }

  lemma {:induction false} RowLoopDelivers(w: World, archived: set<string>, s: Scan, rows: seq<LogRow>, limit: nat)
    requires |s.ops| <= limit
    ensures var s' := HandleRows(w, archived, s, rows, limit);
            && OpRows(s'.ops) == OpRows(s.ops) + Delivered(ExaminedRows(archived, |s.ops|, rows, limit))
            && |s'.ops| <= limit
            && (s.status == Scanning ==> s'.status != Exhausted)
    decreases |rows|
  {
    if rows != [] && |s.ops| < limit {
      RowLoopDelivers(w, archived, HandleRow(w, archived, s, rows[0]), rows[1..], limit);
    }
  }

  lemma {:induction false} RowLoopCursor(w: World, archived: set<string>, s: Scan, rows: seq<LogRow>, limit: nat)
    requires Ascending(rows) && forall i :: 0 <= i < |rows| ==> rows[i].opSeq > s.cursor
    ensures var s' := HandleRows(w, archived, s, rows, limit);
            && s.cursor <= s'.cursor
            && (s'.cursor == s.cursor || exists i :: 0 <= i < |rows| && rows[i].opSeq == s'.cursor)
            && Window(rows, s.cursor, s'.cursor) == RowsOf(ExaminedRows(archived, |s.ops|, rows, limit))
            && (s'.status == Scanning ==> forall i :: 0 <= i < |rows| && Usable(rows[i]) ==> rows[i].opSeq <= s'.cursor)
            && (|s.ops| < limit ==> (s.cursor < s'.cursor <==> exists i :: 0 <= i < |rows| && Usable(rows[i])))
    decreases |rows|
  {
    if rows == [] {
    } else if |s.ops| >= limit {
      WindowEmpty(rows, s.cursor, s.cursor);
    } else {
      var s1 := HandleRow(w, archived, s, rows[0]);
      RowLoopCursor(w, archived, s1, rows[1..], limit);
      var s' := HandleRows(w, archived, s1, rows[1..], limit);
      WindowFrom(rows[1..], s.cursor, s1.cursor, s'.cursor);
    }
  }

  /** Raising the lower end below every row changes nothing. */
  lemma {:induction false} WindowFrom(rows: seq<LogRow>, lo: nat, lo': nat, hi: nat)
    requires lo <= lo' && forall i :: 0 <= i < |rows| ==> rows[i].opSeq > lo'
    ensures Window(rows, lo, hi) == Window(rows, lo', hi)
  {
    if rows != [] {
      WindowFrom(rows[1..], lo, lo', hi);
    }
  }

  /** A window only sees the stretch of the log it falls in. */
  lemma WindowOfSlice(rows: seq<LogRow>, start: nat, end: nat, lo: nat, hi: nat)
    requires start <= end <= |rows|
    requires forall i :: 0 <= i < start ==> rows[i].opSeq <= lo
    requires forall i :: end <= i < |rows| ==> rows[i].opSeq > hi
    ensures Window(rows, lo, hi) == Window(rows[start..end], lo, hi)
  {
    assert rows == rows[..start] + (rows[start..end] + rows[end..]);
    WindowConcat(rows[..start], rows[start..end] + rows[end..], lo, hi);
    WindowConcat(rows[start..end], rows[end..], lo, hi);
    WindowEmpty(rows[..start], lo, hi);
    WindowEmpty(rows[end..], lo, hi);
  }

  /** The page at a cursor, as a stretch of the log. */
  lemma PageRows(rows: seq<LogRow>, cursor: nat, limit: nat) returns (start: nat, end: nat)
    requires Ascending(rows)
    ensures start <= end <= |rows| && FetchPage(rows, cursor, limit) == rows[start..end]
    ensures forall i :: 0 <= i < start ==> rows[i].opSeq <= cursor
    ensures forall i :: start <= i < |rows| ==> rows[i].opSeq > cursor
    ensures end - start <= limit
    ensures end - start < limit ==> end == |rows|
  {
    PageIsSlice(rows, cursor, limit);
    start := Rank(rows, cursor);
    end := Min(start + limit, |rows|);
  }

  ghost predicate NothingAbove(rows: seq<LogRow>, cursor: nat) {
    forall i :: 0 <= i < |rows| && Usable(rows[i]) ==> rows[i].opSeq <= cursor
  }

  ghost predicate ReachedByRow(rows: seq<LogRow>, from: nat, cursor: nat) {
    cursor == from || exists i :: 0 <= i < |rows| && rows[i].opSeq == cursor
  }

  /** The row loop over the stretch of log above the cursor. */
  lemma LoopCovers(w: World, archived: set<string>, s: Scan, start: nat, end: nat, limit: nat)
    requires Ascending(w.rows) && start <= end <= |w.rows|
    requires forall i :: 0 <= i < start ==> w.rows[i].opSeq <= s.cursor
    requires forall i :: start <= i < |w.rows| ==> w.rows[i].opSeq > s.cursor
    ensures var (rows, s') := (w.rows[start..end], HandleRows(w, archived, s, w.rows[start..end], limit));
            && s.cursor <= s'.cursor && ReachedByRow(w.rows, s.cursor, s'.cursor)
            && RowsOf(ExaminedRows(archived, |s.ops|, rows, limit)) == Window(w.rows, s.cursor, s'.cursor)
            && (s'.status == Scanning && end == |w.rows| ==> NothingAbove(w.rows, s'.cursor))
  {
    var rows := w.rows[start..end];
    var s' := HandleRows(w, archived, s, rows, limit);
    RowLoopCursor(w, archived, s, rows, limit);
    hide HandleRows, ExaminedRows, Window, RowsOf;
    if s'.cursor != s.cursor {
      var i :| 0 <= i < |rows| && rows[i].opSeq == s'.cursor;
      assert w.rows[start + i] == rows[i];
    }
    WindowOfSlice(w.rows, start, end, s.cursor, s'.cursor);
    if s'.status == Scanning && end == |w.rows| {
      forall i | 0 <= i < |w.rows| && Usable(w.rows[i])
        ensures w.rows[i].opSeq <= s'.cursor
      {
        assert i >= start ==> w.rows[i] == rows[i - start];
      }
    }
  }

  /**
   * One page turn over a commit-ordered log: the rows examined are exactly the
   * stamped rows the cursor moved across, the ops grow by those not withheld, and
   * an exhausted scan has left nothing above its cursor.
   */
  lemma PageCovers(w: World, s: Scan, limit: nat)
    requires Ascending(w.rows) && s.status == Scanning && |s.ops| <= limit && 1 <= limit
    ensures var (s', es) := (PageStep(w, s, limit), PageExamined(w, s, limit));
            && s.cursor <= s'.cursor && ReachedByRow(w.rows, s.cursor, s'.cursor)
            && RowsOf(es) == Window(w.rows, s.cursor, s'.cursor)
            && OpRows(s'.ops) == OpRows(s.ops) + Delivered(es)
            && |s'.ops| <= limit
            && (s'.status == Exhausted ==> NothingAbove(w.rows, s'.cursor))
  {
    var start, end := PageRows(w.rows, s.cursor, limit);
    var archived := ArchivedIds(w.tables, UsableRows(w.rows[start..end]));
    RowLoopDelivers(w, archived, s, w.rows[start..end], limit);
    LoopCovers(w, archived, s, start, end, limit);
  }

  lemma {:induction false} LoopBehindCursor(w: World, archived: set<string>, s: Scan, rows: seq<LogRow>, limit: nat)
    requires forall i :: 0 <= i < |s.ops| ==> s.ops[i].row.opSeq <= s.cursor
    ensures var s' := HandleRows(w, archived, s, rows, limit);
            s.cursor <= s'.cursor && forall i :: 0 <= i < |s'.ops| ==> s'.ops[i].row.opSeq <= s'.cursor
    decreases |rows|
  {
    if rows != [] && |s.ops| < limit {
      LoopBehindCursor(w, archived, HandleRow(w, archived, s, rows[0]), rows[1..], limit);
    }
  }

  /**
   * A page turn gets stuck (nothing examined, nothing finished) exactly when the
   * page is full and every row on it lacks its server stamp.
   */
  lemma PageStuckIff(w: World, s: Scan, limit: nat)
    requires Ascending(w.rows) && s.status == Scanning && |s.ops| < limit
    ensures var (s', page) := (PageStep(w, s, limit), FetchPage(w.rows, s.cursor, limit));
            (s'.status != Exhausted && s'.cursor == s.cursor)
            <==> (|page| == limit && forall i :: 0 <= i < |page| ==> !Usable(page[i]))
  {
    var start, end := PageRows(w.rows, s.cursor, limit);
    var rows := w.rows[start..end];
    var archived := ArchivedIds(w.tables, UsableRows(rows));
    RowLoopCursor(w, archived, s, rows, limit);
    RowLoopDelivers(w, archived, s, rows, limit);
    if forall i :: 0 <= i < |rows| ==> !Usable(rows[i]) {
      UnstampedIgnored(w, archived, s, rows, limit);
    }
  }

  lemma {:induction false} UnstampedIgnored(w: World, archived: set<string>, s: Scan, rows: seq<LogRow>, limit: nat)
    requires |s.ops| < limit && forall i :: 0 <= i < |rows| ==> !Usable(rows[i])
    ensures HandleRows(w, archived, s, rows, limit) == s
    decreases |rows|
  {
    if rows != [] {
      UnstampedIgnored(w, archived, s, rows[1..], limit);
    }
  }
}

/** A whole pull, and a client that pulls until nothing is left. */
module Drain {
  import opened Common
  import opened OpLog
  import opened ArchiveFilter
  import opened Pull
  import opened PullPages

  /** The rows a client must end up with: stamped, numbered in range, not under an archived ledger. */
  function Deliverable(rows: seq<LogRow>, t: Tables, lo: nat, hi: nat): seq<LogRow> {
    if rows == [] then []
    else
      (if Usable(rows[0]) && lo < rows[0].opSeq <= hi && !RowArchived(t, rows[0]) then [rows[0]] else [])
      + Deliverable(rows[1..], t, lo, hi)
  }

  ghost predicate Settled(w: World) {
    Ascending(w.rows) && IdsUniqueAcrossTypes(w.rows)
  }

  /** Every examined row was judged by its own archive rule. */
  ghost predicate JudgedByRule(t: Tables, es: seq<Examined>) {
    forall i :: 0 <= i < |es| ==> (es[i].withheld <==> RowArchived(t, es[i].row))
  }

  lemma {:induction false} UsableRowsAre(rows: seq<LogRow>)
    ensures forall row :: row in UsableRows(rows) <==> row in rows && Usable(row)
  {
    if rows != [] {
      UsableRowsAre(rows[..|rows| - 1]);
      assert rows == rows[..|rows| - 1] + [rows[|rows| - 1]];
    }
  }

  lemma {:induction false} ExaminedJudged(t: Tables, archived: set<string>, taken: nat, rows: seq<LogRow>, limit: nat)
    requires forall i :: 0 <= i < |rows| && Usable(rows[i])
               ==> (rows[i].entityId in archived <==> RowArchived(t, rows[i]))
    ensures JudgedByRule(t, ExaminedRows(archived, taken, rows, limit))
    decreases |rows|
  {
    if rows != [] && taken < limit {
      var withheld := rows[0].entityId in archived;
      ExaminedJudged(t, archived, if !Usable(rows[0]) || withheld then taken else taken + 1, rows[1..], limit);
    }
  }

  lemma PageJudged(w: World, s: Scan, limit: nat)
    requires Settled(w)
    ensures JudgedByRule(w.tables, PageExamined(w, s, limit))
  {
    var start, end := PageRows(w.rows, s.cursor, limit);
    var rows := w.rows[start..end];
    var usable := UsableRows(rows);
    UsableRowsAre(rows);
    forall i | 0 <= i < |rows| && Usable(rows[i])
      ensures rows[i].entityId in ArchivedIds(w.tables, usable) <==> RowArchived(w.tables, rows[i])
    {
      var j :| 0 <= j < |usable| && usable[j] == rows[i];
      forall a, b | 0 <= a < |usable| && 0 <= b < |usable| && usable[a].entityId == usable[b].entityId
        ensures usable[a].entityType == usable[b].entityType
      {
        assert usable[a] in rows && usable[b] in rows;
        assert usable[a] in w.rows && usable[b] in w.rows;
      }
      BulkIsPerRow(w.tables, usable, j);
    }
    ExaminedJudged(w.tables, ArchivedIds(w.tables, usable), |s.ops|, rows, limit);
  }

  /** A stretch of log judged row by row yields exactly its deliverable rows. */
  lemma {:induction false} JudgedDelivers(rows: seq<LogRow>, t: Tables, es: seq<Examined>, lo: nat, hi: nat)
    requires JudgedByRule(t, es) && RowsOf(es) == Window(rows, lo, hi)
    ensures Delivered(es) == Deliverable(rows, t, lo, hi)
    decreases |rows|
  {
    if rows == [] {
      assert es == [];
    } else if Usable(rows[0]) && lo < rows[0].opSeq <= hi {
      assert es != [] && RowsOf(es)[1..] == RowsOf(es[1..]);
      assert Window(rows, lo, hi)[1..] == Window(rows[1..], lo, hi);
      JudgedDelivers(rows[1..], t, es[1..], lo, hi);
    } else {
      JudgedDelivers(rows[1..], t, es, lo, hi);
    }
  }

  lemma {:induction false} DeliverableJoin(rows: seq<LogRow>, t: Tables, lo: nat, mid: nat, hi: nat)
    requires Ascending(rows) && lo <= mid <= hi
    ensures Deliverable(rows, t, lo, hi) == Deliverable(rows, t, lo, mid) + Deliverable(rows, t, mid, hi)
  {
    if rows != [] {
      DeliverableJoin(rows[1..], t, lo, mid, hi);
      if rows[0].opSeq > mid {
        DeliverableNone(rows, t, lo, mid);
      }
    }
  }

  lemma {:induction false} DeliverableNone(rows: seq<LogRow>, t: Tables, lo: nat, hi: nat)
    requires forall i :: 0 <= i < |rows| ==> !(Usable(rows[i]) && lo < rows[i].opSeq <= hi)
    ensures Deliverable(rows, t, lo, hi) == []
  {
    if rows != [] {
      DeliverableNone(rows[1..], t, lo, hi);
    }
  }

  /** Every page of the request saw the same database. */
  ghost predicate SameWorld(worlds: seq<World>, w: World) {
    forall i :: 0 <= i < |worlds| ==> worlds[i] == w
  }

  /** One page turn on a settled log delivers by the per-row rule. */
  lemma PageOnSettledLog(w: World, s: Scan, limit: nat)
    requires Settled(w) && s.status == Scanning && |s.ops| <= limit && 1 <= limit
    ensures var s' := PageStep(w, s, limit);
            && s.cursor <= s'.cursor && |s'.ops| <= limit && ReachedByRow(w.rows, s.cursor, s'.cursor)
            && OpRows(s'.ops) == OpRows(s.ops) + Deliverable(w.rows, w.tables, s.cursor, s'.cursor)
            && (s'.status == Exhausted ==> NothingAbove(w.rows, s'.cursor))
  {
    PageCovers(w, s, limit);
    PageJudged(w, s, limit);
    JudgedDelivers(w.rows, w.tables, PageExamined(w, s, limit), s.cursor, PageStep(w, s, limit).cursor);
  }

  lemma NextPage(worlds: seq<World>, s: Scan, limit: nat)
    requires worlds != [] && s.status == Scanning
    ensures ScanPages(worlds, s, limit) == ScanPages(worlds[1..], PageStep(worlds[0], s, limit), limit)
  {
    hide PageStep;
  }

  /** From one state of a scan to a later one, on a settled log. */
  ghost predicate Delivers(w: World, s: Scan, s': Scan, limit: nat) {
    && s.cursor <= s'.cursor && |s'.ops| <= limit && ReachedByRow(w.rows, s.cursor, s'.cursor)
    && OpRows(s'.ops) == OpRows(s.ops) + Deliverable(w.rows, w.tables, s.cursor, s'.cursor)
    && (s'.status == Exhausted && s.status == Scanning ==> NothingAbove(w.rows, s'.cursor))
  }

  lemma DeliversTwice(w: World, s: Scan, s1: Scan, s2: Scan, limit: nat)
    requires Ascending(w.rows) && Delivers(w, s, s1, limit) && Delivers(w, s1, s2, limit)
    requires s1.status == Scanning || s2 == s1
    ensures Delivers(w, s, s2, limit)
  {
    DeliverableJoin(w.rows, w.tables, s.cursor, s1.cursor, s2.cursor);
    hide OpRows, Deliverable, NothingAbove;
  }

  lemma {:induction false} ScanOnSettledLog(worlds: seq<World>, w: World, s: Scan, limit: nat)
    requires SameWorld(worlds, w) && Settled(w) && |s.ops| <= limit && 1 <= limit
    ensures Delivers(w, s, ScanPages(worlds, s, limit), limit)
    decreases |worlds|
  {
    if worlds == [] || s.status != Scanning {
      DeliverableNone(w.rows, w.tables, s.cursor, s.cursor);
      assert OpRows(s.ops) + [] == OpRows(s.ops);
    } else {
      var s1 := PageStep(w, s, limit);
      PageOnSettledLog(w, s, limit);
      NextPage(worlds, s, limit);
      hide PageStep, OpRows, Deliverable, NothingAbove, ReachedByRow;
      ScanOnSettledLog(worlds[1..], w, s1, limit);
      DeliversTwice(w, s, s1, ScanPages(worlds, s, limit), limit);
    }
  }

  /** The last op returned is never above the cursor. */
  ghost predicate OpsBehind(s: Scan) {
    forall i :: 0 <= i < |s.ops| ==> s.ops[i].row.opSeq <= s.cursor
  }

  lemma PageKeepsOpsBehind(w: World, s: Scan, limit: nat)
    requires OpsBehind(s)
    ensures OpsBehind(PageStep(w, s, limit))
  {
    var rows := FetchPage(w.rows, s.cursor, limit);
    LoopBehindCursor(w, ArchivedIds(w.tables, UsableRows(rows)), s, rows, limit);
    hide FetchPage, HandleRows, ArchivedIds;
  }

  lemma {:induction false} OpsBehindCursor(worlds: seq<World>, s: Scan, limit: nat)
    requires OpsBehind(s)
    ensures OpsBehind(ScanPages(worlds, s, limit))
    decreases |worlds|
  {
    hide PageStep, OpsBehind;
    if worlds != [] && s.status == Scanning {
      PageKeepsOpsBehind(worlds[0], s, limit);
      NextPage(worlds, s, limit);
      OpsBehindCursor(worlds[1..], PageStep(worlds[0], s, limit), limit);
    }
  }

  /**
   * One request on a settled log returns at most `limit` ops, and they are exactly
   * the deliverable rows between the two watermarks; without `has_more` nothing
   * stamped is left above the new one.
   */
  lemma PullIsFilter(worlds: seq<World>, w: World, since: nat, limit: nat)
    requires SameWorld(worlds, w) && Settled(w) && 1 <= limit
    ensures var r := PullSpec(worlds, since, limit);
            && |r.ops| <= limit && since <= r.nextSinceOpSeq && ReachedByRow(w.rows, since, r.nextSinceOpSeq)
            && OpRows(r.ops) == Deliverable(w.rows, w.tables, since, r.nextSinceOpSeq)
            && (!r.hasMore ==> NothingAbove(w.rows, r.nextSinceOpSeq))
  {
    var start := Scan(since, [], Scanning);
    ScanOnSettledLog(worlds, w, start, limit);
    OpsBehindCursor(worlds, start, limit);
    assert OpRows(start.ops) == [];
    hide ScanPages, OpRows, Deliverable, NothingAbove, ReachedByRow;
  }

  /** With every row stamped, a first page that leaves the scan unfinished has advanced it. */
  lemma FirstPageAdvances(w: World, since: nat, limit: nat)
    requires Settled(w) && 1 <= limit && forall i :: 0 <= i < |w.rows| ==> Usable(w.rows[i])
    ensures var s1 := PageStep(w, Scan(since, [], Scanning), limit);
            since <= s1.cursor && |s1.ops| <= limit && (s1.status != Exhausted ==> since < s1.cursor)
  {
    var start := Scan(since, [], Scanning);
    var _, _ := PageRows(w.rows, since, limit);
    PageStuckIff(w, start, limit);
    PageOnSettledLog(w, start, limit);
    hide PageStep, Deliverable, OpRows;
  }

  /** So a request that reports more to come has advanced. */
  lemma PullAdvances(worlds: seq<World>, w: World, since: nat, limit: nat)
    requires SameWorld(worlds, w) && Settled(w) && 1 <= limit && worlds != []
    requires forall i :: 0 <= i < |w.rows| ==> Usable(w.rows[i])
    ensures PullSpec(worlds, since, limit).hasMore ==> since < PullSpec(worlds, since, limit).nextSinceOpSeq
  {
    var start := Scan(since, [], Scanning);
    assert worlds[0] == w;
    FirstPageAdvances(w, since, limit);
    NextPage(worlds, start, limit);
    var s1 := PageStep(w, start, limit);
    ScanOnSettledLog(worlds[1..], w, s1, limit);
    hide PageStep, OpRows, Deliverable, NothingAbove, ReachedByRow, SameWorld, Settled;
    assert s1.status == Exhausted ==> ScanPages(worlds[1..], s1, limit) == s1;
    hide ScanPages;
  }

  function RowsAbove(rows: seq<LogRow>, since: nat): nat {
    if rows == [] then 0 else (if rows[0].opSeq > since then 1 else 0) + RowsAbove(rows[1..], since)
  }

  lemma {:induction false} RowsAboveDrops(rows: seq<LogRow>, lo: nat, hi: nat)
    requires lo <= hi
    ensures RowsAbove(rows, hi) <= RowsAbove(rows, lo)
    ensures (exists i :: 0 <= i < |rows| && lo < rows[i].opSeq <= hi) ==> RowsAbove(rows, hi) < RowsAbove(rows, lo)
  {
    if rows != [] {
      RowsAboveDrops(rows[1..], lo, hi);
      if i :| 0 <= i < |rows| && lo < rows[i].opSeq <= hi {
        if i > 0 {
          assert rows[1..][i - 1] == rows[i];
        }
      }
    }
  }

  const MAX_PULL_PAGES_PER_CYCLE: nat := 25

  /** What a device that adopted `from` and then `to` has been given. */
  ghost predicate Gave(w: World, ops: seq<PullOp>, from: nat, to: nat) {
    from <= to && OpRows(ops) == Deliverable(w.rows, w.tables, from, to)
  }

  lemma GaveNothing(w: World, at: nat)
    ensures Gave(w, [], at, at)
  {
    DeliverableNone(w.rows, w.tables, at, at);
  }

  lemma GaveMore(w: World, ops: seq<PullOp>, more: seq<PullOp>, from: nat, mid: nat, to: nat)
    requires Ascending(w.rows) && Gave(w, ops, from, mid) && Gave(w, more, mid, to)
    ensures Gave(w, ops + more, from, to)
  {
    DeliverableJoin(w.rows, w.tables, from, mid, to);
  }

  /** One request of the client loop. */
  lemma OneRequest(w: World, since: nat, limitRaw: Option<nat>)
    requires Settled(w) && forall i :: 0 <= i < |w.rows| ==> Usable(w.rows[i])
    ensures var r := PullSpec(seq(PULL_MAX_SCAN_PAGES, _ => w), since, EffectiveLimit(limitRaw));
            && Gave(w, r.ops, since, r.nextSinceOpSeq)
            && (!r.hasMore ==> NothingAbove(w.rows, r.nextSinceOpSeq))
            && (r.hasMore ==> RowsAbove(w.rows, r.nextSinceOpSeq) < RowsAbove(w.rows, since))
  {
    var worlds := seq(PULL_MAX_SCAN_PAGES, _ => w);
    var limit := EffectiveLimit(limitRaw);
    PullIsFilter(worlds, w, since, limit);
    PullAdvances(worlds, w, since, limit);
    RowsAboveDrops(w.rows, since, PullSpec(worlds, since, limit).nextSinceOpSeq);
    hide PullSpec, NothingAbove, RowsAbove, Deliverable, OpRows, Settled;
  }

  /**
   * One sync cycle: adopt `next_since_op_seq` and pull again while there is more, at
   * most 25 times. What arrives is what is deliverable between the two watermarks;
   * either nothing is left, or the backlog has shrunk by 25 rows at least.
   */
  method PullCycle(w: World, since: nat, limitRaw: Option<nat>)
    returns (ops: seq<PullOp>, watermark: nat, hasMore: bool)
    requires Settled(w) && forall i :: 0 <= i < |w.rows| ==> Usable(w.rows[i])
    ensures Gave(w, ops, since, watermark)
    ensures !hasMore ==> NothingAbove(w.rows, watermark)
    ensures hasMore ==> RowsAbove(w.rows, watermark) + 25 <= RowsAbove(w.rows, since)
  {
    hide PullSpec, NothingAbove, RowsAbove, Gave, Settled;
    ops, watermark, hasMore := [], since, true;
    GaveNothing(w, since);
    var page := 0;
    while page < MAX_PULL_PAGES_PER_CYCLE && hasMore
      invariant page <= MAX_PULL_PAGES_PER_CYCLE && Gave(w, ops, since, watermark)
      invariant !hasMore ==> NothingAbove(w.rows, watermark)
      invariant hasMore ==> RowsAbove(w.rows, watermark) + page <= RowsAbove(w.rows, since)
    {
      var response := PullSyncOps(seq(PULL_MAX_SCAN_PAGES, _ => w), watermark, limitRaw);
      OneRequest(w, watermark, limitRaw);
      GaveMoreOnSettled(w, ops, response.ops, since, watermark, response.nextSinceOpSeq);
      ops := ops + response.ops;
      watermark := response.nextSinceOpSeq;
      hasMore := response.hasMore;
      page := page + 1;
    }
  }

  lemma GaveMoreOnSettled(w: World, ops: seq<PullOp>, more: seq<PullOp>, from: nat, mid: nat, to: nat)
    requires Settled(w) && Gave(w, ops, from, mid) && Gave(w, more, mid, to)
    ensures Gave(w, ops + more, from, to)
  {
    hide Gave;
    GaveMore(w, ops, more, from, mid, to);
  }

  /**
   * Cycles until one reports that nothing is left: there are finitely many, and the
   * ops of all of them together are the deliverable rows above the start, in log
   * order, whatever the limit of each request.
   */
  method DrainAll(w: World, since: nat, limitRaw: Option<nat>) returns (ops: seq<PullOp>, watermark: nat)
    requires Settled(w) && forall i :: 0 <= i < |w.rows| ==> Usable(w.rows[i])
    ensures since <= watermark && NothingAbove(w.rows, watermark)
    ensures OpRows(ops) == Deliverable(w.rows, w.tables, since, watermark)
  {
    hide NothingAbove, RowsAbove, Settled, OpRows, Deliverable;
    var hasMore: bool;
    ops, watermark, hasMore := PullCycle(w, since, limitRaw);
    while hasMore
      invariant Gave(w, ops, since, watermark)
      invariant !hasMore ==> NothingAbove(w.rows, watermark)
      decreases RowsAbove(w.rows, watermark), hasMore
    {
      var more, next, again := PullCycle(w, watermark, limitRaw);
      GaveMoreOnSettled(w, ops, more, since, watermark, next);
      DropsNever(w.rows, watermark, next);
      ops, watermark, hasMore := ops + more, next, again;
    }
  }

  lemma DropsNever(rows: seq<LogRow>, lo: nat, hi: nat)
    ensures lo <= hi ==> RowsAbove(rows, hi) <= RowsAbove(rows, lo)
  {
    if lo <= hi {
      RowsAboveDrops(rows, lo, hi);
    }
  }
}

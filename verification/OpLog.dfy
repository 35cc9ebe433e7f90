/**
 * The op-log of one workspace: commit-ordered appends, and the page query of a
 * reader. Numbers come from a sequence shared by all workspaces, so they may
 * skip; rolled-back draws skip too.
 */
module OpLog {
  import opened Common
  import opened Deltas

  datatype LogRow = LogRow(
    id: string,
    entityType: string,
    entityId: string,
    action: string,
    payload: Payload,
    deviceId: string,
    loggedAt: int,
    serverUpdatedAt: Option<int>,
    opSeq: nat)

  /** A validated op on its way into the log. */
  datatype NormalizedOp = NormalizedOp(
    id: string,
    entityType: string,
    entityId: string,
    action: string,
    loggedAt: int,
    deltas: Payload)

  datatype AppendStatus = AppliedNow | Duplicate

  datatype AppendedOp = AppendedOp(opSeq: nat, serverUpdatedAt: Option<int>, status: AppendStatus)

  /** Rows are in commit order and `nextSeq` is above every number drawn so far. */
  datatype Log = Log(rows: seq<LogRow>, nextSeq: nat) {
    ghost predicate Valid() {
      && Ascending(rows)
      && (forall i :: 0 <= i < |rows| ==> rows[i].opSeq < nextSeq && rows[i].serverUpdatedAt.Some?)
      && (forall i, j :: 0 <= i < j < |rows| ==> rows[i].id != rows[j].id)
    }
  }

  ghost predicate Ascending(rows: seq<LogRow>) {
    forall i, j :: 0 <= i < j < |rows| ==> rows[i].opSeq < rows[j].opSeq
  }

  function RowOf(op: NormalizedOp, deviceId: string, now: int, opSeq: nat): LogRow {
    LogRow(op.id, op.entityType, op.entityId, op.action, op.deltas, deviceId, op.loggedAt, Some(now), opSeq)
  }

  /** The index of the row that already carries this op id, or |rows|. */
  function Find(rows: seq<LogRow>, id: string): (i: nat)
    ensures i <= |rows|
    ensures i < |rows| ==> rows[i].id == id
    ensures forall j :: 0 <= j < i ==> rows[j].id != id
  {
    if rows == [] then 0 else if rows[0].id == id then 0 else 1 + Find(rows[1..], id)
  }

  /** append_sync_audit_op: probe, draw and insert under the workspace lock, as one step. */
  function Append(log: Log, op: NormalizedOp, deviceId: string, now: int): (Log, AppendedOp) {
    var i := Find(log.rows, op.id);
    if i < |log.rows| then (log, AppendedOp(log.rows[i].opSeq, log.rows[i].serverUpdatedAt, Duplicate))
    else
      (Log(log.rows + [RowOf(op, deviceId, now, log.nextSeq)], log.nextSeq + 1),
       AppendedOp(log.nextSeq, Some(now), AppliedNow))
  }

  /** op_seq order stays commit order, every row stays stamped, and an op id is logged once. */
  lemma AppendKeepsValid(log: Log, op: NormalizedOp, deviceId: string, now: int)
    requires log.Valid()
    ensures var (log', appended) := Append(log, op, deviceId, now);
            && log'.Valid() && log.nextSeq <= log'.nextSeq
            && log.rows <= log'.rows
            && (exists i :: 0 <= i < |log'.rows| && log'.rows[i].id == op.id && log'.rows[i].opSeq == appended.opSeq)
            && (appended.status == AppliedNow <==> |log'.rows| == |log.rows| + 1)
  {
    var (log', appended) := Append(log, op, deviceId, now);
    var i := Find(log.rows, op.id);
    if i == |log.rows| {
      assert log'.rows[|log.rows|] == RowOf(op, deviceId, now, log.nextSeq);
    }
  }

  // ---- the page query ------------------------------------------------------

  function Above(rows: seq<LogRow>, since: nat): seq<LogRow> {
    if rows == [] then []
    else (if rows[0].opSeq > since then [rows[0]] else []) + Above(rows[1..], since)
  }

  function Insert(row: LogRow, rows: seq<LogRow>): seq<LogRow> {
    if rows == [] || row.opSeq <= rows[0].opSeq then [row] + rows else [rows[0]] + Insert(row, rows[1..])
  }

  function SortBySeq(rows: seq<LogRow>): seq<LogRow> {
    if rows == [] then [] else Insert(rows[0], SortBySeq(rows[1..]))
  }

  function FetchPage(rows: seq<LogRow>, since: nat, limit: nat): seq<LogRow> {
    var sorted := SortBySeq(Above(rows, since));
    sorted[..Min(limit, |sorted|)]
  }

  lemma {:induction false} SortedAlready(rows: seq<LogRow>)
    requires Ascending(rows)
    ensures SortBySeq(rows) == rows
  {
    if rows != [] {
      SortedAlready(rows[1..]);
    }
  }

  /** How many rows of an ascending log lie at or below a watermark. */
  function Rank(rows: seq<LogRow>, since: nat): (n: nat)
    requires Ascending(rows)
    ensures n <= |rows|
    ensures forall i :: 0 <= i < n ==> rows[i].opSeq <= since
    ensures forall i :: n <= i < |rows| ==> rows[i].opSeq > since
  {
    if rows == [] || rows[0].opSeq > since then 0 else 1 + Rank(rows[1..], since)
  }

  lemma {:induction false} AboveIsSuffix(rows: seq<LogRow>, since: nat)
    requires Ascending(rows)
    ensures Above(rows, since) == rows[Rank(rows, since)..]
  {
    if rows != [] {
      AboveIsSuffix(rows[1..], since);
      if rows[0].opSeq > since {
        assert Rank(rows[1..], since) == 0;
      }
    }
  }

  lemma SuffixPrefix(rows: seq<LogRow>, start: nat, k: nat)
    requires start + k <= |rows|
    ensures rows[start..][..k] == rows[start..start + k]
  {
  }

  lemma SortedAbove(rows: seq<LogRow>, since: nat)
    requires Ascending(rows)
    ensures SortBySeq(Above(rows, since)) == rows[Rank(rows, since)..]
  {
    AboveIsSuffix(rows, since);
    var above := rows[Rank(rows, since)..];
    assert Ascending(above);
    hide Rank, Above, SortBySeq;
    SortedAlready(above);
  }

  /** On a commit-ordered log a page is the next stretch of the log itself. */
  lemma PageIsSlice(rows: seq<LogRow>, since: nat, limit: nat)
    requires Ascending(rows)
    ensures var start := Rank(rows, since);
            FetchPage(rows, since, limit) == rows[start..Min(start + limit, |rows|)]
  {
    hide Rank, Above, SortBySeq, Ascending;
    var start := Rank(rows, since);
    SortedAbove(rows, since);
    SuffixPrefix(rows, start, Min(limit, |rows| - start));
  }

  lemma {:induction false} InsertKeeps(row: LogRow, rows: seq<LogRow>, since: nat)
    requires row.opSeq > since && forall i :: 0 <= i < |rows| ==> rows[i].opSeq > since
    ensures forall i :: 0 <= i < |Insert(row, rows)| ==> Insert(row, rows)[i].opSeq > since
  {
    if rows != [] && row.opSeq > rows[0].opSeq {
      InsertKeeps(row, rows[1..], since);
    }
  }

  lemma {:induction false} SortKeeps(rows: seq<LogRow>, since: nat)
    requires forall i :: 0 <= i < |rows| ==> rows[i].opSeq > since
    ensures forall i :: 0 <= i < |SortBySeq(rows)| ==> SortBySeq(rows)[i].opSeq > since
  {
    if rows != [] {
      SortKeeps(rows[1..], since);
      InsertKeeps(rows[0], SortBySeq(rows[1..]), since);
    }
  }

  lemma {:induction false} AboveIsAbove(rows: seq<LogRow>, since: nat)
    ensures forall i :: 0 <= i < |Above(rows, since)| ==> Above(rows, since)[i].opSeq > since
  {
    if rows != [] {
      AboveIsAbove(rows[1..], since);
    }
  }

  /** Whatever the table looks like, a page holds nothing at or below the watermark. */
  lemma PageIsAbove(rows: seq<LogRow>, since: nat, limit: nat)
    ensures forall i :: 0 <= i < |FetchPage(rows, since, limit)| ==> FetchPage(rows, since, limit)[i].opSeq > since
  {
    AboveIsAbove(rows, since);
    SortKeeps(Above(rows, since), since);
  }
}

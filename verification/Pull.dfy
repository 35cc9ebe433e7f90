/** pull-sync-ops: one request scans up to ten pages, and a drain repeats requests. */
module Pull {
  import opened Common
  import opened OpLog
  import opened ArchiveFilter

  const PULL_DEFAULT_LIMIT: nat := 200
  const PULL_MAX_LIMIT: nat := 500
  const PULL_MAX_SCAN_PAGES: nat := 10
  const UNKNOWN_DEVICE_ROLE: string := "editor"

  /** What the database answers while one page is handled. */
  datatype World = World(rows: seq<LogRow>, tables: Tables, roleByDevice: map<string, string>)

  datatype PullOp = PullOp(row: LogRow, workspaceRole: string)

  datatype PullResponse = PullResponse(ops: seq<PullOp>, nextSinceOpSeq: nat, hasMore: bool)

  datatype Status = Scanning | ReachedLimit | Exhausted

  /** The handler's loop variables. */
  datatype Scan = Scan(cursor: nat, ops: seq<PullOp>, status: Status)

  function EffectiveLimit(limitRaw: Option<nat>): (limit: nat)
    ensures 1 <= limit <= PULL_MAX_LIMIT
  {
    if limitRaw.None? then PULL_DEFAULT_LIMIT else Min(Max(limitRaw.value, 1), PULL_MAX_LIMIT)
  }

  predicate Usable(row: LogRow) {
    row.serverUpdatedAt.Some?
  }

  function UsableRows(rows: seq<LogRow>): seq<LogRow> {
    if rows == [] then []
    else
      var last := rows[|rows| - 1];
      UsableRows(rows[..|rows| - 1]) + if Usable(last) then [last] else []
  }

  function RoleOf(w: World, row: LogRow): string {
    if row.deviceId in w.roleByDevice then w.roleByDevice[row.deviceId] else UNKNOWN_DEVICE_ROLE
  }

  /** Handling one row that still fits under the limit. */
  function HandleRow(w: World, archived: set<string>, s: Scan, row: LogRow): Scan {
    if !Usable(row) then s
    else
      Scan(Max(s.cursor, row.opSeq),
           if row.entityId in archived then s.ops else s.ops + [PullOp(row, RoleOf(w, row))],
           s.status)
  }

  function HandleRows(w: World, archived: set<string>, s: Scan, rows: seq<LogRow>, limit: nat): Scan
    decreases |rows|
  {
    if rows == [] then s
    else if |s.ops| >= limit then s.(status := ReachedLimit)
    else HandleRows(w, archived, HandleRow(w, archived, s, rows[0]), rows[1..], limit)
  }

  /** One turn of the page loop. */
  function PageStep(w: World, s: Scan, limit: nat): Scan {
    var rows := FetchPage(w.rows, s.cursor, limit);
    if rows == [] then s.(status := Exhausted)
    else
      var s' := HandleRows(w, ArchivedIds(w.tables, UsableRows(rows)), s, rows, limit);
      if s'.status == Scanning && |rows| < limit then s'.(status := Exhausted) else s'
  }

  function ScanPages(worlds: seq<World>, s: Scan, limit: nat): Scan {
    if worlds == [] || s.status != Scanning then s else ScanPages(worlds[1..], PageStep(worlds[0], s, limit), limit)
  }

  function Respond(s: Scan, sinceOpSeq: nat): PullResponse {
    var highestReturned := if s.ops != [] then s.ops[|s.ops| - 1].row.opSeq else sinceOpSeq;
    PullResponse(s.ops, Max(s.cursor, highestReturned), s.status != Exhausted)
  }

  function PullSpec(worlds: seq<World>, sinceOpSeq: nat, limit: nat): PullResponse {
    Respond(ScanPages(worlds, Scan(sinceOpSeq, [], Scanning), limit), sinceOpSeq)
  }

  method CollectUsable(rows: seq<LogRow>) returns (usable: seq<LogRow>)
    ensures usable == UsableRows(rows)
  {
    usable := [];
    for i := 0 to |rows|
      invariant usable == UsableRows(rows[..i])
    {
      assert rows[..i + 1][..i] == rows[..i];
      if Usable(rows[i]) {
        usable := usable + [rows[i]];
      }
    }
    assert rows[..|rows|] == rows;
  }

  /** The row loop: the cursor moves one row at a time, and only over rows fully handled. */
  method HandlePage(w: World, archivedEntityIds: set<string>, rows: seq<LogRow>, limit: nat, cursorIn: nat,
                    opsIn: seq<PullOp>)
    returns (cursor: nat, ops: seq<PullOp>, reachedLimit: bool)
    ensures HandleRows(w, archivedEntityIds, Scan(cursorIn, opsIn, Scanning), rows, limit)
         == Scan(cursor, ops, if reachedLimit then ReachedLimit else Scanning)
  {
    cursor, ops, reachedLimit := cursorIn, opsIn, false;
    var r := 0;
    while r < |rows|
      invariant 0 <= r <= |rows|
      invariant HandleRows(w, archivedEntityIds, Scan(cursorIn, opsIn, Scanning), rows, limit)
             == HandleRows(w, archivedEntityIds, Scan(cursor, ops, Scanning), rows[r..], limit)
    {
      if |ops| >= limit {
        reachedLimit := true;
        return;
      }
      var row := rows[r];
      if row.serverUpdatedAt.Some? {
        if row.entityId !in archivedEntityIds {
          ops := ops + [PullOp(row, RoleOf(w, row))];
        }
        cursor := Max(cursor, row.opSeq);
      }
      r := r + 1;
    }
  }

  /**
   * The request handler. `worlds[p]` is the database as page p finds it, so
   * writers may append and ledgers may be archived between two pages.
   */
  method PullSyncOps(worlds: seq<World>, sinceOpSeq: nat, limitRaw: Option<nat>) returns (response: PullResponse)
    requires |worlds| == 10
    ensures response == PullSpec(worlds, sinceOpSeq, EffectiveLimit(limitRaw))
  {
    var limit := EffectiveLimit(limitRaw);
    var ops: seq<PullOp> := [];
    var cursor: nat := sinceOpSeq;
    var exhausted, reachedLimit := false, false;
    ghost var outcome := ScanPages(worlds, Scan(sinceOpSeq, [], Scanning), limit);

    var page := 0;
    while page < PULL_MAX_SCAN_PAGES && !exhausted && !reachedLimit
      invariant 0 <= page <= PULL_MAX_SCAN_PAGES
      invariant !(exhausted && reachedLimit)
      invariant outcome == ScanPages(worlds[page..],
                  Scan(cursor, ops, if exhausted then Exhausted else if reachedLimit then ReachedLimit else Scanning),
                    limit)
    {
      var w := worlds[page];
      var rows := FetchPage(w.rows, cursor, limit);
      if |rows| == 0 {
        exhausted := true;
      } else {
        var usable := CollectUsable(rows);
        var archivedEntityIds := ResolveArchivedEntityIds(w.tables, usable);
        cursor, ops, reachedLimit := HandlePage(w, archivedEntityIds, rows, limit, cursor, ops);
        exhausted := !reachedLimit && |rows| < limit;
      }
      page := page + 1;
    }

    var highestReturned := if |ops| > 0 then ops[|ops| - 1].row.opSeq else sinceOpSeq;
    response := PullResponse(ops, Max(cursor, highestReturned), !exhausted);
  }
}

/** The limit a pull works with, and the role each pulled op is answered with. */
module PullAnswers {
  import opened Common
  import opened OpLog
  import opened ArchiveFilter
  import opened Pull

  /** A limit from 1 to 500 is taken as asked for; without one it is 200. */
  lemma LimitIs(asked: nat)
    ensures 1 <= asked <= 500 ==> EffectiveLimit(Some(asked)) == asked
    ensures asked > 500 ==> EffectiveLimit(Some(asked)) == 500
    ensures EffectiveLimit(Some(0)) == 1 && EffectiveLimit(None) == 200
  {
  }

  // ---- device roles --------------------------------------------------------

  /** The role of the active member who registered the device; "editor" where there is none. */
  function DeviceRole(devices: map<string, string>, members: map<string, string>, deviceId: string): string {
    if deviceId in devices && devices[deviceId] != "" && devices[deviceId] in members then members[devices[deviceId]]
    else "editor"
  }

  /**
   * `devices` gives each device of the workspace its identity, or ""; `members` each active
   * member's identity its role. A look-up that fails leaves the roles unknown.
   */
  method ResolveDeviceRoles(devices: map<string, string>, members: map<string, string>, deviceIds: set<string>,
                            devicesRead: bool, membersRead: bool)
    returns (roleByDevice: map<string, string>)
    ensures forall id :: id in deviceIds ==>
              (if id in roleByDevice then roleByDevice[id] else UNKNOWN_DEVICE_ROLE)
              == if devicesRead && membersRead then DeviceRole(devices, members, id) else "editor"
  {
    roleByDevice := map[];
    if deviceIds == {} || !devicesRead {
      return;
    }
    var found := set id | id in deviceIds && id in devices;
    var identities := set id | id in found && devices[id] != "" :: devices[id];
    assert forall id :: id in found ==> (devices[id] in identities <==> devices[id] != "");
    var roleByIdentity: map<string, string> := map[];
    if identities != {} && membersRead {
      roleByIdentity := map hash | hash in identities && hash in members :: members[hash];
    }
    assert forall id :: id in found ==>
             (if devices[id] in roleByIdentity then roleByIdentity[devices[id]] else UNKNOWN_DEVICE_ROLE)
             == if membersRead then DeviceRole(devices, members, id) else "editor";
    var left := found;
    while left != {}
      invariant left <= found && roleByDevice.Keys == found - left
      invariant forall id :: id in found - left ==>
                  roleByDevice[id] == if devices[id] in roleByIdentity then roleByIdentity[devices[id]]
                                      else UNKNOWN_DEVICE_ROLE
    {
      var id :| id in left;
      left := left - {id};
      roleByDevice := roleByDevice[id := if devices[id] in roleByIdentity then roleByIdentity[devices[id]]
                                         else UNKNOWN_DEVICE_ROLE];
    }
  }

  // ---- what is answered ----------------------------------------------------

  /** The op is a row of this page's log, with the role this page found for its device. */
  predicate FromPage(w: World, op: PullOp) {
    && op.row in w.rows && op.row.serverUpdatedAt.Some?
    && op.workspaceRole == if op.row.deviceId in w.roleByDevice then w.roleByDevice[op.row.deviceId] else "editor"
  }

  ghost predicate AllFromPages(worlds: seq<World>, ops: seq<PullOp>) {
    forall i :: 0 <= i < |ops| ==> exists w <- worlds :: FromPage(w, ops[i])
  }

  lemma {:induction false} PageRowsAreRows(rows: seq<LogRow>, since: nat, limit: nat)
    ensures forall row <- FetchPage(rows, since, limit) :: row in rows
  {
    SortedRowsAreRows(Above(rows, since));
    AboveRowsAreRows(rows, since);
  }

  lemma {:induction false} AboveRowsAreRows(rows: seq<LogRow>, since: nat)
    ensures forall row <- Above(rows, since) :: row in rows
  {
    if rows != [] {
      AboveRowsAreRows(rows[1..], since);
    }
  }

  lemma {:induction false} InsertedRows(row: LogRow, rows: seq<LogRow>)
    ensures forall r <- Insert(row, rows) :: r == row || r in rows
  {
    if rows != [] && row.opSeq > rows[0].opSeq {
      InsertedRows(row, rows[1..]);
    }
  }

  lemma {:induction false} SortedRowsAreRows(rows: seq<LogRow>)
    ensures forall row <- SortBySeq(rows) :: row in rows
  {
    if rows != [] {
      SortedRowsAreRows(rows[1..]);
      InsertedRows(rows[0], SortBySeq(rows[1..]));
    }
  }

  lemma {:induction false} RowsFromPage(worlds: seq<World>, w: World, archived: set<string>, s: Scan,
                                        rows: seq<LogRow>, limit: nat)
    requires w in worlds && AllFromPages(worlds, s.ops) && forall row <- rows :: row in w.rows
    ensures AllFromPages(worlds, HandleRows(w, archived, s, rows, limit).ops)
    decreases |rows|
  {
    if rows != [] && |s.ops| < limit {
      var s' := HandleRow(w, archived, s, rows[0]);
      assert AllFromPages(worlds, s'.ops) by {
        if s'.ops != s.ops {
          assert s'.ops == s.ops + [PullOp(rows[0], RoleOf(w, rows[0]))];
          assert FromPage(w, PullOp(rows[0], RoleOf(w, rows[0])));
        }
      }
      hide HandleRow, AllFromPages;
      RowsFromPage(worlds, w, archived, s', rows[1..], limit);
    }
  }

  lemma {:induction false} ScanFromPages(all: seq<World>, worlds: seq<World>, s: Scan, limit: nat)
    requires (forall w <- worlds :: w in all) && AllFromPages(all, s.ops)
    ensures AllFromPages(all, ScanPages(worlds, s, limit).ops)
    decreases |worlds|
  {
    if worlds != [] && s.status == Scanning {
      var w := worlds[0];
      var rows := FetchPage(w.rows, s.cursor, limit);
      PageRowsAreRows(w.rows, s.cursor, limit);
      RowsFromPage(all, w, ArchivedIds(w.tables, UsableRows(rows)), s, rows, limit);
      hide FetchPage, HandleRows, AllFromPages;
      ScanFromPages(all, worlds[1..], PageStep(w, s, limit), limit);
    }
  }

  /** Every op of a response is a stamped row of a page it read, with the role that page found for its device. */
  lemma PulledOpsAreRows(worlds: seq<World>, sinceOpSeq: nat, limit: nat)
    ensures AllFromPages(worlds, PullSpec(worlds, sinceOpSeq, limit).ops)
  {
    ScanFromPages(worlds, worlds, Scan(sinceOpSeq, [], Scanning), limit);
  }
}

/** The push handler on a batch that is in the log already, with any number of writers. */
module PushAgain {
  import opened OpLog
  import opened Push
  import opened RePush
  import CrashRetry
  import Projection

  /** `rows` are the log's rows of these ops. */
  ghost predicate RowsOf(log: Log, rows: seq<LogRow>, batch: seq<NormalizedOp>, deviceId: string) {
    && |rows| == |batch|
    && forall i :: 0 <= i < |rows| ==> rows[i] in log.rows && CrashRetry.IsRowOf(rows[i], batch[i], deviceId)
  }

  lemma FoundInLog(log: Log, row: LogRow, op: NormalizedOp, deviceId: string, now: int)
    requires log.Valid() && row in log.rows && CrashRetry.IsRowOf(row, op, deviceId)
    ensures var (log', a) := Append(log, op, deviceId, now);
            log' == log && a.status == Duplicate && StampedRow(op, deviceId, a) == row
  {
    var i :| 0 <= i < |log.rows| && log.rows[i] == row;
    var found := Find(log.rows, op.id);
    assert found <= i;
    assert log.rows[found].id == log.rows[i].id;
  }

  lemma {:induction false} PushedAgain(effects: Effects, clock: nat -> int, p: Progress, rows: seq<LogRow>,
                                       batch: seq<NormalizedOp>, deviceId: string)
    requires p.log.Valid() && RowsOf(p.log, rows, batch, deviceId)
    ensures var q := PushMany(effects, clock, p, batch, deviceId);
            q.log == p.log && q.consumed == p.consumed
              && q.mirror == Projection.ProjectAll(p.mirror, SeqOps(effects, rows))
    decreases |batch|
  {
    if batch != [] {
      var n := |batch| - 1;
      PushedAgain(effects, clock, p, rows[..n], batch[..n], deviceId);
      FoundInLog(p.log, rows[n], batch[n], deviceId, clock(p.log.nextSeq));
      assert SeqOps(effects, rows)[..n] == SeqOps(effects, rows[..n]);
      hide Append, Projection.Project;
    } else {
      assert SeqOps(effects, rows) == [];
    }
  }

  lemma SeqOpsOfLog(effects: Effects, log: Log, rows: seq<LogRow>)
    requires log.Valid() && Ascending(rows) && forall i :: 0 <= i < |rows| ==> rows[i] in log.rows
    ensures Projection.Ascending(SeqOps(effects, log.rows))
            && SubBatch(SeqOps(effects, rows), SeqOps(effects, log.rows))
  {
    forall i | 0 <= i < |rows| ensures SeqOps(effects, rows)[i] in SeqOps(effects, log.rows) {
      var j :| 0 <= j < |log.rows| && log.rows[j] == rows[i];
      assert SeqOps(effects, log.rows)[j] == SeqOps(effects, rows)[i];
    }
  }

  /**
   * With any number of writers: once the log is projected in full, pushing an already
   * logged batch again adds no row, charges nothing, and leaves the mirror as it is
   * exactly when the batch is harmless for every row.
   */
  lemma PushAgainHarmlessIff(effects: Effects, clock: nat -> int, m: Projection.Mirror, p: Progress, rows: seq<LogRow>,
                             batch: seq<NormalizedOp>, deviceId: string)
    requires p.log.Valid() && RowsOf(p.log, rows, batch, deviceId) && Ascending(rows)
    requires p.mirror == Projection.ProjectAll(m, SeqOps(effects, p.log.rows))
    ensures var q := PushMany(effects, clock, p, batch, deviceId);
            && q.log == p.log && q.consumed == p.consumed
            && (q.mirror == p.mirror
                <==> forall key :: Harmless(SeqOps(effects, p.log.rows), SeqOps(effects, rows), key))
  {
    PushedAgain(effects, clock, p, rows, batch, deviceId);
    SeqOpsOfLog(effects, p.log, rows);
    RePushHarmlessIff(m, SeqOps(effects, p.log.rows), SeqOps(effects, rows));
  }
}

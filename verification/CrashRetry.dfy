/** A push that fails any number of times and is sent again whole. */
module CrashRetry {
  import opened Common
  import opened OpLog
  import opened Projection
  import opened Push

  /** One attempt at the same batch, after `elsewhere` numbers were drawn by other workspaces. */
  datatype Try = Try(elsewhere: nat, fault: Fault)

  function Elsewhere(p: Progress, n: nat): Progress {
    p.(log := p.log.(nextSeq := p.log.nextSeq + n))
  }

  function Tries(effects: Effects, clock: nat -> int, p: Progress, batch: seq<NormalizedOp>, deviceId: string,
                 tries: seq<Try>): Progress
    decreases |tries|
  {
    if tries == [] then p
    else
      var (prior, last) := (tries[..|tries| - 1], tries[|tries| - 1]);
      Attempt(effects, clock, Elsewhere(Tries(effects, clock, p, batch, deviceId, prior), last.elsewhere), batch,
              deviceId, last.fault)
  }

  ghost predicate FreshBatch(log: Log, batch: seq<NormalizedOp>) {
    && (forall i, j :: 0 <= i < j < |batch| ==> batch[i].id != batch[j].id)
    && (forall i, j :: 0 <= i < |batch| && 0 <= j < |log.rows| ==> batch[i].id != log.rows[j].id)
  }

  /** `rows` are the log rows of the first |rows| ops of the batch. */
  ghost predicate LogsPrefix(rows: seq<LogRow>, batch: seq<NormalizedOp>, deviceId: string) {
    && |rows| <= |batch|
    && forall i :: 0 <= i < |rows| ==> IsRowOf(rows[i], batch[i], deviceId)
  }

  ghost predicate IsRowOf(row: LogRow, op: NormalizedOp, deviceId: string) {
    row.serverUpdatedAt.Some? && row == RowOf(op, deviceId, row.serverUpdatedAt.value, row.opSeq)
  }

  /** The log is the old one followed by the rows of a prefix of the batch, and nothing else. */
  ghost predicate Logged(log0: Log, log: Log, batch: seq<NormalizedOp>, deviceId: string) {
    && log.Valid() && log0.nextSeq <= log.nextSeq
    && log0.rows <= log.rows
    && LogsPrefix(log.rows[|log0.rows|..], batch, deviceId)
    && forall i :: |log0.rows| <= i < |log.rows| ==> log.rows[i].opSeq >= log0.nextSeq
  }

  function New(log0: Log, log: Log): seq<LogRow>
    requires |log0.rows| <= |log.rows|
  {
    log.rows[|log0.rows|..]
  }

  /** A batch op already logged is found where it was put. */
  lemma FoundAgain(log0: Log, log: Log, batch: seq<NormalizedOp>, deviceId: string, i: nat)
    requires Logged(log0, log, batch, deviceId) && i < |batch| && i < |New(log0, log)|
    ensures Find(log.rows, batch[i].id) == |log0.rows| + i && IsRowOf(log.rows[|log0.rows| + i], batch[i], deviceId)
  {
    assert log.rows[|log0.rows| + i] == New(log0, log)[i];
    assert Find(log.rows, batch[i].id) <= |log0.rows| + i;
  }

  /** A batch op not logged yet is not found. */
  lemma NotFoundYet(log0: Log, log: Log, batch: seq<NormalizedOp>, deviceId: string, i: nat)
    requires FreshBatch(log0, batch) && Logged(log0, log, batch, deviceId) && i < |batch| && i == |New(log0, log)|
    ensures Find(log.rows, batch[i].id) == |log.rows|
  {
    forall j | 0 <= j < |log.rows|
      ensures log.rows[j].id != batch[i].id
    {
      if j >= |log0.rows| {
        assert log.rows[j] == New(log0, log)[j - |log0.rows|];
        assert IsRowOf(log.rows[j], batch[j - |log0.rows|], deviceId);
      } else {
        assert log.rows[j] == log0.rows[j];
      }
    }
  }

  /** The next op of the batch extends its logged prefix by its own row. */
  lemma GrowsByOne(log0: Log, log: Log, batch: seq<NormalizedOp>, deviceId: string, now: int)
    requires log0.Valid() && FreshBatch(log0, batch) && Logged(log0, log, batch, deviceId) && |New(log0, log)| < |batch|
    ensures var i := |New(log0, log)|;
            var (log', a) := Append(log, batch[i], deviceId, now);
            && Logged(log0, log', batch, deviceId) && log.rows <= log'.rows
            && New(log0, log') == New(log0, log) + [StampedRow(batch[i], deviceId, a)]
  {
    var i := |New(log0, log)|;
    NotFoundYet(log0, log, batch, deviceId, i);
    AppendKeepsValid(log, batch[i], deviceId, now);
    var log' := Append(log, batch[i], deviceId, now).0;
    var row := RowOf(batch[i], deviceId, now, log.nextSeq);
    assert log'.rows == log.rows + [row];
    assert New(log0, log') == New(log0, log) + [row];
    assert IsRowOf(row, batch[i], deviceId);
  }

  lemma AppendLogs(log0: Log, log: Log, batch: seq<NormalizedOp>, deviceId: string, i: nat, now: int)
    requires log0.Valid() && FreshBatch(log0, batch) && Logged(log0, log, batch, deviceId)
    requires i < |batch| && i <= |New(log0, log)|
    ensures var (log', a) := Append(log, batch[i], deviceId, now);
            && Logged(log0, log', batch, deviceId) && log.rows <= log'.rows
            && |New(log0, log')| == Max(|New(log0, log)|, i + 1)
            && StampedRow(batch[i], deviceId, a) == New(log0, log')[i]
  {
    if i < |New(log0, log)| {
      FoundAgain(log0, log, batch, deviceId, i);
      assert Append(log, batch[i], deviceId, now).0 == log;
    } else {
      GrowsByOne(log0, log, batch, deviceId, now);
      hide Append, Find;
    }
  }

  /** The mirror is the old one with the first k logged rows of the batch projected on top. */
  ghost predicate Projected(effects: Effects, m0: Mirror, m: Mirror, rows: seq<LogRow>, k: nat) {
    k <= |rows| && m == ProjectAll(m0, SeqOps(effects, rows)[..k])
  }

  lemma ProjectedOfLonger(effects: Effects, m0: Mirror, m: Mirror, rows: seq<LogRow>, rows': seq<LogRow>, k: nat)
    requires Projected(effects, m0, m, rows, k) && rows <= rows'
    ensures Projected(effects, m0, m, rows', k)
  {
    assert SeqOps(effects, rows)[..k] == SeqOps(effects, rows')[..k];
  }

  lemma ProjectedNext(effects: Effects, m0: Mirror, m: Mirror, rows: seq<LogRow>, rows': seq<LogRow>, k: nat)
    requires Projected(effects, m0, m, rows, k) && rows <= rows' && k < |rows'|
    ensures Projected(effects, m0, Project(m, SeqOp(effects(rows'[k]), rows'[k].opSeq)).0, rows', k + 1)
  {
    ProjectedOfLonger(effects, m0, m, rows, rows', k);
    var all := SeqOps(effects, rows');
    hide Project;
    assert all[..k + 1][..k] == all[..k] && all[..k + 1][k] == all[k];
  }

  lemma PushOneLogs(effects: Effects, clock: nat -> int, log0: Log, m0: Mirror, p: Progress, batch: seq<NormalizedOp>,
                    deviceId: string, k: nat)
    requires log0.Valid() && FreshBatch(log0, batch) && Logged(log0, p.log, batch, deviceId) && k < |batch|
    requires Projected(effects, m0, p.mirror, New(log0, p.log), k)
    ensures var p' := PushOne(effects, clock, p, batch[k], deviceId);
            && Logged(log0, p'.log, batch, deviceId) && p.log.rows <= p'.log.rows
            && |New(log0, p'.log)| == Max(|New(log0, p.log)|, k + 1)
            && Projected(effects, m0, p'.mirror, New(log0, p'.log), k + 1)
  {
    AppendLogs(log0, p.log, batch, deviceId, k, clock(p.log.nextSeq));
    hide Append, Project, LogsPrefix, FreshBatch, Projected;
    var p' := PushOne(effects, clock, p, batch[k], deviceId);
    assert New(log0, p.log) <= New(log0, p'.log);
    hide Logged, New;
    ProjectedNext(effects, m0, p.mirror, New(log0, p.log), New(log0, p'.log), k);
  }

  /**
   * From p to p' the first k ops of the batch were pushed: the log gained whichever of
   * their rows it lacked, and the mirror is the projection of those k rows on top of
   * the old one.
   */
  ghost predicate Pushed(effects: Effects, log0: Log, p: Progress, p': Progress, batch: seq<NormalizedOp>,
                         deviceId: string, k: nat)
  {
    && Logged(log0, p.log, batch, deviceId) && Logged(log0, p'.log, batch, deviceId) && p.log.rows <= p'.log.rows
    && |New(log0, p'.log)| == Max(|New(log0, p.log)|, k)
    && Projected(effects, p.mirror, p'.mirror, New(log0, p'.log), k)
  }

  lemma PushedOneMore(effects: Effects, clock: nat -> int, log0: Log, p: Progress, prior: Progress,
                      batch: seq<NormalizedOp>, deviceId: string, k: nat)
    requires log0.Valid() && FreshBatch(log0, batch) && k < |batch|
    requires Pushed(effects, log0, p, prior, batch, deviceId, k)
    ensures Pushed(effects, log0, p, PushOne(effects, clock, prior, batch[k], deviceId), batch, deviceId, k + 1)
  {
    PushOneLogs(effects, clock, log0, p.mirror, prior, batch, deviceId, k);
    assert |log0.rows| <= |p.log.rows|;
    hide Logged, FreshBatch, Projected, PushOne;
  }

  lemma NothingPushed(effects: Effects, log0: Log, p: Progress, batch: seq<NormalizedOp>, deviceId: string)
    requires Logged(log0, p.log, batch, deviceId)
    ensures Pushed(effects, log0, p, p, batch, deviceId, 0)
  {
    assert SeqOps(effects, New(log0, p.log))[..0] == [];
  }

  lemma {:induction false} PushManyLogs(effects: Effects, clock: nat -> int, log0: Log, p: Progress,
                                        batch: seq<NormalizedOp>, deviceId: string, k: nat)
    requires log0.Valid() && FreshBatch(log0, batch) && Logged(log0, p.log, batch, deviceId) && k <= |batch|
    ensures Pushed(effects, log0, p, PushMany(effects, clock, p, batch[..k], deviceId), batch, deviceId, k)
    decreases k
  {
    hide Logged, FreshBatch, Pushed, PushOne;
    if k == 0 {
      assert batch[..0] == [];
      NothingPushed(effects, log0, p, batch, deviceId);
    } else {
      PushManyLogs(effects, clock, log0, p, batch, deviceId, k - 1);
      assert batch[..k][..k - 1] == batch[..k - 1];
      PushedOneMore(effects, clock, log0, p, PushMany(effects, clock, p, batch[..k - 1], deviceId), batch, deviceId,
                    k - 1);
    }
  }

  /** What the ops before a fault leave. */
  lemma PrefixLogs(effects: Effects, clock: nat -> int, log0: Log, p: Progress, batch: seq<NormalizedOp>,
                   deviceId: string, k: nat)
    requires log0.Valid() && FreshBatch(log0, batch) && Logged(log0, p.log, batch, deviceId) && k <= |batch|
    ensures var done := PushMany(effects, clock, p, batch[..k], deviceId);
            && Logged(log0, done.log, batch, deviceId) && p.log.rows <= done.log.rows && k <= |New(log0, done.log)|
            && Projected(effects, p.mirror, done.mirror, New(log0, done.log), k)
  {
    PushManyLogs(effects, clock, log0, p, batch, deviceId, k);
    hide Logged, Projected, FreshBatch, PushMany;
  }

  /** A projection that is misreported leaves log and mirror as one that is not. */
  lemma ErringProjects(effects: Effects, clock: nat -> int, p: Progress, batch: seq<NormalizedOp>, deviceId: string,
                       fault: Fault)
    requires Hits(fault, |batch|) && fault.ErrsAfterProject?
    ensures var (p', done) := (Attempt(effects, clock, p, batch, deviceId, fault),
                               PushMany(effects, clock, p, batch[..fault.index + 1], deviceId));
            p'.log == done.log && p'.mirror == done.mirror
  {
    hide PushMany, PushOne, AppendOne;
    AttemptIs(effects, clock, p, batch, deviceId, fault);
    hide Attempt;
    Push.PushedOneMore(effects, clock, p, batch, deviceId, fault.index);
  }

  /** What an attempt leaves: more of the batch logged, and some prefix of it projected once more. */
  lemma AttemptLogs(effects: Effects, clock: nat -> int, log0: Log, p: Progress, batch: seq<NormalizedOp>,
                    deviceId: string, fault: Fault)
    returns (k: nat)
    requires log0.Valid() && FreshBatch(log0, batch) && Logged(log0, p.log, batch, deviceId)
    ensures var p' := Attempt(effects, clock, p, batch, deviceId, fault);
            && Logged(log0, p'.log, batch, deviceId) && p.log.rows <= p'.log.rows
            && (!Hits(fault, |batch|) ==> k == |batch|)
            && Projected(effects, p.mirror, p'.mirror, New(log0, p'.log), k)
  {
    assert batch[..|batch|] == batch;
    k := if !Hits(fault, |batch|) then |batch| else if fault.ErrsAfterProject? then fault.index + 1 else fault.index;
    PrefixLogs(effects, clock, log0, p, batch, deviceId, k);
    AttemptIs(effects, clock, p, batch, deviceId, fault);
    hide Logged, FreshBatch, Projected, AppendOne, PushOne, PushMany, New, Attempt;
    if Hits(fault, |batch|) && fault.FailsAtProject? {
      AppendAfter(effects, clock, log0, p.mirror, PushMany(effects, clock, p, batch[..k], deviceId), batch, deviceId,
                  k);
    } else if Hits(fault, |batch|) && fault.ErrsAfterProject? {
      ErringProjects(effects, clock, p, batch, deviceId, fault);
    }
  }

  /** An op that is appended and not projected leaves the projected prefix as it is. */
  lemma AppendAfter(effects: Effects, clock: nat -> int, log0: Log, m0: Mirror, done: Progress,
                    batch: seq<NormalizedOp>, deviceId: string, k: nat)
    requires log0.Valid() && FreshBatch(log0, batch) && Logged(log0, done.log, batch, deviceId) && k < |batch|
    requires k <= |New(log0, done.log)| && Projected(effects, m0, done.mirror, New(log0, done.log), k)
    ensures var p' := AppendOne(clock, done, batch[k], deviceId).0;
            && Logged(log0, p'.log, batch, deviceId) && done.log.rows <= p'.log.rows
            && Projected(effects, m0, p'.mirror, New(log0, p'.log), k)
  {
    AppendLogs(log0, done.log, batch, deviceId, k, clock(done.log.nextSeq));
    var p' := AppendOne(clock, done, batch[k], deviceId).0;
    assert New(log0, done.log) <= New(log0, p'.log);
    hide Append, FreshBatch, LogsPrefix;
    ProjectedOfLonger(effects, m0, done.mirror, New(log0, done.log), New(log0, p'.log), k);
  }

  lemma {:induction false} TriesLog(effects: Effects, clock: nat -> int, p: Progress, batch: seq<NormalizedOp>,
                                    deviceId: string, tries: seq<Try>)
    requires p.log.Valid() && FreshBatch(p.log, batch)
    ensures Logged(p.log, Tries(effects, clock, p, batch, deviceId, tries).log, batch, deviceId)
    decreases |tries|
  {
    if tries == [] {
      assert New(p.log, p.log) == [];
    } else {
      var (prior, last) := (tries[..|tries| - 1], tries[|tries| - 1]);
      TriesLog(effects, clock, p, batch, deviceId, prior);
      var before := Elsewhere(Tries(effects, clock, p, batch, deviceId, prior), last.elsewhere);
      var _ := AttemptLogs(effects, clock, p.log, before, batch, deviceId, last.fault);
    }
  }

  lemma SeqOpsAscending(effects: Effects, log0: Log, log: Log)
    requires log.Valid() && |log0.rows| <= |log.rows|
    ensures Projection.Ascending(SeqOps(effects, New(log0, log)))
  {
  }

  /** Projecting the whole batch from any mirror the failed attempts leave is projecting it from the first one. */
  lemma {:induction false} TriesAbsorbed(effects: Effects, clock: nat -> int, p: Progress, batch: seq<NormalizedOp>,
                                         deviceId: string, tries: seq<Try>, final: Log)
    requires p.log.Valid() && FreshBatch(p.log, batch) && Logged(p.log, final, batch, deviceId)
    requires Tries(effects, clock, p, batch, deviceId, tries).log.rows <= final.rows
    ensures var all := SeqOps(effects, New(p.log, final));
            ProjectAll(Tries(effects, clock, p, batch, deviceId, tries).mirror, all) == ProjectAll(p.mirror, all)
    decreases |tries|
  {
    if tries != [] {
      var (prior, last) := (tries[..|tries| - 1], tries[|tries| - 1]);
      var earlier := Tries(effects, clock, p, batch, deviceId, prior);
      var before := Elsewhere(earlier, last.elsewhere);
      TriesLog(effects, clock, p, batch, deviceId, prior);
      var k := AttemptLogs(effects, clock, p.log, before, batch, deviceId, last.fault);
      var after := Attempt(effects, clock, before, batch, deviceId, last.fault);
      assert Tries(effects, clock, p, batch, deviceId, tries) == after;
      assert earlier.log.rows == before.log.rows && earlier.mirror == before.mirror;
      hide Attempt, Tries, Logged, FreshBatch, Projected, New, ProjectAll;
      TriesAbsorbed(effects, clock, p, batch, deviceId, prior, final);
      AttemptAbsorbed(effects, p.log, before.mirror, after.mirror, after.log, final, batch, deviceId, k);
    }
  }

  lemma AttemptAbsorbed(effects: Effects, log0: Log, before: Mirror, after: Mirror, log: Log, final: Log,
                        batch: seq<NormalizedOp>, deviceId: string, k: nat)
    requires Logged(log0, log, batch, deviceId) && Logged(log0, final, batch, deviceId) && log.rows <= final.rows
    requires Projected(effects, before, after, New(log0, log), k)
    ensures var all := SeqOps(effects, New(log0, final)); ProjectAll(after, all) == ProjectAll(before, all)
  {
    SeqOpsAscending(effects, log0, final);
    assert New(log0, log) <= New(log0, final);
    ProjectedOfLonger(effects, before, after, New(log0, log), New(log0, final), k);
    hide Logged, ProjectAll;
    PrefixAbsorbed(before, SeqOps(effects, New(log0, final)), k);
  }

  /**
   * Crash-retry equivalence. One writer pushes a batch of fresh ids; attempts fail
   * wherever the database lets them, any number of times, and then one goes
   * through. The log has gained exactly the batch, in batch order, and the mirror
   * is the guard-free fold of those rows: the same as if nothing had failed.
   */
  lemma CrashRetryEquivalence(effects: Effects, clock: nat -> int, p: Progress, batch: seq<NormalizedOp>,
                              deviceId: string, tries: seq<Try>)
    requires p.log.Valid() && FreshBatch(p.log, batch) && Below(p.mirror, p.log.nextSeq)
    ensures var end := Tries(effects, clock, p, batch, deviceId, tries + [Try(0, Completes)]);
            && p.log.rows <= end.log.rows && end.log.Valid()
            && |New(p.log, end.log)| == |batch| && LogsPrefix(New(p.log, end.log), batch, deviceId)
            && end.mirror == Fold(p.mirror, SeqOps(effects, New(p.log, end.log)))
  {
    var whole := tries + [Try(0, Completes)];
    assert whole[..|whole| - 1] == tries;
    TriesLog(effects, clock, p, batch, deviceId, tries);
    var before := Tries(effects, clock, p, batch, deviceId, tries);
    assert Elsewhere(before, 0) == before;
    var k := AttemptLogs(effects, clock, p.log, before, batch, deviceId, Completes);
    var end := Tries(effects, clock, p, batch, deviceId, whole);
    assert end == Attempt(effects, clock, before, batch, deviceId, Completes);
    TriesAbsorbed(effects, clock, p, batch, deviceId, tries, end.log);
    hide Tries, Attempt, FreshBatch;
    FoldOfNew(effects, p.log, p.mirror, before.mirror, end.log, end.mirror, batch, deviceId, k);
  }

  /** A whole batch projected on a mirror that absorbs it is the fold of its rows. */
  lemma FoldOfNew(effects: Effects, log0: Log, m0: Mirror, m: Mirror, log: Log, end: Mirror, batch: seq<NormalizedOp>,
                  deviceId: string, k: nat)
    requires log0.Valid() && Logged(log0, log, batch, deviceId) && Below(m0, log0.nextSeq) && k == |batch|
    requires Projected(effects, m, end, New(log0, log), k)
    requires ProjectAll(m, SeqOps(effects, New(log0, log))) == ProjectAll(m0, SeqOps(effects, New(log0, log)))
    ensures |New(log0, log)| == |batch| && end == Fold(m0, SeqOps(effects, New(log0, log)))
  {
    var rows := New(log0, log);
    var all := SeqOps(effects, rows);
    assert all[..k] == all;
    SeqOpsAscending(effects, log0, log);
    assert Before(m0, all) by {
      if all != [] {
        assert log.rows[|log0.rows|] == rows[0];
      }
    }
    hide ProjectAll, Logged, Below;
    InOrderIsFold(m0, all);
  }
}

/**
 * The row mirror and the op_seq guard: projecting in sequence order, replaying,
 * projecting out of order.
 */
module Projection {
  import opened Common
  import opened Deltas

  datatype Row = Row(cols: Cols, opSeq: Option<nat>)

  type Mirror = map<Key, Row>

  /** An accepted op together with the number the log gave it. */
  datatype SeqOp = SeqOp(effect: Effect, opSeq: nat)

  /** Column defaults of a row that an upsert inserts. */
  function Defaults(table: Table): Cols {
    var shared: Cols := map[IsDeleted := Flag(false), IsArchived := Flag(false), DeletedAt := NullCell];
    if table == Ledgers
    then shared + map[IsUserArchived := Flag(false), CarryForwardTargetLedgerId := NullCell]
    else shared
  }

  function At(m: Mirror, key: Key): Option<Row> {
    if key in m then Some(m[key]) else None
  }

  predicate On(e: Effect, key: Key) {
    !e.NoEffect? && e.key == key
  }

  predicate Stale(row: Row, opSeq: nat) {
    row.opSeq.Some? && row.opSeq.value >= opSeq
  }

  function UpsertRow(prev: Option<Row>, e: Effect, opSeq: nat): Row
    requires e.Upsert?
  {
    Row((if prev.Some? then prev.value.cols else Defaults(e.key.table)) + e.cols, Some(opSeq))
  }

  /** One projection as the handler performs it: an unguarded upsert, a guarded patch. */
  function Project(m: Mirror, op: SeqOp): (Mirror, EntityApplyOutcome) {
    match op.effect
    case NoEffect(outcome) => (m, outcome)
    case Upsert(key, cols) => (m[key := UpsertRow(At(m, key), op.effect, op.opSeq)], Applied)
    case Patch(key, cols) =>
      if key !in m then (m, SkippedMissing)
      else if Stale(m[key], op.opSeq) then (m, SkippedStale)
      else (m[key := Row(m[key].cols + cols, Some(op.opSeq))], Applied)
  }

  /** The same op without the guard. */
  function Replay(m: Mirror, op: SeqOp): Mirror {
    match op.effect
    case NoEffect(_) => m
    case Upsert(key, cols) => m[key := UpsertRow(At(m, key), op.effect, op.opSeq)]
    case Patch(key, cols) => if key in m then m[key := Row(m[key].cols + cols, Some(op.opSeq))] else m
  }

  function ProjectAll(m: Mirror, ops: seq<SeqOp>): Mirror {
    if ops == [] then m else Project(ProjectAll(m, ops[..|ops| - 1]), ops[|ops| - 1]).0
  }

  function Fold(m: Mirror, ops: seq<SeqOp>): Mirror {
    if ops == [] then m else Replay(Fold(m, ops[..|ops| - 1]), ops[|ops| - 1])
  }

  ghost predicate Ascending(ops: seq<SeqOp>) {
    forall i, j :: 0 <= i < j < |ops| ==> ops[i].opSeq < ops[j].opSeq
  }

  /** Every row was last written below `limit`. */
  ghost predicate Below(m: Mirror, limit: nat) {
    forall key :: key in m && m[key].opSeq.Some? ==> m[key].opSeq.value < limit
  }

  ghost predicate Before(m: Mirror, ops: seq<SeqOp>) {
    ops != [] ==> Below(m, ops[0].opSeq)
  }

  lemma {:induction false} ProjectAllConcat(m: Mirror, a: seq<SeqOp>, b: seq<SeqOp>)
    ensures ProjectAll(m, a + b) == ProjectAll(ProjectAll(m, a), b)
    decreases |b|
  {
    if b == [] {
      assert a + b == a;
    } else {
      var ab := a + b;
      assert ab[..|ab| - 1] == a + b[..|b| - 1];
      ProjectAllConcat(m, a, b[..|b| - 1]);
    }
  }

  // ---- sequence order ------------------------------------------------------

  /** After folding an ascending log, no row is ahead of the last op. */
  lemma {:induction false} FoldBelow(m: Mirror, ops: seq<SeqOp>, limit: nat)
    requires Ascending(ops) && Before(m, ops)
    requires ops == [] ==> Below(m, limit)
    requires ops != [] ==> ops[|ops| - 1].opSeq < limit
    ensures Below(Fold(m, ops), limit)
    decreases |ops|
  {
    if ops != [] {
      var prior := ops[..|ops| - 1];
      FoldBelow(m, prior, ops[|ops| - 1].opSeq);
    }
  }

  /** In sequence order the guard never fires: the mirror is the plain fold of the log. */
  lemma {:induction false} InOrderIsFold(m: Mirror, ops: seq<SeqOp>)
    requires Ascending(ops) && Before(m, ops)
    ensures ProjectAll(m, ops) == Fold(m, ops)
    decreases |ops|
  {
    if ops != [] {
      var prior := ops[..|ops| - 1];
      InOrderIsFold(m, prior);
      FoldBelow(m, prior, ops[|ops| - 1].opSeq);
    }
  }

  /** Once projected, an op never finds its row behind it. */
  lemma {:induction false} Marked(m: Mirror, ops: seq<SeqOp>, i: nat, key: Key)
    requires Ascending(ops) && i < |ops| && On(ops[i].effect, key)
    requires key in ProjectAll(m, ops)
    ensures Stale(ProjectAll(m, ops)[key], ops[i].opSeq)
    decreases |ops|
  {
    var prior := ops[..|ops| - 1];
    if i < |prior| && key in ProjectAll(m, prior) {
      Marked(m, prior, i, key);
    }
  }

  /** What a run does next: project the next op of the log, or re-project op `index`. */
  datatype Event = Next | Again(index: nat)

  ghost predicate ValidEvents(ops: seq<SeqOp>, done: nat, events: seq<Event>)
    decreases |events|
  {
    events != [] ==>
      match events[0]
      case Next => done < |ops| && ValidEvents(ops, done + 1, events[1..])
      case Again(i) => i < done <= |ops| && !ops[i].effect.Upsert? && ValidEvents(ops, done, events[1..])
  }

  ghost function RunEvents(m: Mirror, ops: seq<SeqOp>, done: nat, events: seq<Event>): (r: (Mirror, nat))
    requires done <= |ops| && ValidEvents(ops, done, events)
    ensures r.1 <= |ops|
    decreases |events|
  {
    if events == [] then (m, done)
    else
      match events[0]
      case Next => RunEvents(Project(m, ops[done]).0, ops, done + 1, events[1..])
      case Again(i) => RunEvents(Project(m, ops[i]).0, ops, done, events[1..])
  }

  /**
   * Any number of re-projections of already projected UPDATE and DELETE ops, at
   * any later point, leaves the mirror equal to the fold of the projected log.
   */
  lemma {:induction false} RedeliveryIsFold(start: Mirror, ops: seq<SeqOp>, done: nat, events: seq<Event>)
    requires Ascending(ops) && Before(start, ops) && done <= |ops| && ValidEvents(ops, done, events)
    ensures var (m, reached) := RunEvents(ProjectAll(start, ops[..done]), ops, done, events);
            m == Fold(start, ops[..reached])
    decreases |events|
  {
    var m := ProjectAll(start, ops[..done]);
    if events == [] {
      InOrderIsFold(start, ops[..done]);
    } else {
      match events[0]
      case Next =>
        assert ops[..done + 1][..done] == ops[..done];
        RedeliveryIsFold(start, ops, done + 1, events[1..]);
      case Again(i) =>
        if ops[i].effect.Patch? && ops[i].effect.key in m {
          Marked(start, ops[..done], i, ops[i].effect.key);
        }
        assert Project(m, ops[i]).0 == m;
        RedeliveryIsFold(start, ops, done, events[1..]);
    }
  }

  // ---- replaying an upsert -------------------------------------------------

  /** An op that has nothing to do with `key` leaves its row alone. */
  lemma {:induction false} OtherKeys(m: Mirror, ops: seq<SeqOp>, key: Key)
    requires forall i :: 0 <= i < |ops| ==> !On(ops[i].effect, key)
    ensures At(ProjectAll(m, ops), key) == At(m, key)
    decreases |ops|
  {
    if ops != [] {
      OtherKeys(m, ops[..|ops| - 1], key);
    }
  }

  lemma {:induction false} RowStays(m: Mirror, ops: seq<SeqOp>, key: Key)
    requires key in m
    ensures key in ProjectAll(m, ops)
    decreases |ops|
  {
    if ops != [] {
      RowStays(m, ops[..|ops| - 1], key);
    }
  }

  /** A creation with no later op on its row left the row as projecting it again would. */
  lemma LastOnItsRow(start: Mirror, ops: seq<SeqOp>, k: nat)
    requires k < |ops| && ops[k].effect.Upsert? && forall j :: k < j < |ops| ==> !On(ops[j].effect, ops[k].effect.key)
    ensures Project(ProjectAll(start, ops), ops[k]).0 == ProjectAll(start, ops)
  {
    var key := ops[k].effect.key;
    var before := ProjectAll(start, ops[..k]);
    var upTo := ProjectAll(start, ops[..k + 1]);
    assert ops == ops[..k + 1] + ops[k + 1..];
    ProjectAllConcat(start, ops[..k + 1], ops[k + 1..]);
    assert ops[..k + 1][..k] == ops[..k];
    assert upTo == Project(before, ops[k]).0;
    OtherKeys(upTo, ops[k + 1..], key);
    hide ProjectAll;
    assert At(ProjectAll(start, ops), key) == Some(UpsertRow(At(before, key), ops[k].effect, ops[k].opSeq));
    assert upTo[key].cols + ops[k].effect.cols == upTo[key].cols;
  }

  /** One with a later op on its row takes the row's op_seq back. */
  lemma NotLastOnItsRow(start: Mirror, ops: seq<SeqOp>, k: nat, j: nat)
    requires Ascending(ops) && k < j < |ops| && ops[k].effect.Upsert? && On(ops[j].effect, ops[k].effect.key)
    ensures Project(ProjectAll(start, ops), ops[k]).0 != ProjectAll(start, ops)
  {
    var key := ops[k].effect.key;
    var upTo := ProjectAll(start, ops[..k + 1]);
    assert ops == ops[..k + 1] + ops[k + 1..];
    ProjectAllConcat(start, ops[..k + 1], ops[k + 1..]);
    assert ops[..k + 1][..k] == ops[..k];
    assert key in upTo;
    RowStays(upTo, ops[k + 1..], key);
    Marked(start, ops, j, key);
    hide ProjectAll;
    assert Project(ProjectAll(start, ops), ops[k]).0[key].opSeq == Some(ops[k].opSeq);
  }

  /**
   * Replaying a CREATE whose op is already in the log is harmless exactly when no
   * later op of the log touched the same row; otherwise it takes the row's op_seq
   * back, which the comment on the guard does not say.
   */
  lemma CreateReplayHarmlessIff(start: Mirror, ops: seq<SeqOp>, k: nat)
    requires Ascending(ops) && k < |ops| && ops[k].effect.Upsert?
    ensures var m := ProjectAll(start, ops);
            Project(m, ops[k]).0 == m <==> (forall j :: k < j < |ops| ==> !On(ops[j].effect, ops[k].effect.key))
  {
    hide ProjectAll, Project;
    if j: nat :| k < j < |ops| && On(ops[j].effect, ops[k].effect.key) {
      NotLastOnItsRow(start, ops, k, j);
    } else {
      LastOnItsRow(start, ops, k);
    }
  }

  // ---- a whole batch again -------------------------------------------------

  /** Rows a and b agree apart from the columns of `extra`, which only b is sure to have. */
  ghost predicate AgreeOutside(a: Row, b: Row, extra: Cols) {
    && b.cols.Keys == a.cols.Keys + extra.Keys
    && forall c :: c in a.cols && c !in extra ==> b.cols[c] == a.cols[c]
  }

  /** Both rows are stamped alike, or both already ahead of every op of the batch on this key. */
  ghost predicate SameGuard(a: Row, b: Row, ops: seq<SeqOp>, key: Key) {
    || a.opSeq == b.opSeq
    || forall i :: 0 <= i < |ops| && On(ops[i].effect, key) ==> Stale(a, ops[i].opSeq) && Stale(b, ops[i].opSeq)
  }

  /** Where the pair may be after some ops: untouched, or stamped alike. */
  ghost predicate Paired(a0: Row, b0: Row, a: Row, b: Row, extra: Cols) {
    AgreeOutside(a, b, extra) && (a.opSeq == b.opSeq || (a == a0 && b == b0))
  }

  lemma {:induction false} Lockstep(ma: Mirror, mb: Mirror, ops: seq<SeqOp>, key: Key, extra: Cols)
    requires key in ma && key in mb
    requires AgreeOutside(ma[key], mb[key], extra) && SameGuard(ma[key], mb[key], ops, key)
    ensures key in ProjectAll(ma, ops) && key in ProjectAll(mb, ops)
    ensures Paired(ma[key], mb[key], ProjectAll(ma, ops)[key], ProjectAll(mb, ops)[key], extra)
    decreases |ops|
  {
    if ops != [] {
      var prior := ops[..|ops| - 1];
      Lockstep(ma, mb, prior, key, extra);
      PairStep(ma[key], mb[key], ProjectAll(ma, prior), ProjectAll(mb, prior), ops[|ops| - 1], key, extra);
    }
  }

  lemma PairStep(a0: Row, b0: Row, ma: Mirror, mb: Mirror, op: SeqOp, key: Key, extra: Cols)
    requires key in ma && key in mb && Paired(a0, b0, ma[key], mb[key], extra)
    requires a0.opSeq == b0.opSeq || (On(op.effect, key) ==> Stale(a0, op.opSeq) && Stale(b0, op.opSeq))
    ensures key in Project(ma, op).0 && key in Project(mb, op).0
    ensures Paired(a0, b0, Project(ma, op).0[key], Project(mb, op).0[key], extra)
  {
    if On(op.effect, key) {
      var (a, b) := (ma[key].cols + op.effect.cols, mb[key].cols + op.effect.cols);
      assert b.Keys == a.Keys + extra.Keys;
      assert forall c :: c in a && c !in extra ==> b[c] == a[c];
    }
  }

  /** A row that is still missing has only seen patches. */
  lemma {:induction false} MissingMeansPatches(m: Mirror, ops: seq<SeqOp>, key: Key, i: nat)
    requires key !in ProjectAll(m, ops) && i < |ops| && On(ops[i].effect, key)
    ensures ops[i].effect.Patch?
    decreases |ops|
  {
    if i < |ops| - 1 {
      MissingMeansPatches(m, ops[..|ops| - 1], key, i);
    }
  }

  lemma {:induction false} StalePatches(m: Mirror, ops: seq<SeqOp>, key: Key)
    requires key in m
    requires forall i :: 0 <= i < |ops| && On(ops[i].effect, key)
               ==> ops[i].effect.Patch? && Stale(m[key], ops[i].opSeq)
    ensures At(ProjectAll(m, ops), key) == At(m, key)
    decreases |ops|
  {
    if ops != [] {
      StalePatches(m, ops[..|ops| - 1], key);
    }
  }

  /** Re-pushing after the last op of the batch changes nothing on that op's row. */
  lemma {:induction false} LastOpAbsorbed(m: Mirror, prior: seq<SeqOp>, last: SeqOp)
    requires Ascending(prior + [last]) && !last.effect.NoEffect?
    requires ProjectAll(ProjectAll(m, prior), prior) == ProjectAll(m, prior)
    ensures var m1 := Project(ProjectAll(m, prior), last).0;
            At(Project(ProjectAll(m1, prior), last).0, last.effect.key) == At(m1, last.effect.key)
  {
    var key := last.effect.key;
    var m0 := ProjectAll(m, prior);
    var m1 := Project(m0, last).0;
    assert forall i :: 0 <= i < |prior| ==> (prior + [last])[i] == prior[i];
    assert (prior + [last])[|prior|] == last;
    if m1 != m0 && key in m0 {
      forall i | 0 <= i < |prior| && On(prior[i].effect, key)
        ensures Stale(m0[key], prior[i].opSeq) && Stale(m1[key], prior[i].opSeq)
      {
        Marked(m, prior, i, key);
      }
      Lockstep(m0, m1, prior, key, last.effect.cols);
      assert ProjectAll(m1, prior)[key].cols + last.effect.cols == m1[key].cols;
    } else if m1 != m0 {
      forall i | 0 <= i < |prior| && On(prior[i].effect, key)
        ensures prior[i].effect.Patch? && Stale(m1[key], prior[i].opSeq)
      {
        MissingMeansPatches(m, prior, key, i);
      }
      StalePatches(m1, prior, key);
      assert m1[key].cols + last.effect.cols == m1[key].cols;
    }
  }

  lemma OffKey(m: Mirror, op: SeqOp, key: Key)
    requires !On(op.effect, key)
    ensures At(Project(m, op).0, key) == At(m, key)
  {
  }

  lemma {:induction false} OneKeyOnly(ma: Mirror, mb: Mirror, ops: seq<SeqOp>, key: Key)
    requires At(ma, key) == At(mb, key)
    ensures At(ProjectAll(ma, ops), key) == At(ProjectAll(mb, ops), key)
    decreases |ops|
  {
    if ops != [] {
      OneKeyOnly(ma, mb, ops[..|ops| - 1], key);
    }
  }

  lemma SameRows(ma: Mirror, mb: Mirror)
    requires forall key :: At(ma, key) == At(mb, key)
    ensures ma == mb
  {
    assert forall key :: key in ma <==> At(ma, key).Some?;
    assert forall key :: key in mb <==> At(mb, key).Some?;
    assert forall key :: key in ma ==> At(ma, key).value == ma[key];
  }

  /** One more op on a batch that is already idempotent. */
  lemma OneMoreAbsorbed(m: Mirror, prior: seq<SeqOp>, last: SeqOp)
    requires Ascending(prior + [last])
    requires ProjectAll(ProjectAll(m, prior), prior) == ProjectAll(m, prior)
    ensures var m1 := Project(ProjectAll(m, prior), last).0;
            Project(ProjectAll(m1, prior), last).0 == m1
  {
    var m1 := Project(ProjectAll(m, prior), last).0;
    var m2 := Project(ProjectAll(m1, prior), last).0;
    forall key
      ensures At(m2, key) == At(m1, key)
    {
      hide Project, ProjectAll, Ascending, At;
      if On(last.effect, key) {
        LastOpAbsorbed(m, prior, last);
      } else {
        OffKey(ProjectAll(m, prior), last, key);
        OneKeyOnly(ProjectAll(m, prior), m1, prior, key);
        OffKey(ProjectAll(m1, prior), last, key);
      }
    }
    SameRows(m2, m1);
  }

  /**
   * Pushing an ascending batch a second time changes nothing, from any mirror:
   * replayed CREATEs take rows back, and the replayed ops after them restore them.
   */
  lemma {:induction false} BatchIdempotent(m: Mirror, ops: seq<SeqOp>)
    requires Ascending(ops)
    ensures ProjectAll(ProjectAll(m, ops), ops) == ProjectAll(m, ops)
    decreases |ops|
  {
    if ops != [] {
      assert ops == ops[..|ops| - 1] + [ops[|ops| - 1]];
      BatchIdempotent(m, ops[..|ops| - 1]);
      OneMoreAbsorbed(m, ops[..|ops| - 1], ops[|ops| - 1]);
    }
  }

  /** Whatever prefix an earlier attempt got through, the full batch absorbs it. */
  lemma PrefixAbsorbed(m: Mirror, ops: seq<SeqOp>, k: nat)
    requires Ascending(ops) && k <= |ops|
    ensures ProjectAll(ProjectAll(m, ops[..k]), ops) == ProjectAll(m, ops)
  {
    var done := ops[..k];
    assert ops == done + ops[k..];
    BatchIdempotent(m, done);
    ProjectAllConcat(ProjectAll(m, done), done, ops[k..]);
    ProjectAllConcat(m, done, ops[k..]);
  }
}

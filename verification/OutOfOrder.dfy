/** Projections that land out of sequence order: which ops take effect, creations among them. */
module OutOfOrder {
  import opened Common
  import opened Deltas
  import opened Projection

  // ---- patches in any order ------------------------------------------------

  ghost predicate PatchesOnly(ops: seq<SeqOp>) {
    forall i :: 0 <= i < |ops| ==> !ops[i].effect.Upsert?
  }

  /** `row` carries op_seq `best`: its own earlier one or that of an op on the key, and none is higher. */
  ghost predicate HighestOf(row: Row, before: Row, ops: seq<SeqOp>, key: Key) {
    && (forall i :: 0 <= i < |ops| && On(ops[i].effect, key) ==> Stale(row, ops[i].opSeq))
    && (before.opSeq.Some? ==> Stale(row, before.opSeq.value))
    && (row.opSeq == before.opSeq
        || exists i :: 0 <= i < |ops| && On(ops[i].effect, key) && row.opSeq == Some(ops[i].opSeq))
  }

  /** In whatever order they land, the row ends at the highest op_seq. */
  lemma {:induction false} AnyOrderHighestSeq(m: Mirror, ops: seq<SeqOp>, key: Key)
    requires PatchesOnly(ops) && key in m
    ensures key in ProjectAll(m, ops)
    ensures HighestOf(ProjectAll(m, ops)[key], m[key], ops, key)
    decreases |ops|
  {
    if ops != [] {
      var prior := ops[..|ops| - 1];
      AnyOrderHighestSeq(m, prior, key);
      var row := ProjectAll(m, prior)[key];
      if row.opSeq != m[key].opSeq {
        var i :| 0 <= i < |prior| && On(prior[i].effect, key) && row.opSeq == Some(prior[i].opSeq);
        assert ops[i] == prior[i];
      }
      assert forall i :: 0 <= i < |ops| ==> ops[i] == if i < |prior| then prior[i] else ops[|prior|];
    }
  }

  /** On the way there the op_seq never goes down. */
  lemma {:induction false} AnyOrderMonotone(m: Mirror, ops: seq<SeqOp>, key: Key, k: nat)
    requires PatchesOnly(ops) && key in m && k <= |ops|
    ensures key in ProjectAll(m, ops[..k]) && key in ProjectAll(m, ops)
    ensures var midway := ProjectAll(m, ops[..k])[key];
            midway.opSeq.Some? ==> Stale(ProjectAll(m, ops)[key], midway.opSeq.value)
  {
    AnyOrderHighestSeq(m, ops[..k], key);
    assert ops == ops[..k] + ops[k..];
    ProjectAllConcat(m, ops[..k], ops[k..]);
    AnyOrderHighestSeq(ProjectAll(m, ops[..k]), ops[k..], key);
  }

  /** Every column the highest op writes ends with that op's value. */
  lemma {:induction false} AnyOrderHighestWins(m: Mirror, ops: seq<SeqOp>, key: Key, h: nat)
    requires PatchesOnly(ops) && key in m
    requires h < |ops| && On(ops[h].effect, key) && !Stale(m[key], ops[h].opSeq)
    requires forall i :: 0 <= i < |ops| && i != h && On(ops[i].effect, key) ==> ops[i].opSeq < ops[h].opSeq
    ensures key in ProjectAll(m, ops)
    ensures ProjectAll(m, ops)[key].opSeq == Some(ops[h].opSeq)
    ensures forall c :: c in ops[h].effect.cols ==>
              c in ProjectAll(m, ops)[key].cols && ProjectAll(m, ops)[key].cols[c] == ops[h].effect.cols[c]
    decreases |ops|
  {
    var prior := ops[..|ops| - 1];
    AnyOrderHighestSeq(m, prior, key);
    if h < |prior| {
      AnyOrderHighestWins(m, prior, key, h);
    }
  }

  // ---- which ops arrive in time --------------------------------------------

  /** Some creation of the row arrives after position i. */
  ghost predicate CreatedAfter(ops: seq<SeqOp>, i: int, key: Key) {
    exists k :: 0 <= k < |ops| && i < k && On(ops[k].effect, key) && ops[k].effect.Upsert?
  }

  ghost predicate Created(ops: seq<SeqOp>, key: Key) {
    CreatedAfter(ops, -1, key)
  }

  /** No op on the row that arrived before, since the row was last created, is as new as this one. */
  ghost predicate NewerThanArrived(before: seq<SeqOp>, op: SeqOp, key: Key) {
    forall i :: 0 <= i < |before| && On(before[i].effect, key) && !CreatedAfter(before, i, key)
      ==> before[i].opSeq < op.opSeq
  }

  /** A creation is always in time; a patch if the row is there and nothing as new reached it first. */
  ghost predicate InTime(m: Mirror, before: seq<SeqOp>, op: SeqOp, key: Key) {
    op.effect.Upsert?
    || (NewerThanArrived(before, op, key) && (Created(before, key) || (key in m && !Stale(m[key], op.opSeq))))
  }

  /** The ops on the row that arrive in time, in the order they arrive. */
  ghost function Landed(m: Mirror, arrival: seq<SeqOp>, key: Key): seq<SeqOp> {
    if arrival == [] then []
    else
      var (prior, last) := (arrival[..|arrival| - 1], arrival[|arrival| - 1]);
      if On(last.effect, key) && InTime(m, prior, last, key) then Landed(m, prior, key) + [last]
      else Landed(m, prior, key)
  }

  /** The columns these ops write on the row, later ones winning. */
  function Written(ops: seq<SeqOp>, key: Key): Cols {
    if ops == [] then map[]
    else
      var (prior, last) := (ops[..|ops| - 1], ops[|ops| - 1]);
      if On(last.effect, key) then Written(prior, key) + last.effect.cols else Written(prior, key)
  }

  /** What the row starts from. */
  function Base(m: Mirror, key: Key): Cols {
    if key in m then m[key].cols else Defaults(key.table)
  }

  // ---- the row after any arrival -------------------------------------------

  lemma CreatedLast(prior: seq<SeqOp>, last: SeqOp, key: Key, i: int)
    ensures i < |prior| ==> (CreatedAfter(prior + [last], i, key)
                             <==> CreatedAfter(prior, i, key) || (On(last.effect, key) && last.effect.Upsert?))
    ensures i >= |prior| ==> !CreatedAfter(prior + [last], i, key)
  {
    var ops := prior + [last];
    if CreatedAfter(prior, i, key) {
      var k :| 0 <= k < |prior| && i < k && On(prior[k].effect, key) && prior[k].effect.Upsert?;
      assert ops[k] == prior[k];
    }
    assert ops[|prior|] == last;
  }

  /** The op_seq `stamp` of the row: the highest since its last creation, its own included if it was not created. */
  ghost predicate Highest(m: Mirror, ops: seq<SeqOp>, key: Key, stamp: Option<nat>) {
    && (forall i :: 0 <= i < |ops| && On(ops[i].effect, key) && !CreatedAfter(ops, i, key)
          ==> stamp.Some? && stamp.value >= ops[i].opSeq)
    && (!Created(ops, key) && key in m && m[key].opSeq.Some? ==>
          stamp.Some? && stamp.value >= m[key].opSeq.value)
    && ((!Created(ops, key) && key in m && stamp == m[key].opSeq)
        || exists i :: 0 <= i < |ops| && On(ops[i].effect, key) && !CreatedAfter(ops, i, key)
                       && stamp == Some(ops[i].opSeq))
  }

  ghost predicate RowIs(m: Mirror, ops: seq<SeqOp>, key: Key, row: Option<Row>) {
    && (row.Some? <==> key in m || Created(ops, key))
    && (row.Some? ==>
          && row.value.cols == Base(m, key) + Written(Landed(m, ops, key), key)
          && Highest(m, ops, key, row.value.opSeq))
    && (row.None? ==> Landed(m, ops, key) == [])
  }

  /** A patch is in time exactly when the row it finds is there and behind it. */
  lemma InTimeIff(m: Mirror, before: seq<SeqOp>, op: SeqOp, key: Key, row: Option<Row>)
    requires RowIs(m, before, key, row) && op.effect.Patch?
    ensures InTime(m, before, op, key) <==> row.Some? && !Stale(row.value, op.opSeq)
  {
    hide Landed, Written, Base;
  }

  lemma HighestNext(m: Mirror, prior: seq<SeqOp>, last: SeqOp, key: Key, stamp: Option<nat>, next: Option<nat>)
    requires (key in m || Created(prior, key)) ==> Highest(m, prior, key, stamp)
    requires On(last.effect, key)
    requires if last.effect.Upsert? then next == Some(last.opSeq)
             else (key in m || Created(prior, key))
                  && next == if stamp.Some? && stamp.value >= last.opSeq then stamp else Some(last.opSeq)
    ensures Highest(m, prior + [last], key, next)
  {
    var ops := prior + [last];
    forall i: int ensures i < |prior| ==> (CreatedAfter(ops, i, key)
                             <==> CreatedAfter(prior, i, key) || last.effect.Upsert?) {
      CreatedLast(prior, last, key, i);
    }
    CreatedLast(prior, last, key, |prior|);
    assert ops[|prior|] == last;
    forall i | 0 <= i < |ops| && On(ops[i].effect, key) && !CreatedAfter(ops, i, key)
      ensures next.Some? && next.value >= ops[i].opSeq
    {
      if i < |prior| { assert prior[i] == ops[i]; }
    }
    if next != Some(last.opSeq) && !(!Created(ops, key) && key in m && next == m[key].opSeq) {
      var i :| 0 <= i < |prior| && On(prior[i].effect, key) && !CreatedAfter(prior, i, key)
               && stamp == Some(prior[i].opSeq);
      assert ops[i] == prior[i];
    }
  }

  /** What one op does to one row. */
  function Onto(row: Option<Row>, op: SeqOp, key: Key): Option<Row> {
    if !On(op.effect, key) then row
    else if op.effect.Upsert? then Some(UpsertRow(row, op.effect, op.opSeq))
    else if row.None? || Stale(row.value, op.opSeq) then row
    else Some(Row(row.value.cols + op.effect.cols, Some(op.opSeq)))
  }

  lemma OntoIs(m: Mirror, op: SeqOp, key: Key)
    ensures At(Project(m, op).0, key) == Onto(At(m, key), op, key)
  {
  }

  lemma ElsewhereNext(m: Mirror, prior: seq<SeqOp>, last: SeqOp, key: Key, row: Option<Row>)
    requires RowIs(m, prior, key, row) && !On(last.effect, key)
    ensures RowIs(m, prior + [last], key, row)
  {
    var ops := prior + [last];
    assert ops[..|ops| - 1] == prior;
    forall i: int ensures CreatedAfter(ops, i, key) <==> i < |prior| && CreatedAfter(prior, i, key) {
      CreatedLast(prior, last, key, i);
    }
    assert forall i :: 0 <= i < |prior| ==> ops[i] == prior[i];
    assert Landed(m, ops, key) == Landed(m, prior, key);
    hide Landed, Written;
  }

  lemma LandedNext(m: Mirror, prior: seq<SeqOp>, last: SeqOp, key: Key)
    requires On(last.effect, key)
    ensures InTime(m, prior, last, key) ==>
              && Landed(m, prior + [last], key) == Landed(m, prior, key) + [last]
              && Written(Landed(m, prior + [last], key), key) == Written(Landed(m, prior, key), key) + last.effect.cols
    ensures !InTime(m, prior, last, key) ==> Landed(m, prior + [last], key) == Landed(m, prior, key)
  {
    assert (prior + [last])[..|prior|] == prior;
    var landed := Landed(m, prior, key);
    assert (landed + [last])[..|landed|] == landed;
  }

  lemma StampNext(m: Mirror, prior: seq<SeqOp>, last: SeqOp, key: Key, row: Option<Row>)
    requires RowIs(m, prior, key, row) && On(last.effect, key) && Onto(row, last, key).Some?
    ensures Highest(m, prior + [last], key, Onto(row, last, key).value.opSeq)
  {
    hide Highest, Landed, Written, Base, CreatedAfter;
    HighestNext(m, prior, last, key, if row.Some? then row.value.opSeq else None, Onto(row, last, key).value.opSeq);
  }

  lemma AddingInTurn(base: Cols, written: Cols, more: Cols)
    ensures base + written + more == base + (written + more)
  {
  }

  predicate TakesEffect(row: Option<Row>, op: SeqOp) {
    op.effect.Upsert? || (row.Some? && !Stale(row.value, op.opSeq))
  }

  /** The columns of a row after one more op on it, in time or not. */
  lemma OntoCols(row: Option<Row>, op: SeqOp, key: Key, base: Cols, written: Cols)
    requires On(op.effect, key)
    requires row.Some? ==> row.value.cols == base + written
    requires row.None? ==> base == Defaults(key.table) && written == map[]
    ensures Onto(row, op, key).None? ==> row.None? && !TakesEffect(row, op)
    ensures Onto(row, op, key).Some? && TakesEffect(row, op) ==>
              Onto(row, op, key).value.cols == base + (written + op.effect.cols)
    ensures Onto(row, op, key).Some? && !TakesEffect(row, op) ==> Onto(row, op, key).value.cols == base + written
  {
    hide Defaults;
    AddingInTurn(base, written, op.effect.cols);
    if row.None? {
      assert base + (written + op.effect.cols) == base + op.effect.cols;
    }
  }

  lemma TakesEffectIff(m: Mirror, prior: seq<SeqOp>, op: SeqOp, key: Key, row: Option<Row>)
    requires RowIs(m, prior, key, row) && On(op.effect, key)
    ensures TakesEffect(row, op) <==> InTime(m, prior, op, key)
  {
    if op.effect.Patch? {
      InTimeIff(m, prior, op, key, row);
    }
    hide RowIs, Stale, NewerThanArrived, Created;
  }

  lemma ColsNext(m: Mirror, prior: seq<SeqOp>, last: SeqOp, key: Key, row: Option<Row>)
    requires RowIs(m, prior, key, row) && On(last.effect, key)
    ensures var (ops, next) := (prior + [last], Onto(row, last, key));
            && (next.Some? ==> next.value.cols == Base(m, key) + Written(Landed(m, ops, key), key))
            && (next.None? ==> Landed(m, ops, key) == [])
  {
    LandedNext(m, prior, last, key);
    NothingWritten(key);
    TakesEffectIff(m, prior, last, key, row);
    OntoCols(row, last, key, Base(m, key), Written(Landed(m, prior, key), key));
    hide Landed, Highest, Created, CreatedAfter, Written, InTime, Onto, Base, Defaults, TakesEffect;
  }

  lemma NothingWritten(key: Key)
    ensures Written([], key) == map[]
  {
  }

  lemma RowNext(m: Mirror, prior: seq<SeqOp>, last: SeqOp, key: Key, row: Option<Row>)
    requires RowIs(m, prior, key, row)
    ensures RowIs(m, prior + [last], key, Onto(row, last, key))
  {
    if On(last.effect, key) {
      var next := Onto(row, last, key);
      if next.Some? {
        StampNext(m, prior, last, key, row);
      }
      ColsNext(m, prior, last, key, row);
      CreatedLast(prior, last, key, -1);
      hide Landed, Highest, CreatedAfter, Written, Base;
    } else {
      ElsewhereNext(m, prior, last, key, row);
    }
  }

  /** Whatever arrives in whatever order, the row is its start with what arrived in time written over it. */
  lemma {:induction false} RowAfterArrival(m: Mirror, ops: seq<SeqOp>, key: Key)
    ensures RowIs(m, ops, key, At(ProjectAll(m, ops), key))
    decreases |ops|
  {
    if ops == [] {
      assert Base(m, key) + map[] == Base(m, key);
    } else {
      var (prior, last) := (ops[..|ops| - 1], ops[|ops| - 1]);
      RowAfterArrival(m, prior, key);
      OntoIs(ProjectAll(m, prior), last, key);
      hide RowIs, Project, Onto;
      RowNext(m, prior, last, key, At(ProjectAll(m, prior), key));
      assert prior + [last] == ops;
    }
  }
}

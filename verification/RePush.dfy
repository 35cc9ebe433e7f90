/** Pushing part of a log again: one writer's batch, after other writers' ops were projected too. */
module RePush {
  import opened Common
  import opened Deltas
  import opened Projection

  /** `mine` is a batch of ops of the log, in log order. */
  ghost predicate SubBatch(mine: seq<SeqOp>, ops: seq<SeqOp>) {
    Ascending(mine) && forall i :: 0 <= i < |mine| ==> mine[i] in ops
  }

  /** The number of the first creation of this row. */
  function FirstUpsert(ops: seq<SeqOp>, key: Key): Option<nat> {
    if ops == [] then None
    else
      var (prior, last) := (FirstUpsert(ops[..|ops| - 1], key), ops[|ops| - 1]);
      if prior.Some? then prior else if On(last.effect, key) && last.effect.Upsert? then Some(last.opSeq) else None
  }

  /** The number of the last op on this row. */
  function LastOn(ops: seq<SeqOp>, key: Key): Option<nat> {
    if ops == [] then None
    else if On(ops[|ops| - 1].effect, key) then Some(ops[|ops| - 1].opSeq)
    else LastOn(ops[..|ops| - 1], key)
  }

  /** The columns that the ops numbered `since` or higher write on this row, later ones winning. */
  function WrittenSince(ops: seq<SeqOp>, key: Key, since: nat): Cols {
    if ops == [] then map[]
    else
      var (prior, last) := (WrittenSince(ops[..|ops| - 1], key, since), ops[|ops| - 1]);
      if On(last.effect, key) && last.opSeq >= since then prior + last.effect.cols else prior
  }

  predicate SameWhereBoth(a: Cols, b: Cols) {
    forall c :: c in a && c in b ==> a[c] == b[c]
  }

  /**
   * The batch may be pushed again as far as this row goes: it creates no such row, or
   * it holds the log's last op on the row and, from its creation on, leaves in every
   * column it writes what the log leaves there.
   */
  predicate Harmless(ops: seq<SeqOp>, mine: seq<SeqOp>, key: Key) {
    var first := FirstUpsert(mine, key);
    first.Some? ==>
      && LastOn(mine, key) == LastOn(ops, key)
      && SameWhereBoth(WrittenSince(mine, key, first.value), WrittenSince(ops, key, first.value))
  }

  // ---- what these functions say --------------------------------------------

  lemma {:induction false} FirstUpsertIs(ops: seq<SeqOp>, key: Key) returns (i: nat)
    requires FirstUpsert(ops, key).Some?
    ensures i < |ops| && On(ops[i].effect, key) && ops[i].effect.Upsert? && Some(ops[i].opSeq) == FirstUpsert(ops, key)
    decreases |ops|
  {
    if FirstUpsert(ops[..|ops| - 1], key).Some? {
      i := FirstUpsertIs(ops[..|ops| - 1], key);
    } else {
      i := |ops| - 1;
    }
  }

  /** Ops below `since` write nothing since. */
  lemma {:induction false} NothingBefore(ops: seq<SeqOp>, key: Key, since: nat)
    requires forall i :: 0 <= i < |ops| ==> ops[i].opSeq < since
    ensures WrittenSince(ops, key, since) == map[]
    decreases |ops|
  {
    if ops != [] {
      NothingBefore(ops[..|ops| - 1], key, since);
    }
  }

  lemma {:induction false} Writer(ops: seq<SeqOp>, key: Key, since: nat, c: Column) returns (i: nat)
    requires c in WrittenSince(ops, key, since)
    ensures i < |ops| && On(ops[i].effect, key) && ops[i].opSeq >= since && c in ops[i].effect.cols
    decreases |ops|
  {
    var last := ops[|ops| - 1];
    if On(last.effect, key) && last.opSeq >= since && c in last.effect.cols {
      i := |ops| - 1;
    } else {
      i := Writer(ops[..|ops| - 1], key, since, c);
    }
  }

  lemma {:induction false} WriterWrites(ops: seq<SeqOp>, key: Key, since: nat, op: SeqOp)
    requires op in ops && On(op.effect, key) && op.opSeq >= since
    ensures forall c :: c in op.effect.cols ==> c in WrittenSince(ops, key, since)
    decreases |ops|
  {
    if op != ops[|ops| - 1] {
      WriterWrites(ops[..|ops| - 1], key, since, op);
    }
  }

  /** A sub-batch writes no column that the log does not. */
  lemma SubBatchWrites(ops: seq<SeqOp>, mine: seq<SeqOp>, key: Key, since: nat)
    requires SubBatch(mine, ops)
    ensures forall c :: c in WrittenSince(mine, key, since) ==> c in WrittenSince(ops, key, since)
  {
    forall c | c in WrittenSince(mine, key, since) ensures c in WrittenSince(ops, key, since) {
      var i := Writer(mine, key, since, c);
      WriterWrites(ops, key, since, mine[i]);
    }
  }

  // ---- the row after the log -----------------------------------------------

  /** Row `row` holds the log's last number and everything written since `since`. */
  ghost predicate LeftByLog(m: Mirror, ops: seq<SeqOp>, key: Key, since: nat) {
    && key in m && m[key].opSeq == LastOn(ops, key)
    && forall c :: c in WrittenSince(ops, key, since)
         ==> c in m[key].cols && m[key].cols[c] == WrittenSince(ops, key, since)[c]
  }

  lemma {:induction false} LogLeaves(m: Mirror, ops: seq<SeqOp>, key: Key, i: nat)
    requires Ascending(ops) && i < |ops| && On(ops[i].effect, key) && ops[i].effect.Upsert?
    ensures LeftByLog(ProjectAll(m, ops), ops, key, ops[i].opSeq)
    decreases |ops|
  {
    var prior := ops[..|ops| - 1];
    if i == |prior| {
      NothingBefore(prior, key, ops[i].opSeq);
    } else {
      LogLeaves(m, prior, key, i);
      LastIsBelow(prior, key, ops[|prior|].opSeq);
    }
  }

  lemma {:induction false} LastIsBelow(ops: seq<SeqOp>, key: Key, limit: nat)
    requires forall i :: 0 <= i < |ops| ==> ops[i].opSeq < limit
    ensures LastOn(ops, key).Some? ==> LastOn(ops, key).value < limit
    decreases |ops|
  {
    if ops != [] {
      LastIsBelow(ops[..|ops| - 1], key, limit);
    }
  }

  // ---- the row after the batch is pushed again -----------------------------

  /** Every patch of the batch is behind the row it is on, if that is there. */
  ghost predicate AllBehind(m: Mirror, mine: seq<SeqOp>, key: Key) {
    forall i :: 0 <= i < |mine| && On(mine[i].effect, key) && key in m ==> Stale(m[key], mine[i].opSeq)
  }

  /** Until the batch creates the row nothing happens to it; from then on every op of the batch on it takes effect. */
  ghost predicate LeftByBatch(before: Mirror, after: Mirror, mine: seq<SeqOp>, key: Key) {
    var first := FirstUpsert(mine, key);
    if first.None? then At(after, key) == At(before, key)
    else
      && key in before && key in after && after[key].opSeq == LastOn(mine, key)
      && after[key].cols == before[key].cols + WrittenSince(mine, key, first.value)
  }

  lemma {:induction false} BatchLeaves(m: Mirror, mine: seq<SeqOp>, key: Key)
    requires Ascending(mine) && AllBehind(m, mine, key) && (FirstUpsert(mine, key).Some? ==> key in m)
    ensures LeftByBatch(m, ProjectAll(m, mine), mine, key)
    decreases |mine|
  {
    if mine != [] {
      var (prior, last) := (mine[..|mine| - 1], mine[|mine| - 1]);
      BatchLeaves(m, prior, key);
      LastIsBelow(prior, key, last.opSeq);
      if FirstUpsert(prior, key).None? {
        NothingBefore(prior, key, last.opSeq);
        assert last == mine[|prior|];
      } else if On(last.effect, key) {
        var written := WrittenSince(prior, key, FirstUpsert(prior, key).value);
        assert m[key].cols + (written + last.effect.cols) == m[key].cols + written + last.effect.cols;
        var i := FirstUpsertIs(prior, key);
        assert prior[i] == mine[i];
      }
    }
  }

  lemma AddingBack(base: Cols, more: Cols)
    ensures base + more == base <==> forall c :: c in more ==> c in base && base[c] == more[c]
  {
    if base + more == base {
      forall c | c in more ensures c in base && base[c] == more[c] {
        assert c in base + more && (base + more)[c] == more[c];
      }
    }
  }

  /** One row of a log pushed in full, before and after a batch of it is pushed again. */
  lemma RowUnchangedIff(m: Mirror, ops: seq<SeqOp>, mine: seq<SeqOp>, key: Key)
    requires Ascending(ops) && SubBatch(mine, ops)
    ensures var full := ProjectAll(m, ops);
            At(ProjectAll(full, mine), key) == At(full, key) <==> Harmless(ops, mine, key)
  {
    var full := ProjectAll(m, ops);
    forall i | 0 <= i < |mine| && On(mine[i].effect, key) && key in full ensures Stale(full[key], mine[i].opSeq) {
      var j :| 0 <= j < |ops| && ops[j] == mine[i];
      Marked(m, ops, j, key);
    }
    var first := FirstUpsert(mine, key);
    if first.Some? {
      var i := FirstUpsertIs(mine, key);
      var j :| 0 <= j < |ops| && ops[j] == mine[i];
      LogLeaves(m, ops, key, j);
      SubBatchWrites(ops, mine, key, first.value);
      AddingBack(full[key].cols, WrittenSince(mine, key, first.value));
    }
    BatchLeaves(full, mine, key);
    hide ProjectAll, WrittenSince, LastOn, FirstUpsert, SubBatch, AllBehind;
  }

  /**
   * After a log of any number of writers has been projected, pushing a batch of it
   * again changes nothing exactly when, for every row the batch creates, the log's
   * last op on the row is in the batch, and every column the batch writes from that
   * creation on ends with the value the log ends with.
   */
  lemma RePushHarmlessIff(m: Mirror, ops: seq<SeqOp>, mine: seq<SeqOp>)
    requires Ascending(ops) && SubBatch(mine, ops)
    ensures ProjectAll(ProjectAll(m, ops), mine) == ProjectAll(m, ops) <==> forall key :: Harmless(ops, mine, key)
  {
    var full := ProjectAll(m, ops);
    var again := ProjectAll(full, mine);
    forall key ensures At(again, key) == At(full, key) <==> Harmless(ops, mine, key) {
      RowUnchangedIff(m, ops, mine, key);
    }
    hide ProjectAll, Harmless, SubBatch;
    if forall key :: Harmless(ops, mine, key) {
      forall key ensures key in again <==> key in full {
        assert At(again, key) == At(full, key);
      }
      forall key | key in again ensures again[key] == full[key] {
        assert At(again, key) == At(full, key);
      }
      assert again == full;
    }
  }

  // ---- one harmful log, and one harmless -----------------------------------

  /** A creation, an edit by another writer, an edit by the first. */
  function Edited(key: Key, created: Cols, other: Cols, own: Cols): seq<SeqOp> {
    [SeqOp(Upsert(key, created), 1), SeqOp(Patch(key, other), 2), SeqOp(Patch(key, own), 3)]
  }

  lemma EditedIs(key: Key, created: Cols, other: Cols, own: Cols)
    ensures var ops := Edited(key, created, other, own); var mine := [ops[0], ops[2]];
            && FirstUpsert(mine, key) == Some(1) && LastOn(mine, key) == LastOn(ops, key) == Some(3)
            && WrittenSince(mine, key, 1) == created + own && WrittenSince(ops, key, 1) == created + other + own
            && forall k :: k != key ==> FirstUpsert(mine, k).None?
  {
    var ops := Edited(key, created, other, own);
    var mine := [ops[0], ops[2]];
    assert ops[..2] == [ops[0], ops[1]] && [ops[0], ops[1]][..1] == [ops[0]] && [ops[0]][..0] == [];
    assert mine[..1] == [ops[0]];
    assert WrittenSince([ops[0]], key, 1) == map[] + created == created;
    assert WrittenSince(mine, key, 1) == created + own;
    assert WrittenSince([ops[0], ops[1]], key, 1) == created + other;
    assert FirstUpsert([ops[0]], key) == Some(1);
    forall k | k != key ensures FirstUpsert(mine, k).None? {
      assert FirstUpsert([ops[0]], k).None?;
    }
  }

  /**
   * The first writer's batch may be pushed again exactly when it leaves the other writer's
   * columns alone or agrees on them.
   */
  lemma TwoWritersIff(m: Mirror, key: Key, created: Cols, other: Cols, own: Cols)
    ensures var ops := Edited(key, created, other, own);
            ProjectAll(ProjectAll(m, ops), [ops[0], ops[2]]) == ProjectAll(m, ops)
            <==> forall c :: c in other && c in created && c !in own ==> other[c] == created[c]
  {
    var ops := Edited(key, created, other, own);
    var mine := [ops[0], ops[2]];
    EditedIs(key, created, other, own);
    RePushHarmlessIff(m, ops, mine);
    hide ProjectAll, FirstUpsert, LastOn, WrittenSince;
    assert Harmless(ops, mine, key) <==> SameWhereBoth(created + own, created + other + own);
    assert forall k :: k != key ==> Harmless(ops, mine, k);
    if SameWhereBoth(created + own, created + other + own) {
      forall c | c in other && c in created && c !in own ensures other[c] == created[c] {
        assert (created + own)[c] == created[c] && (created + other + own)[c] == other[c];
      }
    }
  }

  /** Another writer's note is lost when the creation that carried the first note is pushed again. */
  lemma RePushLosesANote(key: Key, first: string, second: string)
    requires first != second
    ensures var ops := Edited(key, map[Notes := Text(first)], map[Notes := Text(second)], map[Name := Text("")]);
            ProjectAll(ProjectAll(map[], ops), [ops[0], ops[2]]) != ProjectAll(map[], ops)
  {
    TwoWritersIff(map[], key, map[Notes := Text(first)], map[Notes := Text(second)], map[Name := Text("")]);
    var created: Cols := map[Notes := Text(first)];
    var other: Cols := map[Notes := Text(second)];
    assert Notes in other && Notes in created && other[Notes] != created[Notes];
    hide ProjectAll;
  }
}

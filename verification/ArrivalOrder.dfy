/**
 * When a mirror ends as it would have in sequence order, although its projections
 * landed in another one, or more than once.
 */
module ArrivalOrder {
  import opened Common
  import opened Deltas
  import opened Projection
  import opened OutOfOrder
  import OpLog
  import Push

  // ---- the same ops in another order ---------------------------------------

  /** Every op of the log arrives, at least once, and nothing else does. */
  ghost predicate Delivers(arrival: seq<SeqOp>, ops: seq<SeqOp>) {
    forall op :: op in arrival <==> op in ops
  }

  /** Any reordering of a log delivers it. */
  lemma PermutedDelivers(arrival: seq<SeqOp>, ops: seq<SeqOp>)
    requires multiset(arrival) == multiset(ops)
    ensures Delivers(arrival, ops)
  {
    forall op ensures op in arrival <==> op in ops {
      assert op in multiset(arrival) <==> op in multiset(ops);
    }
  }

  lemma SameCreated(arrival: seq<SeqOp>, ops: seq<SeqOp>)
    requires Delivers(arrival, ops)
    ensures forall key :: Created(arrival, key) <==> Created(ops, key)
  {
    forall key ensures Created(arrival, key) <==> Created(ops, key) {
      CreatedIff(arrival, key);
      CreatedIff(ops, key);
    }
  }

  lemma CreatedIff(ops: seq<SeqOp>, key: Key)
    ensures Created(ops, key) <==> exists op <- ops :: On(op.effect, key) && op.effect.Upsert?
  {
    if op :| op in ops && On(op.effect, key) && op.effect.Upsert? {
      var k :| 0 <= k < |ops| && ops[k] == op;
    }
  }

  lemma {:induction false} LastCreation(ops: seq<SeqOp>, key: Key) returns (u: nat)
    requires Created(ops, key)
    ensures u < |ops| && On(ops[u].effect, key) && ops[u].effect.Upsert? && !CreatedAfter(ops, u, key)
    decreases |ops|
  {
    u := |ops| - 1;
    if !(On(ops[u].effect, key) && ops[u].effect.Upsert?) {
      var prior := ops[..u];
      var last := ops[u];
      assert ops == prior + [last];
      CreatedLast(prior, last, key, -1);
      u := LastCreation(prior, key);
      CreatedLast(prior, last, key, u);
    }
  }

  /** In sequence order a patch is in time as soon as its row is there, unless the row was ahead from the start. */
  lemma InOrderInTime(m: Mirror, ops: seq<SeqOp>, i: nat, key: Key)
    requires Ascending(ops) && i < |ops|
    ensures InTime(m, ops[..i], ops[i], key)
       <==> ops[i].effect.Upsert? || Created(ops[..i], key) || (key in m && !Stale(m[key], ops[i].opSeq))
  {
  }

  lemma {:induction false} LandedWhere(m: Mirror, arrival: seq<SeqOp>, key: Key, op: SeqOp) returns (i: nat)
    requires op in Landed(m, arrival, key)
    ensures i < |arrival| && arrival[i] == op && On(op.effect, key) && InTime(m, arrival[..i], op, key)
    decreases |arrival|
  {
    hide InTime;
    var (prior, last) := (arrival[..|arrival| - 1], arrival[|arrival| - 1]);
    if On(last.effect, key) && InTime(m, prior, last, key) && op == last {
      i := |prior|;
    } else {
      i := LandedWhere(m, prior, key, op);
      assert prior[..i] == arrival[..i];
    }
  }

  lemma {:induction false} InTimeLands(m: Mirror, arrival: seq<SeqOp>, key: Key, i: nat)
    requires i < |arrival| && On(arrival[i].effect, key) && InTime(m, arrival[..i], arrival[i], key)
    ensures arrival[i] in Landed(m, arrival, key)
    decreases |arrival|
  {
    hide InTime;
    var prior := arrival[..|arrival| - 1];
    if i < |prior| {
      assert prior[..i] == arrival[..i];
      InTimeLands(m, prior, key, i);
    }
  }

  /** A creation of a lower number comes first in sequence order. */
  lemma CreatedBefore(ops: seq<SeqOp>, creation: SeqOp, p: nat, key: Key)
    requires Ascending(ops) && p < |ops| && creation in ops && creation.opSeq < ops[p].opSeq
    requires On(creation.effect, key) && creation.effect.Upsert?
    ensures Created(ops[..p], key)
  {
    var q :| 0 <= q < |ops| && ops[q] == creation;
    assert q < p;
    assert ops[..p][q] == ops[q];
  }

  /** What arrives in time in any order is in time in sequence order. */
  lemma InTimeInOrder(m: Mirror, arrival: seq<SeqOp>, ops: seq<SeqOp>, key: Key, op: SeqOp)
    requires Ascending(ops) && Delivers(arrival, ops) && op in Landed(m, arrival, key)
    ensures op in Landed(m, ops, key)
  {
    var i := LandedWhere(m, arrival, key, op);
    hide Landed;
    assert op in arrival;
    var p: nat :| p < |ops| && ops[p] == op;
    if op.effect.Patch? && Created(arrival[..i], key) {
      var u := LastCreation(arrival[..i], key);
      assert arrival[u] in ops;
      CreatedBefore(ops, arrival[u], p, key);
    }
    hide Ascending, CreatedAfter, NewerThanArrived, Delivers;
    InOrderInTime(m, ops, p, key);
    InTimeLands(m, ops, key, p);
  }

  lemma {:induction false} Writer(ops: seq<SeqOp>, key: Key, c: Column) returns (op: SeqOp)
    requires c in Written(ops, key)
    ensures op in ops && On(op.effect, key) && c in op.effect.cols
    decreases |ops|
  {
    op := ops[|ops| - 1];
    if !(On(op.effect, key) && c in op.effect.cols) {
      op := Writer(ops[..|ops| - 1], key, c);
    }
  }

  lemma {:induction false} WriterWrites(ops: seq<SeqOp>, key: Key, op: SeqOp)
    requires op in ops && On(op.effect, key)
    ensures forall c :: c in op.effect.cols ==> c in Written(ops, key)
    decreases |ops|
  {
    if op != ops[|ops| - 1] {
      WriterWrites(ops[..|ops| - 1], key, op);
    }
  }

  lemma WritesNoMore(m: Mirror, arrival: seq<SeqOp>, ops: seq<SeqOp>, key: Key)
    requires Ascending(ops) && Delivers(arrival, ops)
    ensures forall c :: c in Written(Landed(m, arrival, key), key) ==> c in Written(Landed(m, ops, key), key)
  {
    forall c | c in Written(Landed(m, arrival, key), key) ensures c in Written(Landed(m, ops, key), key) {
      var op := Writer(Landed(m, arrival, key), key, c);
      InTimeInOrder(m, arrival, ops, key, op);
      WriterWrites(Landed(m, ops, key), key, op);
    }
  }

  // ---- the op_seq of the row -----------------------------------------------

  /** The op on the row with the highest number, with no creation of the row after it. */
  ghost predicate IsTop(ops: seq<SeqOp>, k: int, key: Key) {
    && 0 <= k < |ops| && On(ops[k].effect, key) && !CreatedAfter(ops, k, key)
    && forall i :: 0 <= i < |ops| && On(ops[i].effect, key) ==> ops[i].opSeq <= ops[k].opSeq
  }

  /** If there is any op on the row, no creation of the row arrives after the one with the highest number. */
  ghost predicate HighestStays(arrival: seq<SeqOp>, key: Key) {
    (exists i :: 0 <= i < |arrival| && On(arrival[i].effect, key)) ==> exists k :: IsTop(arrival, k, key)
  }

  lemma {:induction false} InOrderTop(ops: seq<SeqOp>, key: Key)
    requires Ascending(ops)
    ensures HighestStays(ops, key)
    decreases |ops|
  {
    if ops != [] {
      var (prior, last) := (ops[..|ops| - 1], ops[|ops| - 1]);
      InOrderTop(prior, key);
      assert ops == prior + [last];
      if On(last.effect, key) {
        CreatedLast(prior, last, key, |prior|);
        assert IsTop(ops, |prior|, key);
      } else if i :| 0 <= i < |ops| && On(ops[i].effect, key) {
        assert prior[i] == ops[i];
        var k :| IsTop(prior, k, key);
        CreatedLast(prior, last, key, k);
        assert IsTop(ops, k, key);
      }
    }
  }

  /** Without creations the row ends at the same op_seq in every order. */
  lemma PatchesSameStamp(m: Mirror, arrival: seq<SeqOp>, ops: seq<SeqOp>, key: Key, a: Option<nat>, b: Option<nat>)
    requires Delivers(arrival, ops) && !Created(ops, key) && key in m
    requires Highest(m, arrival, key, a) && Highest(m, ops, key, b)
    ensures a == b
  {
    SameCreated(arrival, ops);
    NotMore(m, arrival, ops, key, a, b);
    NotMore(m, ops, arrival, key, b, a);
  }

  lemma NeverCreatedAfter(ops: seq<SeqOp>, key: Key)
    requires !Created(ops, key)
    ensures forall i :: i >= -1 ==> !CreatedAfter(ops, i, key)
  {
  }

  lemma NotMore(m: Mirror, arrival: seq<SeqOp>, ops: seq<SeqOp>, key: Key, a: Option<nat>, b: Option<nat>)
    requires !Created(arrival, key) && !Created(ops, key) && key in m && forall op <- arrival :: op in ops
    requires Highest(m, arrival, key, a) && Highest(m, ops, key, b)
    ensures a.Some? ==> b.Some? && a.value <= b.value
  {
    NeverCreatedAfter(arrival, key);
    NeverCreatedAfter(ops, key);
    if a != m[key].opSeq {
      var i :| 0 <= i < |arrival| && On(arrival[i].effect, key) && a == Some(arrival[i].opSeq);
      assert arrival[i] in ops;
      var j :| 0 <= j < |ops| && ops[j] == arrival[i];
    }
  }

  lemma PatchesStay(arrival: seq<SeqOp>, ops: seq<SeqOp>, key: Key)
    requires Ascending(ops) && Delivers(arrival, ops) && !Created(ops, key)
    ensures HighestStays(arrival, key)
  {
    SameCreated(arrival, ops);
    NeverCreatedAfter(arrival, key);
    InOrderTop(ops, key);
    if i :| 0 <= i < |arrival| && On(arrival[i].effect, key) {
      assert arrival[i] in ops;
      var k :| IsTop(ops, k, key);
      assert ops[k] in arrival;
      var j :| 0 <= j < |arrival| && arrival[j] == ops[k];
      forall n | 0 <= n < |arrival| && On(arrival[n].effect, key) ensures arrival[n].opSeq <= arrival[j].opSeq {
        assert arrival[n] in ops;
      }
      assert IsTop(arrival, j, key);
    }
  }

  /** A created row carries the number of an op that no creation follows, and no such op has a higher one. */
  lemma StampSource(m: Mirror, ops: seq<SeqOp>, key: Key, stamp: Option<nat>) returns (i: nat)
    requires Created(ops, key) && Highest(m, ops, key, stamp)
    ensures i < |ops| && On(ops[i].effect, key) && !CreatedAfter(ops, i, key) && stamp == Some(ops[i].opSeq)
    ensures forall k :: IsTop(ops, k, key) ==> ops[k].opSeq <= stamp.value
  {
    i :| 0 <= i < |ops| && On(ops[i].effect, key) && !CreatedAfter(ops, i, key) && stamp == Some(ops[i].opSeq);
    forall k | IsTop(ops, k, key) ensures ops[k].opSeq <= stamp.value {}
  }

  /** `top` is the highest number among the ops on the row. */
  ghost predicate HighestNumber(ops: seq<SeqOp>, key: Key, top: nat) {
    && (exists i :: 0 <= i < |ops| && On(ops[i].effect, key) && ops[i].opSeq == top)
    && forall i :: 0 <= i < |ops| && On(ops[i].effect, key) ==> ops[i].opSeq <= top
  }

  lemma SameHighest(arrival: seq<SeqOp>, ops: seq<SeqOp>, key: Key, top: nat)
    requires Delivers(arrival, ops) && HighestNumber(ops, key, top)
    ensures HighestNumber(arrival, key, top)
  {
    SameCreated(arrival, ops);
    var i :| 0 <= i < |ops| && On(ops[i].effect, key) && ops[i].opSeq == top;
    assert ops[i] in arrival;
    forall n | 0 <= n < |arrival| && On(arrival[n].effect, key) ensures arrival[n].opSeq <= top {
      assert arrival[n] in ops;
    }
  }

  lemma TopIsHighest(ops: seq<SeqOp>, k: nat, key: Key, top: nat)
    requires IsTop(ops, k, key)
    ensures HighestNumber(ops, key, top) <==> ops[k].opSeq == top
  {
  }

  lemma HighestIsTop(ops: seq<SeqOp>, k: nat, key: Key, top: nat)
    requires k < |ops| && On(ops[k].effect, key) && !CreatedAfter(ops, k, key)
    requires HighestNumber(ops, key, top)
    ensures ops[k].opSeq == top <==> IsTop(ops, k, key)
  {
  }

  /** With creations it ends at the highest number exactly when that one stays. */
  lemma CreatedStampIff(m: Mirror, ops: seq<SeqOp>, key: Key, stamp: Option<nat>, top: nat)
    requires Created(ops, key) && Highest(m, ops, key, stamp) && HighestNumber(ops, key, top)
    ensures stamp == Some(top) <==> HighestStays(ops, key)
  {
    var i := StampSource(m, ops, key, stamp);
    HighestIsTop(ops, i, key, top);
    if k: nat :| IsTop(ops, k, key) {
      TopIsHighest(ops, k, key, top);
      assert ops[i].opSeq <= top by { hide Highest, CreatedAfter, IsTop; }
      hide Created, Highest, CreatedAfter, IsTop, HighestNumber;
    } else {
      hide Created, Highest, CreatedAfter, HighestNumber;
    }
  }

  lemma SameStampIff(m: Mirror, arrival: seq<SeqOp>, ops: seq<SeqOp>, key: Key, a: Option<nat>, b: Option<nat>)
    requires Ascending(ops) && Delivers(arrival, ops) && (key in m || Created(ops, key))
    requires Highest(m, arrival, key, a) && Highest(m, ops, key, b)
    ensures a == b <==> HighestStays(arrival, key)
  {
    SameCreated(arrival, ops);
    if Created(ops, key) {
      InOrderTop(ops, key);
      var k :| IsTop(ops, k, key);
      TopIsHighest(ops, k, key, ops[k].opSeq);
      SameHighest(arrival, ops, key, ops[k].opSeq);
      hide Highest, CreatedAfter, HighestNumber, HighestStays;
      CreatedStampIff(m, ops, key, b, ops[k].opSeq);
      CreatedStampIff(m, arrival, key, a, ops[k].opSeq);
    } else {
      PatchesSameStamp(m, arrival, ops, key, a, b);
      PatchesStay(arrival, ops, key);
    }
  }

  // ---- when the order does not matter --------------------------------------

  predicate Holds(left: Cols, due: Cols) {
    forall c :: c in due ==> c in left && left[c] == due[c]
  }

  /** Every column that is written in sequence order ends with the value it has there. */
  ghost predicate EndsAsInOrder(m: Mirror, arrival: seq<SeqOp>, ops: seq<SeqOp>, key: Key) {
    Holds(Base(m, key) + Written(Landed(m, arrival, key), key), Written(Landed(m, ops, key), key))
  }

  lemma SameColumnsIff(base: Cols, some: Cols, all: Cols)
    requires forall c :: c in some ==> c in all
    ensures base + some == base + all <==> Holds(base + some, all)
  {
    if base + some == base + all {
      forall c | c in all ensures c in base + some && (base + some)[c] == all[c] {
        assert c in base + all && (base + all)[c] == all[c];
      }
    }
  }

  /**
   * "Any order gives the same row" is false. Whatever the log, its creations included,
   * and whatever the order it arrives in, each op once or many times, a row ends as in
   * sequence order exactly when no creation of it arrives after the last arrival of the
   * op on it with the highest number, and the ops that arrive in time leave every column
   * written in order at its value there.
   */
  lemma RowSameIff(m: Mirror, arrival: seq<SeqOp>, ops: seq<SeqOp>, key: Key)
    requires Ascending(ops) && Delivers(arrival, ops)
    ensures At(ProjectAll(m, arrival), key) == At(ProjectAll(m, ops), key)
       <==> HighestStays(arrival, key) && EndsAsInOrder(m, arrival, ops, key)
  {
    RowAfterArrival(m, arrival, key);
    RowAfterArrival(m, ops, key);
    SameCreated(arrival, ops);
    var (a, b) := (At(ProjectAll(m, arrival), key), At(ProjectAll(m, ops), key));
    NothingWritten(key);
    hide ProjectAll, Created, Landed, Written, Highest, HighestStays, Base, Delivers, Ascending, At;
    if a.Some? {
      SameStampIff(m, arrival, ops, key, a.value.opSeq, b.value.opSeq);
      WritesNoMore(m, arrival, ops, key);
      SameColumnsIff(Base(m, key), Written(Landed(m, arrival, key), key), Written(Landed(m, ops, key), key));
    } else {
      PatchesStay(arrival, ops, key);
    }
  }

  /** The whole mirror ends as in sequence order exactly when each of its rows does. */
  lemma AnyArrivalSameIff(m: Mirror, arrival: seq<SeqOp>, ops: seq<SeqOp>)
    requires Ascending(ops) && Delivers(arrival, ops)
    ensures ProjectAll(m, arrival) == ProjectAll(m, ops)
       <==> forall key :: HighestStays(arrival, key) && EndsAsInOrder(m, arrival, ops, key)
  {
    forall key ensures At(ProjectAll(m, arrival), key) == At(ProjectAll(m, ops), key)
                  <==> HighestStays(arrival, key) && EndsAsInOrder(m, arrival, ops, key) {
      RowSameIff(m, arrival, ops, key);
    }
    hide ProjectAll, HighestStays, EndsAsInOrder, Delivers;
    if forall key :: HighestStays(arrival, key) && EndsAsInOrder(m, arrival, ops, key) {
      SameRows(ProjectAll(m, arrival), ProjectAll(m, ops));
    }
  }

  // ---- patches alone -------------------------------------------------------

  ghost predicate NoneStale(m: Mirror, ops: seq<SeqOp>, key: Key) {
    key in m && forall i :: 0 <= i < |ops| ==> !Stale(m[key], ops[i].opSeq)
  }

  /** On a row that is there and behind them, ops in sequence order are all in time. */
  lemma {:induction false} AllLand(m: Mirror, ops: seq<SeqOp>, key: Key)
    requires Ascending(ops) && NoneStale(m, ops, key)
    ensures Written(Landed(m, ops, key), key) == Written(ops, key)
    decreases |ops|
  {
    if ops != [] {
      var (prior, last) := (ops[..|ops| - 1], ops[|ops| - 1]);
      AllLand(m, prior, key);
      InOrderInTime(m, ops, |prior|, key);
      assert prior + [last] == ops;
      if On(last.effect, key) {
        LandedNext(m, prior, last, key);
      }
    }
  }

  lemma NothingCreated(ops: seq<SeqOp>, key: Key)
    requires PatchesOnly(ops)
    ensures !Created(ops, key)
  {
  }

  /**
   * Patches on a row that is there and behind them: in whatever order they arrive, the
   * row ends as in sequence order exactly when those in time leave in every column the
   * value of the newest patch that writes it.
   */
  lemma PatchesSameIff(m: Mirror, arrival: seq<SeqOp>, ops: seq<SeqOp>, key: Key)
    requires PatchesOnly(ops) && Ascending(ops) && Delivers(arrival, ops) && NoneStale(m, ops, key)
    ensures At(ProjectAll(m, arrival), key) == At(ProjectAll(m, ops), key)
       <==> Holds(m[key].cols + Written(Landed(m, arrival, key), key), Written(ops, key))
  {
    RowSameIff(m, arrival, ops, key);
    AllLand(m, ops, key);
    NothingCreated(ops, key);
    PatchesStay(arrival, ops, key);
    hide ProjectAll, Landed, Written, PatchesOnly, Ascending, Delivers, HighestStays, Holds;
  }

  lemma {:induction false} WrittenAfter(first: SeqOp, rest: seq<SeqOp>, key: Key)
    requires On(first.effect, key)
    ensures Written([first] + rest, key) == first.effect.cols + Written(rest, key)
    decreases |rest|
  {
    var ops := [first] + rest;
    if rest == [] {
      assert ops[..0] == [] && ops[0] == first;
      assert map[] + first.effect.cols == first.effect.cols + map[];
    } else {
      var (prior, last) := (rest[..|rest| - 1], rest[|rest| - 1]);
      assert ops[..|ops| - 1] == [first] + prior;
      WrittenAfter(first, prior, key);
      if On(last.effect, key) {
        AddingInTurn(first.effect.cols, Written(prior, key), last.effect.cols);
      }
    }
  }

  ghost predicate NewerThan(late: SeqOp, newer: seq<SeqOp>) {
    forall i :: 0 <= i < |newer| ==> late.opSeq < newer[i].opSeq
  }

  /** A patch that arrives after a newer one on its row does not land. */
  lemma LateIsDropped(m: Mirror, late: SeqOp, newer: seq<SeqOp>, key: Key)
    requires On(late.effect, key) && late.effect.Patch? && PatchesOnly(newer) && NewerThan(late, newer)
    requires exists i :: 0 <= i < |newer| && On(newer[i].effect, key)
    ensures Landed(m, newer + [late], key) == Landed(m, newer, key)
  {
    NothingCreated(newer, key);
    NeverCreatedAfter(newer, key);
    LandedNext(m, newer, late, key);
  }

  lemma InOrderFirst(m: Mirror, late: SeqOp, newer: seq<SeqOp>, key: Key)
    requires key in m && !Stale(m[key], late.opSeq) && late.effect.Patch?
    requires PatchesOnly(newer) && Ascending(newer) && NewerThan(late, newer)
    ensures var ops := [late] + newer;
            && PatchesOnly(ops) && Ascending(ops) && Delivers(newer + [late], ops)
            && NoneStale(m, ops, key) && NoneStale(m, newer, key)
  {
    var ops := [late] + newer;
    assert forall i :: 0 <= i < |ops| ==> ops[i] == if i == 0 then late else newer[i - 1];
    assert forall i :: 0 <= i < |newer| ==> newer[i] == ops[i + 1];
  }

  /** One patch that arrives last and too late is harmless when all it writes is rewritten, or was there before. */
  lemma LatePatchHarmlessIff(m: Mirror, late: SeqOp, newer: seq<SeqOp>, key: Key)
    requires On(late.effect, key) && late.effect.Patch? && key in m && !Stale(m[key], late.opSeq)
    requires PatchesOnly(newer) && Ascending(newer) && NewerThan(late, newer)
    requires exists i :: 0 <= i < |newer| && On(newer[i].effect, key)
    ensures At(ProjectAll(m, newer + [late]), key) == At(ProjectAll(m, [late] + newer), key)
       <==> forall c :: c in late.effect.cols && c !in Written(newer, key)
              ==> c in m[key].cols && m[key].cols[c] == late.effect.cols[c]
  {
    InOrderFirst(m, late, newer, key);
    PatchesSameIff(m, newer + [late], [late] + newer, key);
    LateIsDropped(m, late, newer, key);
    AllLand(m, newer, key);
    WrittenAfter(late, newer, key);
    hide ProjectAll, Landed, Written, PatchesOnly, Ascending, Delivers, NoneStale, NewerThan, Holds, CreatedAfter;
    LeftOver(m[key].cols, late.effect.cols, Written(newer, key));
  }

  lemma LeftOver(base: Cols, late: Cols, newer: Cols)
    ensures Holds(base + newer, late + newer)
       <==> forall c :: c in late && c !in newer ==> c in base && base[c] == late[c]
  {
    if Holds(base + newer, late + newer) {
      forall c | c in late && c !in newer ensures c in base && base[c] == late[c] {
        assert c in late + newer && (base + newer)[c] == (late + newer)[c];
      }
    }
  }

  // ---- concrete losses -----------------------------------------------------

  /** A name set by op 1 disappears when op 2, on the notes, lands first. */
  lemma LatePatchLoses(key: Key)
    ensures var m: Mirror := map[key := Row(map[Name := Text("old")], None)];
            var rename := SeqOp(Patch(key, map[Name := Text("new")]), 1);
            var annotate := SeqOp(Patch(key, map[Notes := Text("paid")]), 2);
            At(ProjectAll(m, [annotate, rename]), key) != At(ProjectAll(m, [rename, annotate]), key)
  {
    var m: Mirror := map[key := Row(map[Name := Text("old")], None)];
    var rename := SeqOp(Patch(key, map[Name := Text("new")]), 1);
    var annotate := SeqOp(Patch(key, map[Notes := Text("paid")]), 2);
    assert On([annotate][0].effect, key);
    assert [annotate][..0] == [];
    assert Written([annotate], key) == map[Notes := Text("paid")];
    assert Name in rename.effect.cols && Name !in Written([annotate], key);
    LatePatchHarmlessIff(m, rename, [annotate], key);
    assert [annotate] + [rename] == [annotate, rename] && [rename] + [annotate] == [rename, annotate];
  }

  /** A creation that arrives after an edit of its row always tells: the edit is lost or the op_seq taken back. */
  lemma LateCreationTells(m: Mirror, creation: SeqOp, edit: SeqOp, key: Key)
    requires On(creation.effect, key) && creation.effect.Upsert? && On(edit.effect, key)
    requires creation.opSeq < edit.opSeq && edit.effect.Patch?
    ensures At(ProjectAll(m, [edit, creation]), key) != At(ProjectAll(m, [creation, edit]), key)
  {
    var (arrival, ops) := ([edit, creation], [creation, edit]);
    assert Delivers(arrival, ops) by { assert arrival == [edit] + [creation] && ops == [creation] + [edit]; }
    RowSameIff(m, arrival, ops, key);
    assert On(arrival[0].effect, key);
    forall k ensures !IsTop(arrival, k, key) {
      assert CreatedAfter(arrival, 0, key) by { assert arrival[1] == creation; }
      assert arrival[0] == edit;
    }
    hide ProjectAll;
  }

  // ---- the rows of a log ---------------------------------------------------

  /** Every row of the log is projected, at least once, and nothing else is. */
  ghost predicate Projects(arrival: seq<OpLog.LogRow>, log: OpLog.Log) {
    forall row :: row in arrival <==> row in log.rows
  }

  lemma SameEffects(effects: Push.Effects, rows: seq<OpLog.LogRow>, op: SeqOp)
    ensures op in Push.SeqOps(effects, rows) <==> exists row <- rows :: op == SeqOp(effects(row), row.opSeq)
  {
    if op in Push.SeqOps(effects, rows) {
      var i :| 0 <= i < |rows| && Push.SeqOps(effects, rows)[i] == op;
      assert rows[i] in rows;
    }
    if row :| row in rows && op == SeqOp(effects(row), row.opSeq) {
      var i :| 0 <= i < |rows| && rows[i] == row;
      assert Push.SeqOps(effects, rows)[i] == op;
    }
  }

  /**
   * However the pushes of any number of writers, retries included, interleave their
   * projections, the mirror is the guard-free fold of the log exactly when for every row
   * no creation follows its newest op, and what arrives in time leaves the logged values.
   */
  lemma MirrorIsFoldIff(effects: Push.Effects, m: Mirror, log: OpLog.Log, arrival: seq<OpLog.LogRow>)
    requires log.Valid() && Projects(arrival, log)
    requires Before(m, Push.SeqOps(effects, log.rows))
    ensures var (came, ops) := (Push.SeqOps(effects, arrival), Push.SeqOps(effects, log.rows));
            ProjectAll(m, came) == Fold(m, ops)
            <==> forall key :: HighestStays(came, key) && EndsAsInOrder(m, came, ops, key)
  {
    var (came, ops) := (Push.SeqOps(effects, arrival), Push.SeqOps(effects, log.rows));
    forall op ensures op in came <==> op in ops {
      SameEffects(effects, arrival, op);
      SameEffects(effects, log.rows, op);
    }
    assert Ascending(ops);
    hide HighestStays, EndsAsInOrder;
    InOrderIsFold(m, ops);
    AnyArrivalSameIff(m, came, ops);
  }
}

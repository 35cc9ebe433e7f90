/** What a push answers, for any batch on any log: repeated ids, old ids and new ones. */
module PushAcks {
  import opened OpLog
  import opened Push
  import Projection

  predicate Logged(rows: seq<LogRow>, id: string) {
    exists i :: 0 <= i < |rows| && rows[i].id == id
  }

  predicate LoggedAt(rows: seq<LogRow>, id: string, opSeq: nat) {
    exists i :: 0 <= i < |rows| && rows[i].id == id && rows[i].opSeq == opSeq
  }

  predicate Carried(ops: seq<NormalizedOp>, id: string) {
    exists i :: 0 <= i < |ops| && ops[i].id == id
  }

  /** The answer to op i names its number in the log, and says whether this push logged it. */
  predicate GoodAck(before: seq<LogRow>, after: seq<LogRow>, ops: seq<NormalizedOp>, i: nat, ack: PushOpResult)
    requires i < |ops|
  {
    && ack.id == ops[i].id && LoggedAt(after, ack.id, ack.opSeq)
    && (ack.status == Duplicate <==> Logged(before, ack.id) || Carried(ops[..i], ack.id))
  }

  /** A batch pushed: valid log, nothing old moved, as many new rows as consumed, and one good answer per op. */
  ghost predicate Acked(p: Progress, q: Progress, ops: seq<NormalizedOp>) {
    && q.log.Valid() && p.log.rows <= q.log.rows
    && |q.log.rows| - |p.log.rows| == q.consumed - p.consumed
    && |q.results| == |p.results| + |ops| && p.results <= q.results
    && (forall id :: Logged(q.log.rows, id) <==> Logged(p.log.rows, id) || Carried(ops, id))
    && (forall j :: |p.results| <= j < |q.results|
          ==> GoodAck(p.log.rows, q.log.rows, ops, j - |p.results|, q.results[j]))
  }

  /** How one append changes which ids are logged, and where. */
  lemma AppendEffect(log: Log, op: NormalizedOp, deviceId: string, now: int)
    requires log.Valid()
    ensures var (log', a) := Append(log, op, deviceId, now);
            && log'.Valid() && log.rows <= log'.rows
            && (a.status == Duplicate <==> Logged(log.rows, op.id))
            && |log'.rows| == |log.rows| + (if a.status == AppliedNow then 1 else 0)
            && LoggedAt(log'.rows, op.id, a.opSeq)
            && (forall id :: Logged(log'.rows, id) <==> Logged(log.rows, id) || id == op.id)
  {
    AppendKeepsValid(log, op, deviceId, now);
    var (log', a) := Append(log, op, deviceId, now);
    if a.status == AppliedNow {
      var row := RowOf(op, deviceId, now, log.nextSeq);
      assert log'.rows == log.rows + [row];
      assert log'.rows[|log.rows|] == row;
      assert forall i :: 0 <= i < |log.rows| ==> log'.rows[i] == log.rows[i];
    } else {
      assert log.rows[Find(log.rows, op.id)].id == op.id;
    }
  }

  lemma OneMoreCarried(ops: seq<NormalizedOp>)
    requires ops != []
    ensures forall id :: Carried(ops, id) <==> Carried(ops[..|ops| - 1], id) || id == ops[|ops| - 1].id
  {
    var prior := ops[..|ops| - 1];
    assert forall i :: 0 <= i < |prior| ==> prior[i] == ops[i];
  }

  lemma AcksStayGood(before: seq<LogRow>, mid: seq<LogRow>, after: seq<LogRow>, ops: seq<NormalizedOp>, i: nat,
                     ack: PushOpResult)
    requires ops != [] && i < |ops| - 1 && mid <= after
    requires GoodAck(before, mid, ops[..|ops| - 1], i, ack)
    ensures GoodAck(before, after, ops, i, ack)
  {
    assert ops[..|ops| - 1][..i] == ops[..i];
    var n :| 0 <= n < |mid| && mid[n].id == ack.id && mid[n].opSeq == ack.opSeq;
    assert after[n] == mid[n];
  }

  /**
   * Whatever the batch, each op is answered in order with the number its id has in
   * the log; the answer is "duplicate" exactly when the id was logged before the push
   * or came earlier in the batch, and what is consumed is exactly the rows added.
   */
  lemma {:induction false} EveryOpIsAcked(effects: Effects, clock: nat -> int, p: Progress, ops: seq<NormalizedOp>,
                                          deviceId: string)
    requires p.log.Valid()
    ensures Acked(p, PushMany(effects, clock, p, ops, deviceId), ops)
    decreases |ops|
  {
    hide Append, Projection.Project, Logged, LoggedAt, Carried, GoodAck;
    if ops == [] {
      assert forall id :: !Carried(ops, id) by { NoneCarried(); }
    } else {
      var (prior, op) := (ops[..|ops| - 1], ops[|ops| - 1]);
      EveryOpIsAcked(effects, clock, p, prior, deviceId);
      var mid := PushMany(effects, clock, p, prior, deviceId);
      var q := PushMany(effects, clock, p, ops, deviceId);
      AppendEffect(mid.log, op, deviceId, clock(mid.log.nextSeq));
      OneMoreCarried(ops);
      forall j | |p.results| <= j < |mid.results|
        ensures GoodAck(p.log.rows, q.log.rows, ops, j - |p.results|, q.results[j])
      {
        assert mid.results[j] == q.results[j];
        AcksStayGood(p.log.rows, mid.log.rows, q.log.rows, ops, j - |p.results|, mid.results[j]);
      }
      LastAck(p.log.rows, mid.log.rows, q.log.rows, ops, q.results[|p.results| + |prior|]);
    }
  }

  lemma NoneCarried()
    ensures forall id :: !Carried([], id)
  {
  }

  lemma LastAck(before: seq<LogRow>, mid: seq<LogRow>, after: seq<LogRow>, ops: seq<NormalizedOp>, ack: PushOpResult)
    requires ops != [] && ack.id == ops[|ops| - 1].id && LoggedAt(after, ack.id, ack.opSeq)
    requires ack.status == Duplicate <==> Logged(mid, ack.id)
    requires Logged(mid, ack.id) <==> Logged(before, ack.id) || Carried(ops[..|ops| - 1], ack.id)
    ensures GoodAck(before, after, ops, |ops| - 1, ack)
  {
  }
}

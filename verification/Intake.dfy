/** Validation of a pushed batch, before any quota is reserved. */
module Intake {
  import opened Common
  import opened Deltas
  import opened OpLog

  /** What the client sent: nothing, an object or array, JSON text, or a bare number or boolean. */
  datatype FieldDeltas = Missing | Object(deltas: Deltas) | Encoded(text: string) | BareValue(v: BareJson)

  datatype RawOp = RawOp(id: Json, entityType: Json, entityId: Json, action: Json, fieldDeltas: FieldDeltas,
                         localTimestamp: Json)

  datatype PushOpFailure = PushOpFailure(id: string, code: string)

  const INVALID_REQUEST: string := "invalid_request"
  const INVALID_ACTION: string := "invalid_action"

  function ParseFieldDeltas(env: Env, raw: FieldDeltas): Payload {
    match raw
    case Missing => NoPayload
    case Object(d) => Fields(d)
    case Encoded(text) =>
      (match env.jsonObject(text)
       case None => NoPayload
       case Some(d) => Fields(d))
    case BareValue(v) => Bare(v)
  }

  function NormalizeOp(env: Env, raw: RawOp): Result<NormalizedOp, string> {
    var id := RequireString(raw.id, "op.id", ENTITY_ID_MAX_LENGTH);
    var entityType := RequireString(raw.entityType, "op.entity_type", 64);
    var entityId := RequireString(raw.entityId, "op.entity_id", ENTITY_ID_MAX_LENGTH);
    var action := RequireString(raw.action, "op.action", 64);
    if id.Err? || entityType.Err? || entityId.Err? || action.Err? then Err(INVALID_REQUEST)
    else if !IsSyncableEntityType(entityType.value) then Err(INVALID_REQUEST)
    else if !IsSyncOpAction(action.value) then Err(INVALID_ACTION)
    else
      var deltas := ParseFieldDeltas(env, raw.fieldDeltas);
      var (projectedAction, projectedDeltas) := NormalizePushAction(action.value, deltas);
      if ValidateEntityDeltas(env, entityType.value, projectedAction, projectedDeltas).Some? then Err(INVALID_REQUEST)
      else
        match ParseInstant(env, raw.localTimestamp, "op.local_timestamp")
        case Err(_) => Err(INVALID_REQUEST)
        case Ok(loggedAt) =>
          Ok(NormalizedOp(id.value, entityType.value, entityId.value, action.value, loggedAt, deltas))
  }

  /** What projecting a logged verb would do, or the validation error it would raise. */
  function Projection(env: Env, entityType: string, entityId: string, verb: string, payload: Payload,
                      serverUpdatedAt: int)
    : Result<Effect, ValidationError>
  {
    var (action, deltas) := NormalizePushAction(verb, payload);
    EffectOf(env, entityType, entityId, action, deltas, serverUpdatedAt)
  }

  /** Whenever it is stamped, the projection of this op raises no validation error. */
  ghost predicate Projectable(env: Env, op: NormalizedOp) {
    forall t :: Projection(env, op.entityType, op.entityId, op.action, op.deltas, t).Ok?
  }

  lemma AcceptedIsProjectable(env: Env, raw: RawOp)
    ensures NormalizeOp(env, raw).Ok? ==> Projectable(env, NormalizeOp(env, raw).value)
  {
    if NormalizeOp(env, raw).Ok? {
      var op := NormalizeOp(env, raw).value;
      forall t ensures Projection(env, op.entityType, op.entityId, op.action, op.deltas, t).Ok? {
        PreflightExactIff(env, op.entityType, op.entityId, op.action, op.deltas, t);
      }
    }
  }

  predicate Nameable(raw: RawOp) {
    raw.id.Str? && |raw.id.s| > 0
  }

  /** The verdict on one op; the batch logic does not depend on how it is reached. */
  type Judge = RawOp -> Result<NormalizedOp, string>

  function Accepted(judge: Judge, raws: seq<RawOp>): seq<NormalizedOp> {
    if raws == [] then []
    else
      var r := judge(raws[|raws| - 1]);
      Accepted(judge, raws[..|raws| - 1]) + if r.Ok? then [r.value] else []
  }

  function Refused(judge: Judge, raws: seq<RawOp>): seq<PushOpFailure> {
    if raws == [] then []
    else
      var (last, r) := (raws[|raws| - 1], judge(raws[|raws| - 1]));
      Refused(judge, raws[..|raws| - 1]) + if r.Err? && last.id.Str? then [PushOpFailure(last.id.s, r.error)] else []
  }

  /** A malformed op that cannot even be named back to the client. */
  ghost predicate Malformed(judge: Judge, raws: seq<RawOp>) {
    exists i :: 0 <= i < |raws| && judge(raws[i]).Err? && !Nameable(raws[i])
  }

  /**
   * One bad op does not abort the batch: every op is either accepted, in order, or
   * reported by id; only an op without an id fails the request.
   */
  method SplitBatch(judge: Judge, raws: seq<RawOp>)
    returns (outcome: Result<(seq<NormalizedOp>, seq<PushOpFailure>), string>)
    ensures outcome.Err? <==> Malformed(judge, raws)
    ensures outcome.Ok? ==> outcome.value == (Accepted(judge, raws), Refused(judge, raws))
    ensures outcome.Ok? ==> |outcome.value.0| + |outcome.value.1| == |raws|
  {
    var normalized: seq<NormalizedOp> := [];
    var failed: seq<PushOpFailure> := [];
    for n := 0 to |raws|
      invariant normalized == Accepted(judge, raws[..n]) && failed == Refused(judge, raws[..n])
      invariant |normalized| + |failed| == n
      invariant forall i :: 0 <= i < n && judge(raws[i]).Err? ==> Nameable(raws[i])
    {
      assert raws[..n + 1][..n] == raws[..n];
      var r := judge(raws[n]);
      if r.Ok? {
        normalized := normalized + [r.value];
      } else {
        var id := if raws[n].id.Str? then raws[n].id.s else "";
        if |id| == 0 {
          return Err(r.error);
        }
        failed := failed + [PushOpFailure(id, r.error)];
      }
    }
    assert raws[..|raws|] == raws;
    outcome := Ok((normalized, failed));
  }

  lemma {:induction false} AcceptedHave(judge: Judge, raws: seq<RawOp>, op: NormalizedOp)
    requires op in Accepted(judge, raws)
    ensures exists i :: 0 <= i < |raws| && judge(raws[i]) == Ok(op)
    decreases |raws|
  {
    var prior := raws[..|raws| - 1];
    if op in Accepted(judge, prior) {
      AcceptedHave(judge, prior, op);
      var i :| 0 <= i < |prior| && judge(prior[i]) == Ok(op);
      assert raws[i] == prior[i];
    }
  }

  /** No op that passes validation can be refused by its projection, whenever it is stamped. */
  lemma AcceptedAreProjectable(env: Env, raws: seq<RawOp>)
    ensures forall op :: op in Accepted(raw => NormalizeOp(env, raw), raws) ==> Projectable(env, op)
  {
    var judge := raw => NormalizeOp(env, raw);
    forall op | op in Accepted(judge, raws)
      ensures Projectable(env, op)
    {
      AcceptedHave(judge, raws, op);
      var i :| 0 <= i < |raws| && judge(raws[i]) == Ok(op);
      AcceptedIsProjectable(env, raws[i]);
    }
  }
}

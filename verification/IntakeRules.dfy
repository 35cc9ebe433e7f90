/**
 * Which pushed ops are accepted, what becomes of each field, and what a completed push
 * leaves of them in the log and in the mirror.
 */
module IntakeRules {
  import opened Common
  import opened Deltas
  import opened OpLog
  import opened Intake
  import opened Push
  import VerbTable
  import PushAcks
  import P = Projection

  // ---- trimming ------------------------------------------------------------

  /** White space as ECMAScript counts it. */
  lemma SpacesAre(c: char)
    ensures IsSpace(c) <==>
            c as int in {9, 10, 11, 12, 13, 32, 160, 5760, 8192, 8193, 8194, 8195, 8196, 8197, 8198, 8199, 8200, 8201,
                         8202, 8232, 8233, 8239, 8287, 12288, 65279}
  {
  }

  predicate AllSpace(s: string) {
    forall i :: 0 <= i < |s| ==> IsSpace(s[i])
  }

  lemma SpaceJoins(a: string, b: string)
    requires AllSpace(a) && AllSpace(b)
    ensures AllSpace(a + b)
  {
    hide IsSpace;
  }

  lemma {:induction false} TrimStartIs(s: string) returns (i: nat)
    ensures i <= |s| && TrimStart(s) == s[i..] && AllSpace(s[..i]) && (i < |s| ==> !IsSpace(s[i]))
  {
    hide IsSpace;
    i := 0;
    if s != "" && IsSpace(s[0]) {
      var k := TrimStartIs(s[1..]);
      i := k + 1;
      assert s[..i] == [s[0]] + s[1..][..k] && s[1..][k..] == s[i..];
      SpaceJoins([s[0]], s[1..][..k]);
      hide AllSpace;
    }
  }

  lemma {:induction false} TrimEndIs(s: string) returns (j: nat)
    ensures j <= |s| && TrimEnd(s) == s[..j] && AllSpace(s[j..]) && (j > 0 ==> !IsSpace(s[j - 1]))
    decreases |s|
  {
    hide IsSpace;
    j := |s|;
    if s != "" && IsSpace(s[|s| - 1]) {
      var (init, last) := (s[..|s| - 1], s[|s| - 1]);
      j := TrimEndIs(init);
      assert s[j..] == init[j..] + [last] && init[..j] == s[..j];
      SpaceJoins(init[j..], [last]);
      hide AllSpace;
    }
  }

  /** Trimming cuts white space off both ends, and all of it. */
  lemma TrimIs(s: string) returns (i: nat, j: nat)
    ensures i <= j <= |s| && Trim(s) == s[i..j] && AllSpace(s[..i]) && AllSpace(s[j..])
    ensures Trim(s) != "" ==> !IsSpace(Trim(s)[0]) && !IsSpace(Trim(s)[|Trim(s)| - 1])
  {
    hide IsSpace;
    i := TrimStartIs(s);
    var k := TrimEndIs(s[i..]);
    j := i + k;
    assert s[i..][..k] == s[i..j] && s[i..][k..] == s[j..];
  }

  // ---- one op --------------------------------------------------------------

  /** What the client sent as field deltas, once read: JSON text counts only if it is an object. */
  function PayloadOf(env: Env, raw: FieldDeltas): Payload {
    match raw
    case Missing => NoPayload
    case Object(d) => Fields(d)
    case Encoded(text) => if env.jsonObject(text).Some? then Fields(env.jsonObject(text).value) else NoPayload
    case BareValue(v) => Bare(v)
  }

  /** The four texts of an op are there, and not too long once trimmed. */
  predicate GoodTexts(raw: RawOp) {
    && VerbTable.GoodText(raw.id, 128) && VerbTable.GoodText(raw.entityType, 64)
    && VerbTable.GoodText(raw.entityId, 128) && VerbTable.GoodText(raw.action, 64)
  }

  predicate GoodType(raw: RawOp)
    requires GoodTexts(raw)
  {
    Trim(raw.entityType.s) in {"ledger", "contact", "transaction"}
  }

  predicate GoodVerb(raw: RawOp)
    requires GoodTexts(raw)
  {
    Trim(raw.action.s) in {"CREATE", "UPDATE", "DELETE", "RESTORE", "ACTIVATE_ARCHIVED", "USER_ARCHIVE",
                           "USER_UNARCHIVE", "CARRY_FORWARD"}
  }

  predicate Acceptable(env: Env, raw: RawOp) {
    && GoodTexts(raw) && GoodType(raw) && GoodVerb(raw)
    && VerbTable.GoodPayload(env, Trim(raw.entityType.s), Trim(raw.action.s), PayloadOf(env, raw.fieldDeltas))
    && VerbTable.GoodInstant(env, raw.localTimestamp)
  }

  /** The op as it is accepted, field by field. */
  function OpOf(env: Env, raw: RawOp): NormalizedOp
    requires Acceptable(env, raw)
  {
    NormalizedOp(
      id := Trim(raw.id.s),
      entityType := Trim(raw.entityType.s),
      entityId := Trim(raw.entityId.s),
      action := Trim(raw.action.s),
      loggedAt := env.dateParse(raw.localTimestamp.s).value,
      deltas := PayloadOf(env, raw.fieldDeltas))
  }

  /** The code an op that cannot be accepted is reported with. */
  function CodeOf(raw: RawOp): string {
    if GoodTexts(raw) && GoodType(raw) && !GoodVerb(raw) then "invalid_action" else "invalid_request"
  }

  lemma NamesAre(s: string)
    ensures IsSyncableEntityType(s) <==> s in {"ledger", "contact", "transaction"}
    ensures IsSyncOpAction(s) <==>
            s in {"CREATE", "UPDATE", "DELETE", "RESTORE", "ACTIVATE_ARCHIVED", "USER_ARCHIVE", "USER_UNARCHIVE",
                  "CARRY_FORWARD"}
  {
  }

  /**
   * An op is accepted exactly when its four texts, its type, its verb, its payload and its time are
   * good, and then each of its fields is the trimmed or parsed one of the same name. A refusal
   * names the action only when everything before it was good.
   */
  lemma NormalizeOpIff(env: Env, raw: RawOp)
    ensures Acceptable(env, raw) ==> NormalizeOp(env, raw) == Ok(OpOf(env, raw))
    ensures !Acceptable(env, raw) ==> NormalizeOp(env, raw) == Err(CodeOf(raw))
  {
    TextsCheck(raw);
    VerbTable.InstantChecks(env, raw.localTimestamp, "op.local_timestamp");
    if GoodTexts(raw) {
      NamesAre(Trim(raw.entityType.s));
      NamesAre(Trim(raw.action.s));
      VerbTable.ChecksAsTold(env, Trim(raw.entityType.s), Trim(raw.action.s), PayloadOf(env, raw.fieldDeltas));
    }
    assert ParseFieldDeltas(env, raw.fieldDeltas) == PayloadOf(env, raw.fieldDeltas);
    hide RequireString, ParseInstant, Trim, ValidateEntityDeltas, NormalizePushAction, ParseFieldDeltas, PayloadOf;
    hide VerbTable.GoodText, VerbTable.GoodInstant, VerbTable.GoodPayload, IsSyncableEntityType, IsSyncOpAction;
  }

  lemma TextsCheck(raw: RawOp)
    ensures var (id, entityType, entityId, action) :=
              (RequireString(raw.id, "op.id", 128), RequireString(raw.entityType, "op.entity_type", 64),
               RequireString(raw.entityId, "op.entity_id", 128), RequireString(raw.action, "op.action", 64));
            && (GoodTexts(raw) <==> id.Ok? && entityType.Ok? && entityId.Ok? && action.Ok?)
            && (GoodTexts(raw) ==>
                  id == Ok(Trim(raw.id.s)) && entityType == Ok(Trim(raw.entityType.s))
                  && entityId == Ok(Trim(raw.entityId.s)) && action == Ok(Trim(raw.action.s)))
  {
    VerbTable.TextChecks(raw.id, "op.id", 128);
    VerbTable.TextChecks(raw.entityType, "op.entity_type", 64);
    VerbTable.TextChecks(raw.entityId, "op.entity_id", 128);
    VerbTable.TextChecks(raw.action, "op.action", 64);
    hide RequireString, Trim;
  }

  // ---- a batch -------------------------------------------------------------

  /** The ops of a batch that can be accepted, in their order, as they are accepted. */
  function GoodOps(env: Env, raws: seq<RawOp>): seq<NormalizedOp> {
    if raws == [] then []
    else
      var last := raws[|raws| - 1];
      GoodOps(env, raws[..|raws| - 1]) + if Acceptable(env, last) then [OpOf(env, last)] else []
  }

  /** How many of the first k ops can be accepted: the place of op k among the accepted ones. */
  function Place(env: Env, raws: seq<RawOp>, k: nat): nat
    requires k <= |raws|
  {
    if k == 0 then 0 else Place(env, raws, k - 1) + if Acceptable(env, raws[k - 1]) then 1 else 0
  }

  lemma {:induction false} BatchIsGoodOps(env: Env, raws: seq<RawOp>)
    ensures Accepted(raw => NormalizeOp(env, raw), raws) == GoodOps(env, raws)
    decreases |raws|
  {
    if raws != [] {
      BatchIsGoodOps(env, raws[..|raws| - 1]);
      NormalizeOpIff(env, raws[|raws| - 1]);
      hide NormalizeOp, Acceptable, OpOf;
    }
  }

  /** Each op that can be accepted is found, as itself, at its place among the accepted ones. */
  lemma {:induction false} AcceptedInOrder(env: Env, raws: seq<RawOp>, k: nat)
    requires k <= |raws|
    ensures var batch := Accepted(raw => NormalizeOp(env, raw), raws);
            && Place(env, raws, |raws|) == |batch| && Place(env, raws, k) <= |batch|
            && (k < |raws| && Acceptable(env, raws[k]) ==>
                  Place(env, raws, k) < |batch| && batch[Place(env, raws, k)] == OpOf(env, raws[k]))
    decreases |raws|
  {
    BatchIsGoodOps(env, raws);
    if raws != [] {
      var prior := raws[..|raws| - 1];
      SamePlaces(env, prior, raws, |prior|);
      BatchIsGoodOps(env, prior);
      hide NormalizeOp, Acceptable, OpOf;
      if k < |raws| {
        SamePlaces(env, prior, raws, k);
        AcceptedInOrder(env, prior, k);
      } else {
        AcceptedInOrder(env, prior, |prior|);
      }
    }
  }

  lemma {:induction false} SamePlaces(env: Env, prior: seq<RawOp>, raws: seq<RawOp>, k: nat)
    requires k <= |prior| <= |raws| && prior == raws[..|prior|]
    ensures Place(env, prior, k) == Place(env, raws, k)
  {
    hide Acceptable;
    if k > 0 {
      SamePlaces(env, prior, raws, k - 1);
      assert prior[k - 1] == raws[k - 1];
    }
  }

  /** The reports on the ops of a batch that cannot be accepted, in their order. */
  function BadOps(env: Env, raws: seq<RawOp>): seq<PushOpFailure> {
    if raws == [] then []
    else
      var last := raws[|raws| - 1];
      BadOps(env, raws[..|raws| - 1])
      + if !Acceptable(env, last) && last.id.Str? then [PushOpFailure(last.id.s, CodeOf(last))] else []
  }

  lemma {:induction false} RefusalsAreBadOps(env: Env, raws: seq<RawOp>)
    ensures Refused(raw => NormalizeOp(env, raw), raws) == BadOps(env, raws)
    decreases |raws|
  {
    if raws != [] {
      RefusalsAreBadOps(env, raws[..|raws| - 1]);
      NormalizeOpIff(env, raws[|raws| - 1]);
      hide NormalizeOp, Acceptable, OpOf, GoodTexts, GoodType, GoodVerb;
    }
  }

  /** Every op that cannot be accepted can be named to the client. */
  ghost predicate AllNamed(env: Env, raws: seq<RawOp>) {
    forall i :: 0 <= i < |raws| && !Acceptable(env, raws[i]) ==> raws[i].id.Str?
  }

  lemma WellFormedIsNamed(env: Env, raws: seq<RawOp>)
    requires !Malformed(raw => NormalizeOp(env, raw), raws)
    ensures AllNamed(env, raws)
  {
    forall i | 0 <= i < |raws| && !Acceptable(env, raws[i]) ensures raws[i].id.Str? {
      NormalizeOpIff(env, raws[i]);
    }
    hide NormalizeOp, Acceptable;
  }

  lemma {:induction false} BadOpsInOrder(env: Env, raws: seq<RawOp>, k: nat)
    requires k <= |raws| && AllNamed(env, raws)
    ensures var failed := BadOps(env, raws);
            && |failed| == |raws| - Place(env, raws, |raws|) && Place(env, raws, |raws|) <= |raws|
            && Place(env, raws, k) <= k && k - Place(env, raws, k) <= |failed|
            && (k < |raws| && !Acceptable(env, raws[k]) ==>
                  && k - Place(env, raws, k) < |failed|
                  && failed[k - Place(env, raws, k)] == PushOpFailure(raws[k].id.s, CodeOf(raws[k])))
    decreases |raws|
  {
    hide Acceptable, CodeOf;
    if raws != [] {
      var prior := raws[..|raws| - 1];
      assert forall i :: 0 <= i < |prior| ==> prior[i] == raws[i];
      SamePlaces(env, prior, raws, |prior|);
      if k < |raws| {
        SamePlaces(env, prior, raws, k);
        BadOpsInOrder(env, prior, k);
      } else {
        BadOpsInOrder(env, prior, |prior|);
      }
    }
  }

  /** Each op that cannot be accepted is reported at its place among these, by the id it was sent with. */
  lemma RefusedInOrder(env: Env, raws: seq<RawOp>, k: nat)
    requires k < |raws| && !Malformed(raw => NormalizeOp(env, raw), raws) && !Acceptable(env, raws[k])
    ensures var (failed, place) := (Refused(raw => NormalizeOp(env, raw), raws), k - Place(env, raws, k));
            raws[k].id.Str? && 0 <= place < |failed| && failed[place] == PushOpFailure(raws[k].id.s, CodeOf(raws[k]))
  {
    RefusalsAreBadOps(env, raws);
    WellFormedIsNamed(env, raws);
    BadOpsInOrder(env, raws, k);
    hide Refused, BadOps, Acceptable, CodeOf, Place, Malformed, NormalizeOp;
  }

  // ---- the log after a push ------------------------------------------------

  /** A log row that holds this op, field by field, under this device. */
  predicate Holds(row: LogRow, op: NormalizedOp, deviceId: string) {
    && row.id == op.id && row.entityType == op.entityType && row.entityId == op.entityId && row.action == op.action
    && row.payload == op.deltas && row.loggedAt == op.loggedAt && row.deviceId == deviceId
    && row.serverUpdatedAt.Some?
  }

  predicate HeldBySome(row: LogRow, ops: seq<NormalizedOp>, deviceId: string) {
    exists i :: 0 <= i < |ops| && Holds(row, ops[i], deviceId)
  }

  lemma HeldByMore(row: LogRow, ops: seq<NormalizedOp>, more: seq<NormalizedOp>, deviceId: string)
    requires HeldBySome(row, ops, deviceId) && ops <= more
    ensures HeldBySome(row, more, deviceId)
  {
    var i :| 0 <= i < |ops| && Holds(row, ops[i], deviceId);
    assert more[i] == ops[i];
  }

  /** An append adds a row that holds the op, or the op's id is in the log already and nothing is added. */
  lemma AppendHolds(log: Log, op: NormalizedOp, deviceId: string, now: int)
    requires log.Valid()
    ensures var (log', a) := Append(log, op, deviceId, now);
            && log'.Valid() && log.rows <= log'.rows && PushAcks.LoggedAt(log'.rows, op.id, a.opSeq)
            && (log'.rows == log.rows
                || (|log'.rows| == |log.rows| + 1 && Holds(log'.rows[|log.rows|], op, deviceId)
                    && log'.rows[|log.rows|].serverUpdatedAt == Some(now)))
  {
    AppendKeepsValid(log, op, deviceId, now);
    PushAcks.AppendEffect(log, op, deviceId, now);
  }

  lemma {:induction false} NewRowsHold(effects: Effects, clock: nat -> int, p: Progress, ops: seq<NormalizedOp>,
                                       deviceId: string)
    requires p.log.Valid()
    ensures var q := PushMany(effects, clock, p, ops, deviceId);
            && q.log.Valid() && p.log.rows <= q.log.rows
            && forall j :: |p.log.rows| <= j < |q.log.rows| ==> HeldBySome(q.log.rows[j], ops, deviceId)
    decreases |ops|
  {
    if ops != [] {
      var (prior, op) := (ops[..|ops| - 1], ops[|ops| - 1]);
      NewRowsHold(effects, clock, p, prior, deviceId);
      var mid := PushMany(effects, clock, p, prior, deviceId);
      var q := PushMany(effects, clock, p, ops, deviceId);
      AppendHolds(mid.log, op, deviceId, clock(mid.log.nextSeq));
      hide Append, Holds, P.Project, HeldBySome;
      forall j | |p.log.rows| <= j < |q.log.rows| ensures HeldBySome(q.log.rows[j], ops, deviceId) {
        if j < |mid.log.rows| {
          HeldByMore(mid.log.rows[j], prior, ops, deviceId);
        } else {
          HeldByLast(q.log.rows[j], ops, deviceId);
        }
      }
    }
  }

  lemma HeldByLast(row: LogRow, ops: seq<NormalizedOp>, deviceId: string)
    requires ops != [] && Holds(row, ops[|ops| - 1], deviceId)
    ensures HeldBySome(row, ops, deviceId)
  {
  }

  // ---- the mirror after a push ---------------------------------------------

  /** `told` is what the op's verb does by the tables, with the stamp and number its log row has. */
  ghost predicate AsLogged(env: Env, told: P.SeqOp, op: NormalizedOp, rows: seq<LogRow>) {
    exists i :: 0 <= i < |rows| && rows[i].id == op.id && rows[i].serverUpdatedAt.Some?
      && told == P.SeqOp(VerbTable.Told(env, op.entityType, op.entityId, op.action, op.deltas,
                                        rows[i].serverUpdatedAt.value), rows[i].opSeq)
  }

  lemma AsLoggedStays(env: Env, told: P.SeqOp, op: NormalizedOp, rows: seq<LogRow>, more: seq<LogRow>)
    requires AsLogged(env, told, op, rows) && rows <= more
    ensures AsLogged(env, told, op, more)
  {
    hide VerbTable.Told;
    var i :| 0 <= i < |rows| && rows[i].id == op.id && rows[i].serverUpdatedAt.Some?
      && told == P.SeqOp(VerbTable.Told(env, op.entityType, op.entityId, op.action, op.deltas,
                                        rows[i].serverUpdatedAt.value), rows[i].opSeq);
    assert more[i] == rows[i];
  }

  predicate GoodOp(env: Env, op: NormalizedOp) {
    VerbTable.GoodPayload(env, op.entityType, op.action, op.deltas)
  }

  /** Rows project by the rule of their verbs. */
  ghost predicate ByVerbs(env: Env, effects: Effects) {
    forall row :: effects(row) == RowEffect(env, row)
  }

  lemma PushOneTells(env: Env, effects: Effects, clock: nat -> int, p: Progress, op: NormalizedOp, deviceId: string)
    returns (told: P.SeqOp)
    requires p.log.Valid() && GoodOp(env, op) && ByVerbs(env, effects)
    ensures var q := PushOne(effects, clock, p, op, deviceId);
            && q.mirror == P.Project(p.mirror, told).0 && AsLogged(env, told, op, q.log.rows)
            && q.log.Valid() && p.log.rows <= q.log.rows
  {
    var now := clock(p.log.nextSeq);
    AppendHolds(p.log, op, deviceId, now);
    var (log', a) := Append(p.log, op, deviceId, now);
    var i := Find(p.log.rows, op.id);
    assert i < |log'.rows| && log'.rows[i].id == op.id && log'.rows[i].opSeq == a.opSeq
           && log'.rows[i].serverUpdatedAt == a.serverUpdatedAt && a.serverUpdatedAt.Some?;
    VerbTable.VerbsAsTold(env, op.entityType, op.entityId, op.action, op.deltas, a.serverUpdatedAt.value);
    hide Append, Find, VerbTable.Told, VerbTable.GoodPayload, Intake.Projection, P.Project, Holds;
    told := P.SeqOp(VerbTable.Told(env, op.entityType, op.entityId, op.action, op.deltas, a.serverUpdatedAt.value),
                    a.opSeq);
  }

  /** Each of these is what the op in its place does by the tables, as it is logged. */
  ghost predicate AllAsLogged(env: Env, told: seq<P.SeqOp>, ops: seq<NormalizedOp>, rows: seq<LogRow>) {
    |told| == |ops| && forall k :: 0 <= k < |ops| ==> AsLogged(env, told[k], ops[k], rows)
  }

  lemma OneMoreLogged(env: Env, told: seq<P.SeqOp>, ops: seq<NormalizedOp>, rows: seq<LogRow>, last: P.SeqOp,
                      op: NormalizedOp, more: seq<LogRow>)
    requires AllAsLogged(env, told, ops, rows) && rows <= more && AsLogged(env, last, op, more)
    ensures AllAsLogged(env, told + [last], ops + [op], more)
  {
    forall k | 0 <= k < |ops| ensures AsLogged(env, told[k], ops[k], more) {
      AsLoggedStays(env, told[k], ops[k], rows, more);
    }
    hide AsLogged;
  }

  /** After a batch the mirror is the projection of what its verbs do by the tables, in order. */
  lemma {:induction false} MirrorAsTold(env: Env, effects: Effects, clock: nat -> int, p: Progress,
                                        ops: seq<NormalizedOp>, deviceId: string)
    returns (told: seq<P.SeqOp>)
    requires p.log.Valid() && ByVerbs(env, effects) && forall op <- ops :: GoodOp(env, op)
    ensures var q := PushMany(effects, clock, p, ops, deviceId);
            && AllAsLogged(env, told, ops, q.log.rows) && q.mirror == P.ProjectAll(p.mirror, told) && q.log.Valid()
    decreases |ops|
  {
    hide PushOne, P.Project, AllAsLogged, GoodOp, ByVerbs;
    if ops == [] {
      told := [];
      assert AllAsLogged(env, told, ops, p.log.rows) by { NoneLogged(env, p.log.rows); }
    } else {
      var (prior, op) := (ops[..|ops| - 1], ops[|ops| - 1]);
      var before := MirrorAsTold(env, effects, clock, p, prior, deviceId);
      var mid := PushMany(effects, clock, p, prior, deviceId);
      var last := PushOneTells(env, effects, clock, mid, op, deviceId);
      told := before + [last];
      assert told[..|told| - 1] == before && ops == prior + [op];
      OneMoreLogged(env, before, prior, mid.log.rows, last, op, PushOne(effects, clock, mid, op, deviceId).log.rows);
    }
  }

  lemma NoneLogged(env: Env, rows: seq<LogRow>)
    ensures AllAsLogged(env, [], [], rows)
  {
  }

  // ---- a completed request -------------------------------------------------

  /**
   * What a completed push leaves of its raw ops. Every new log row holds one that was acceptable,
   * field by field; every acceptable one is in the log and answered by its id at its place; and
   * the mirror is the projection, in order, of what their verbs do by the tables.
   */
  ghost predicate LeftBy(env: Env, before: Progress, after: Progress, raws: seq<RawOp>, deviceId: string) {
    && before.log.rows <= after.log.rows
    && (forall j :: |before.log.rows| <= j < |after.log.rows| ==>
          HeldBySome(after.log.rows[j], GoodOps(env, raws), deviceId))
    && |after.results| == |GoodOps(env, raws)|
    && (forall k :: 0 <= k < |raws| && Acceptable(env, raws[k]) ==>
          && Place(env, raws, k) < |after.results|
          && after.results[Place(env, raws, k)].id == Trim(raws[k].id.s)
          && PushAcks.LoggedAt(after.log.rows, Trim(raws[k].id.s), after.results[Place(env, raws, k)].opSeq))
    && exists told :: AllAsLogged(env, told, GoodOps(env, raws), after.log.rows)
                      && after.mirror == P.ProjectAll(before.mirror, told)
  }

  lemma {:induction false} GoodOpsAreGood(env: Env, raws: seq<RawOp>)
    ensures forall op <- GoodOps(env, raws) :: GoodOp(env, op)
    decreases |raws|
  {
    if raws != [] {
      GoodOpsAreGood(env, raws[..|raws| - 1]);
      hide VerbTable.GoodPayload, VerbTable.GoodText, VerbTable.GoodInstant, Trim;
    }
  }

  lemma AcksAt(env: Env, before: Progress, after: Progress, raws: seq<RawOp>, k: nat)
    requires before.results == [] && PushAcks.Acked(before, after, GoodOps(env, raws))
    requires k < |raws| && Acceptable(env, raws[k])
    ensures var place := Place(env, raws, k);
            && place < |after.results| && after.results[place].id == Trim(raws[k].id.s)
            && PushAcks.LoggedAt(after.log.rows, Trim(raws[k].id.s), after.results[place].opSeq)
  {
    AcceptedInOrder(env, raws, k);
    BatchIsGoodOps(env, raws);
    var place := Place(env, raws, k);
    hide Acceptable, GoodOps, Place, NormalizeOp, PushAcks.LoggedAt, PushAcks.Logged, PushAcks.Carried, Trim;
    assert PushAcks.GoodAck(before.log.rows, after.log.rows, GoodOps(env, raws), place, after.results[place]);
  }

  lemma PushLeaves(env: Env, clock: nat -> int, log: Log, mirror: P.Mirror, raws: seq<RawOp>, deviceId: string)
    requires log.Valid()
    ensures var effects := row => RowEffect(env, row);
            var batch := Accepted(raw => NormalizeOp(env, raw), raws);
            var before := Progress(log, mirror, 0, []);
            LeftBy(env, before, Attempt(effects, clock, before, batch, deviceId, Completes), raws, deviceId)
  {
    var effects := row => RowEffect(env, row);
    var before := Progress(log, mirror, 0, []);
    var batch := GoodOps(env, raws);
    BatchIsGoodOps(env, raws);
    GoodOpsAreGood(env, raws);
    assert ByVerbs(env, effects);
    var after := PushMany(effects, clock, before, batch, deviceId);
    var told := MirrorAsTold(env, effects, clock, before, batch, deviceId);
    NewRowsHold(effects, clock, before, batch, deviceId);
    PushAcks.EveryOpIsAcked(effects, clock, before, batch, deviceId);
    forall k | 0 <= k < |raws| && Acceptable(env, raws[k])
      ensures var place := Place(env, raws, k);
              && place < |after.results| && after.results[place].id == Trim(raws[k].id.s)
              && PushAcks.LoggedAt(after.log.rows, Trim(raws[k].id.s), after.results[place].opSeq)
    {
      AcksAt(env, before, after, raws, k);
    }
    hide PushMany, AllAsLogged, HeldBySome, GoodOps, NormalizeOp, Acceptable, Place, PushAcks.LoggedAt, ByVerbs, Trim;
    hide PushAcks.GoodAck, PushAcks.Logged, PushAcks.Carried;
  }
}

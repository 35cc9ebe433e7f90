/** push-sync-ops: append, project, account; and what a crashed push leaves behind. */
module Push {
  import opened Common
  import opened Deltas
  import opened OpLog
  import opened Projection
  import Intake

  const SYNC_EVENT_MONTHLY_CAP: nat := 50_000

  /** What projecting a log row does. A validation error is acked and leaves the mirror alone. */
  function RowEffect(env: Env, row: LogRow): Effect {
    match Intake.Projection(env, row.entityType, row.entityId, row.action, row.payload,
                            if row.serverUpdatedAt.Some? then row.serverUpdatedAt.value else 0)
    case Ok(e) => e
    case Err(_) => NoEffect(SkippedMissing)
  }

  /** How a row projects; the batch logic below holds for any such rule. */
  type Effects = LogRow -> Effect

  function SeqOps(effects: Effects, rows: seq<LogRow>): (ops: seq<SeqOp>)
    ensures |ops| == |rows|
    ensures forall i :: 0 <= i < |rows| ==> ops[i] == SeqOp(effects(rows[i]), rows[i].opSeq)
  {
    seq(|rows|, i requires 0 <= i < |rows| => SeqOp(effects(rows[i]), rows[i].opSeq))
  }

  /** consume_sync_usage: a negative count releases, clamped at zero. */
  function ConsumeSyncUsage(count: nat, events: int, cap: nat): (r: (bool, nat)) {
    if events > 0 && count + events > cap then (false, count) else (true, Max(0, count + events))
  }

  datatype PushOpResult = PushOpResult(id: string, opSeq: nat, status: AppendStatus)

  /** The state the batch loop works on. `clock(n)` is the server time when number n is drawn. */
  datatype Progress = Progress(log: Log, mirror: Mirror, consumed: nat, results: seq<PushOpResult>)

  function AppendOne(clock: nat -> int, p: Progress, op: NormalizedOp, deviceId: string): (Progress, AppendedOp) {
    var (log', appended) := Append(p.log, op, deviceId, clock(p.log.nextSeq));
    (p.(log := log'), appended)
  }

  function StampedRow(op: NormalizedOp, deviceId: string, a: AppendedOp): LogRow {
    LogRow(op.id, op.entityType, op.entityId, op.action, op.deltas, deviceId, op.loggedAt, a.serverUpdatedAt, a.opSeq)
  }

  function PushOne(effects: Effects, clock: nat -> int, p: Progress, op: NormalizedOp, deviceId: string): Progress {
    var (p1, a) := AppendOne(clock, p, op, deviceId);
    Progress(p1.log,
             Project(p1.mirror, SeqOp(effects(StampedRow(op, deviceId, a)), a.opSeq)).0,
             if a.status == AppliedNow then p1.consumed + 1 else p1.consumed,
             p1.results + [PushOpResult(op.id, a.opSeq, a.status)])
  }

  function PushMany(effects: Effects, clock: nat -> int, p: Progress, ops: seq<NormalizedOp>,
                    deviceId: string): Progress {
    if ops == [] then p
    else PushOne(effects, clock, PushMany(effects, clock, p, ops[..|ops| - 1], deviceId), ops[|ops| - 1], deviceId)
  }

  /**
   * Where, if anywhere, the database fails the batch. An append that takes effect but reports an
   * error is a failure to project; a projection that does so leaves its op logged, projected and
   * not counted.
   */
  datatype Fault = Completes | FailsAtAppend(index: nat) | FailsAtProject(index: nat) | ErrsAfterProject(index: nat)

  predicate Hits(fault: Fault, n: nat) {
    !fault.Completes? && fault.index < n
  }

  function Attempt(effects: Effects, clock: nat -> int, p: Progress, batch: seq<NormalizedOp>, deviceId: string,
                   fault: Fault): Progress {
    if !Hits(fault, |batch|) then PushMany(effects, clock, p, batch, deviceId)
    else
      var done := PushMany(effects, clock, p, batch[..fault.index], deviceId);
      Struck(effects, clock, done, batch[fault.index], deviceId, fault)
  }

  /** What is done of the op that the fault strikes: nothing, its append, or all but its answer and charge. */
  function Struck(effects: Effects, clock: nat -> int, p: Progress, op: NormalizedOp, deviceId: string,
                  fault: Fault): Progress {
    if fault.FailsAtAppend? then p
    else if fault.FailsAtProject? then AppendOne(clock, p, op, deviceId).0
    else PushOne(effects, clock, p, op, deviceId).(consumed := p.consumed, results := p.results)
  }

  /** An attempt is the ops before the fault, and what is done of the op it strikes. */
  lemma AttemptIs(effects: Effects, clock: nat -> int, p: Progress, batch: seq<NormalizedOp>, deviceId: string,
                  fault: Fault)
    ensures !Hits(fault, |batch|) ==>
              Attempt(effects, clock, p, batch, deviceId, fault) == PushMany(effects, clock, p, batch, deviceId)
    ensures Hits(fault, |batch|) ==>
              var done := PushMany(effects, clock, p, batch[..fault.index], deviceId);
              Attempt(effects, clock, p, batch, deviceId, fault)
              == Struck(effects, clock, done, batch[fault.index], deviceId, fault)
  {
  }

  lemma NothingPushed(effects: Effects, clock: nat -> int, p: Progress, batch: seq<NormalizedOp>, deviceId: string)
    ensures PushMany(effects, clock, p, batch[..0], deviceId) == p
  {
  }

  lemma PushedOneMore(effects: Effects, clock: nat -> int, p: Progress, batch: seq<NormalizedOp>, deviceId: string,
                      n: nat)
    requires n < |batch|
    ensures PushMany(effects, clock, p, batch[..n + 1], deviceId)
         == PushOne(effects, clock, PushMany(effects, clock, p, batch[..n], deviceId), batch[n], deviceId)
  {
    hide PushOne;
    assert batch[..n + 1][..n] == batch[..n];
  }

  const MAX_OPS_PER_PUSH: nat := 500
  const DEVICE_ID_MAX_LENGTH: nat := 128

  /** The caller's workspace role and the two fields of the body. */
  datatype PushRequest = PushRequest(role: string, deviceId: Json, ops: seq<Intake.RawOp>)

  predicate IsWritableRole(role: string) {
    role == "owner" || role == "editor"
  }

  predicate Admitted(q: PushRequest) {
    IsWritableRole(q.role) && RequireString(q.deviceId, "device_id", DEVICE_ID_MAX_LENGTH).Ok?
      && |q.ops| <= MAX_OPS_PER_PUSH
  }

  /** What a refused request leaves charged: its reservation, if that was made and misreported. */
  function Stranded(reserve: Outcome, usage: nat, events: nat): nat {
    if reserve.LandsButErrs? && usage + events <= SYNC_EVENT_MONTHLY_CAP then events else 0
  }

  /** The server as the handler changes it, statement by statement. */
  class SyncServer {
    var log: Log
    var mirror: Mirror
    var usage: nat

    constructor (log: Log, mirror: Mirror, usage: nat)
      ensures this.log == log && this.mirror == mirror && this.usage == usage
    {
      this.log, this.mirror, this.usage := log, mirror, usage;
    }

    /** Granted whenever the month has room for all of them, and then counted in full; otherwise nothing is. */
    method ReserveSyncUsage(events: nat) returns (allowed: bool)
      modifies this`usage
      ensures allowed <==> events == 0 || old(usage) + events <= 50_000
      ensures usage == old(usage) + if allowed then events else 0
    {
      var (ok, count) := ConsumeSyncUsage(usage, events, SYNC_EVENT_MONTHLY_CAP);
      allowed, usage := ok, count;
    }

    method ReleaseSyncUsage(events: int)
      modifies this`usage
      ensures usage == if events <= 0 then old(usage) else Max(0, old(usage) - events)
    {
      if events <= 0 {
        return;
      }
      usage := ConsumeSyncUsage(usage, -events, SYNC_EVENT_MONTHLY_CAP).1;
    }

    method AppendAuditOp(clock: nat -> int, op: NormalizedOp, deviceId: string) returns (appended: AppendedOp)
      modifies this`log
      ensures (log, appended) == Append(old(log), op, deviceId, clock(old(log).nextSeq))
    {
      var (log', a) := Append(log, op, deviceId, clock(log.nextSeq));
      log, appended := log', a;
    }

    method ApplyEntityOp(effect: Effect, opSeq: nat) returns (outcome: EntityApplyOutcome)
      modifies this`mirror
      ensures (mirror, outcome) == Project(old(mirror), SeqOp(effect, opSeq))
    {
      var (mirror', o) := Project(mirror, SeqOp(effect, opSeq));
      mirror, outcome := mirror', o;
    }

    /** The batch loop. The log is written before the mirror; a fault ends the batch where it strikes. */
    method ProjectBatch(effects: Effects, clock: nat -> int, batch: seq<NormalizedOp>, deviceId: string, fault: Fault)
      returns (consumed: nat, results: seq<PushOpResult>)
      modifies this`log, this`mirror
      ensures Progress(log, mirror, consumed, results)
           == Attempt(effects, clock, Progress(old(log), old(mirror), 0, []), batch, deviceId, fault)
      ensures consumed <= |batch|
    {
      hide Append, Project, Attempt, PushMany, StampedRow;
      consumed, results := 0, [];
      ghost var start := Progress(log, mirror, 0, []);
      AttemptIs(effects, clock, start, batch, deviceId, fault);
      NothingPushed(effects, clock, start, batch, deviceId);
      var n := 0;
      while n < |batch|
        invariant 0 <= n <= |batch| && consumed <= n && !Hits(fault, n)
        invariant Progress(log, mirror, consumed, results) == PushMany(effects, clock, start, batch[..n], deviceId)
      {
        PushedOneMore(effects, clock, start, batch, deviceId, n);
        var op := batch[n];
        if fault == FailsAtAppend(n) {
          return;
        }
        var appended := AppendAuditOp(clock, op, deviceId);
        if fault == FailsAtProject(n) {
          return;
        }
        var _ := ApplyEntityOp(effects(StampedRow(op, deviceId, appended)), appended.opSeq);
        if fault == ErrsAfterProject(n) {
          return;
        }
        if appended.status == AppliedNow {
          consumed := consumed + 1;
        }
        results := results + [PushOpResult(op.id, appended.opSeq, appended.status)];
        n := n + 1;
      }
      assert batch[..n] == batch;
    }

    /**
     * The handler after validation: reserve, push, release. Only what was both newly
     * appended and projected stays charged, unless reserving, projecting or releasing was
     * misreported.
     */
    method PushSyncOps(effects: Effects, clock: nat -> int, batch: seq<NormalizedOp>, deviceId: string,
                       reserve: Outcome, release: Outcome, fault: Fault)
      returns (accepted: bool, results: seq<PushOpResult>)
      modifies this
      ensures accepted <==> batch == [] || (reserve.Succeeds? && old(usage) + |batch| <= SYNC_EVENT_MONTHLY_CAP)
      ensures !accepted ==>
                && log == old(log) && mirror == old(mirror)
                && usage == old(usage) + Stranded(reserve, old(usage), |batch|)
      ensures accepted ==>
                var p := Attempt(effects, clock, Progress(old(log), old(mirror), 0, []), batch, deviceId, fault);
                && log == p.log && mirror == p.mirror && results == p.results
                && p.consumed <= |batch|
                && usage == old(usage) + if Lands(release) then p.consumed else |batch|
    {
      hide Attempt;
      accepted, results := true, [];
      if |batch| > 0 {
        var allowed := false;
        if Lands(reserve) {
          allowed := ReserveSyncUsage(|batch|);
        }
        if !reserve.Succeeds? || !allowed {
          accepted := false;
          return;
        }
      }
      var consumed: nat;
      consumed, results := ProjectBatch(effects, clock, batch, deviceId, fault);
      if Lands(release) {
        ReleaseSyncUsage(|batch| - consumed);
      }
    }

    /**
     * The whole request: a caller who may not write, a batch of more than 500 ops, a
     * device that cannot be registered and a malformed batch change nothing here and
     * charge nothing; validated ops are pushed with the projection rule of their verbs.
     */
    method Handle(env: Env, clock: nat -> int, q: PushRequest, register: Outcome, reserve: Outcome, release: Outcome,
                  fault: Fault)
      returns (response: Result<(seq<PushOpResult>, seq<Intake.PushOpFailure>), string>)
      modifies this
      ensures q.role !in {"owner", "editor"} ==> response == Err("forbidden")
      ensures q.role in {"owner", "editor"} && (RequireString(q.deviceId, "device_id", 128).Err? || |q.ops| > 500) ==>
                response == Err("invalid_request")
      ensures Admitted(q) && !register.Succeeds? ==> response == Err("internal_error")
      ensures var judge := raw => Intake.NormalizeOp(env, raw);
              var batch := Intake.Accepted(judge, q.ops);
              var fits := old(usage) + |batch| <= SYNC_EVENT_MONTHLY_CAP;
              if !Admitted(q) || !register.Succeeds? || Intake.Malformed(judge, q.ops)
              then response.Err? && log == old(log) && mirror == old(mirror) && usage == old(usage)
              else if batch != [] && !(reserve.Succeeds? && fits)
              then
                && response
                   == Err(if reserve.Succeeds? then "sync_event_cap_exceeded" else "usage_counter_write_failed")
                && log == old(log) && mirror == old(mirror)
                && usage == old(usage) + Stranded(reserve, old(usage), |batch|)
              else
                var deviceId := RequireString(q.deviceId, "device_id", DEVICE_ID_MAX_LENGTH).value;
                var p := Attempt(row => RowEffect(env, row), clock, Progress(old(log), old(mirror), 0, []), batch,
                                 deviceId, fault);
                && log == p.log && mirror == p.mirror
                  && usage == old(usage) + (if Lands(release) then p.consumed else |batch|)
                && response == (if Hits(fault, |batch|) then Err("internal_error")
                                else Ok((p.results, Intake.Refused(judge, q.ops))))
    {
      hide RequireString, Intake.NormalizeOp, RowEffect;
      if !IsWritableRole(q.role) {
        return Err("forbidden");
      }
      var device := RequireString(q.deviceId, "device_id", DEVICE_ID_MAX_LENGTH);
      if device.Err? || |q.ops| > MAX_OPS_PER_PUSH {
        return Err("invalid_request");
      }
      if !register.Succeeds? {
        return Err("internal_error");
      }
      var judge := raw => Intake.NormalizeOp(env, raw);
      var intake := Intake.SplitBatch(judge, q.ops);
      if intake.Err? {
        return Err(intake.error);
      }
      var (batch, failed) := intake.value;
      var accepted, results :=
          PushSyncOps(row => RowEffect(env, row), clock, batch, device.value, reserve, release, fault);
      if !accepted {
        return Err(if reserve.Succeeds? then "sync_event_cap_exceeded" else "usage_counter_write_failed");
      }
      response := if Hits(fault, |batch|) then Err("internal_error") else Ok((results, failed));
    }
  }
}

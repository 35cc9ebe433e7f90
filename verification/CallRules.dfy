/**
 * What plan and run rows answer: the gates in their order, the three answers of a plan,
 * and the plan every started call goes back to.
 */
module CallRules {
  import opened Common
  import opened RegionGate
  import opened Calls
  import opened CallSafety
  import opened CallHonour
  import CallServer

  // ---- the gates -----------------------------------------------------------

  /** An international number: a plus, a digit from 1 to 9, and 7 to 14 digits more. */
  predicate IsNumber(phone: string) {
    && 9 <= |phone| <= 16 && phone[0] == '+' && phone[1] in {'1', '2', '3', '4', '5', '6', '7', '8', '9'}
    && forall i :: 2 <= i < |phone| ==> phone[i] in {'0', '1', '2', '3', '4', '5', '6', '7', '8', '9'}
  }

  /** The first gate that stops a number, in the order of the gates. */
  ghost function FirstReason(phone: string, region: string, doNotCall: bool, s: Settings): Option<Reason> {
    if !IsNumber(phone) then Some(InvalidPhone)
    else if !Servable(phone, region, s.allowlistRegion) then Some(UnsupportedRegion)
    else if doNotCall then Some(Dnc)
    else if phone !in s.allowlist then Some(NotAllowlisted) else None
  }

  lemma GateIs(phone: string, region: string, doNotCall: bool, s: Settings)
    ensures Gate(phone, region, doNotCall, s) == FirstReason(phone, region, doNotCall, s)
  {
    RegionAllowedIff(phone, region, s.allowlistRegion);
    assert IsValidE164(phone) <==> IsNumber(phone) by {
      hide Servable, RegionAllowed;
    }
    hide IsValidE164, IsNumber, Servable, RegionAllowed;
  }

  // ---- what a plan row answers ---------------------------------------------

  /** What a plan row stores: the recipient as it was checked, under the token handed out. */
  predicate Stores(snap: PlanSnapshot, r: CallRecipient, trigger: string, token: string) {
    && snap.token == token && snap.phone == r.phone && snap.region == r.region && snap.locale == r.locale
    && snap.task == r.task && snap.doNotCall == r.doNotCall && snap.trigger == trigger
  }

  /** Only this pair's plan may differ. */
  ghost predicate OtherPlansStay(st: Store, st': Store, pair: Pair) {
    && (forall p :: p != pair ==> Lookup(st'.snapshots, p) == Lookup(st.snapshots, p))
    && st'.runIds == st.runIds && st'.retryRunIds == st.retryRunIds
    && st'.runMasks == st.runMasks && st'.runContexts == st.runContexts
  }

  /**
   * A plan row hands out its token, and stores the recipient under it, exactly when the gates
   * pass, it is no dry run and dialling is allowed; it is answered "dry run", and changes
   * nothing at all, exactly when the gates pass and it is one; otherwise it is rejected with
   * the first reason, and the pair has no plan any more.
   */
  lemma PlanRowIs(st: Store, batchId: string, r: CallRecipient, s: Settings, dryRun: bool, trigger: string,
                  token: string)
    ensures var (st', row) := PlanRow(st, batchId, r, s, dryRun, trigger, token);
            var (pair, reason) := (Pair(batchId, r.contactId), FirstReason(r.phone, r.region, r.doNotCall, s));
            && OtherPlansStay(st, st', pair)
            && (row.Planned? <==> reason.None? && !dryRun && s.allowDial)
            && (row.Planned? ==>
                  row.confirmHandle == token && pair in st'.snapshots
                  && Stores(st'.snapshots[pair], r, trigger, token))
            && (row.DryRun? <==> reason.None? && dryRun)
            && (row.DryRun? ==> st' == st)
            && (row.Rejected? ==>
                  pair !in st'.snapshots && row.reason == if reason.Some? then reason.value else KillSwitch)
  {
    GateIs(r.phone, r.region, r.doNotCall, s);
    hide Gate, FirstReason;
  }

  // ---- the plan a call goes back to ----------------------------------------

  /** What the trace says of a plan is what the plan rules answer. */
  ghost predicate AnsweredRight(m: Mark)
    requires m.PlanAnswered?
  {
    var reason := FirstReason(m.recipient.phone, m.recipient.region, m.recipient.doNotCall, m.settings);
    && (m.answer.Planned? <==> reason.None? && !m.dryRun && m.settings.allowDial)
    && (m.answer.DryRun? <==> reason.None? && m.dryRun)
    && (m.answer.Rejected? ==> m.answer.reason == if reason.Some? then reason.value else KillSwitch)
  }

  ghost predicate PlansRight(h: seq<Mark>) {
    forall k :: 0 <= k < |h| && h[k].PlanAnswered? ==> AnsweredRight(h[k])
  }

  lemma StepKeepsPlansRight(s: System, e: Event)
    requires PlansRight(s.history)
    ensures PlansRight(Step(s, e).history)
  {
    hide FirstReason, PlanRow, BeginRun, FinishRun, IdempotencyKey;
    if e.Plan? {
      PlanRowIs(s.store, e.batchId, e.recipient, e.settings, e.dryRun, e.trigger, e.token);
    }
  }

  lemma {:induction false} RunKeepsPlansRight(s: System, events: seq<Event>)
    requires PlansRight(s.history)
    ensures PlansRight(Run(s, events).history)
    decreases |events|
  {
    hide Step, PlansRight;
    if events != [] {
      StepKeepsPlansRight(s, events[0]);
      RunKeepsPlansRight(Step(s, events[0]), events[1..]);
    }
  }

  /** Mark j is the plan that handed out this snapshot, and nothing after it ended it. */
  ghost predicate PlannedAt(h: seq<Mark>, j: nat, pair: Pair, snap: PlanSnapshot) {
    && j < |h| && h[j].PlanAnswered? && Pair(h[j].batchId, h[j].recipient.contactId) == pair
    && h[j].answer == Planned(snap.token) && Stores(snap, h[j].recipient, h[j].trigger, snap.token)
    && StillOpen(h, j + 1, pair)
  }

  lemma {:induction false} OpenPlanIsPlanned(h: seq<Mark>, pair: Pair) returns (j: nat)
    requires OpenPlan(h, pair).Some?
    ensures PlannedAt(h, j, pair, OpenPlan(h, pair).value)
    decreases |h|
  {
    var (before, last) := (h[..|h| - 1], h[|h| - 1]);
    if last.PlanAnswered? && Pair(last.batchId, last.recipient.contactId) == pair && last.answer.Planned? {
      j := |h| - 1;
    } else {
      j := OpenPlanIsPlanned(before, pair);
      assert forall k :: 0 <= k < |before| ==> before[k] == h[k];
      assert !Ends(last, pair);
    }
  }

  /**
   * Over all interleavings: every call that is started goes back to a plan of its pair that
   * handed out the very token, was no dry run, was made with dialling allowed and with all gates
   * passing, and was not ended since; and it is made with that plan's number, region and task.
   */
  lemma CallGoesBackToItsPlan(events: seq<Event>, k: nat) returns (j: nat)
    requires k < |Run(INITIAL, events).history| && Run(INITIAL, events).history[k].Issued?
    ensures var h := Run(INITIAL, events).history;
            && j < k && PlannedAt(h[..k], j, h[k].pair, h[k].sent) && h[k].handle == h[k].sent.token
            && h[k].key == h[k].pair.batchId + ":" + h[k].pair.contactId + (if h[k].retry then ":retry1" else "")
            && !h[j].dryRun && h[j].settings.allowDial
            && FirstReason(h[j].recipient.phone, h[j].recipient.region, h[j].recipient.doNotCall,
                           h[j].settings).None?
  {
    var h := Run(INITIAL, events).history;
    EveryCreateIsJustified(events);
    RunKeepsPlansRight(INITIAL, events);
    assert Justified(h[..k], h[k]);
    j := OpenPlanIsPlanned(h[..k], h[k].pair);
    assert h[j] == h[..k][j] && AnsweredRight(h[j]);
    hide Run, FirstReason, OpenPlan;
  }

  // ---- what a run row answers ----------------------------------------------

  /** The call that the latest success of this attempt started. */
  function StartedCall(h: seq<Mark>, pair: Pair, retry: bool): Option<string>
    decreases |h|
  {
    if h == [] then None
    else
      var (before, last) := (h[..|h| - 1], h[|h| - 1]);
      if last.Succeeded? && last.pair == pair && last.retry == retry then Some(last.runId)
      else StartedCall(before, pair, retry)
  }

  ghost predicate IdsOnTrace(s: System) {
    forall p, r :: Lookup(Ids(s.store, r), p) == StartedCall(s.history, p, r)
  }

  lemma OneMoreCall(h: seq<Mark>, m: Mark, pair: Pair, retry: bool)
    ensures StartedCall(h + [m], pair, retry) ==
            if m.Succeeded? && m.pair == pair && m.retry == retry then Some(m.runId) else StartedCall(h, pair, retry)
  {
    assert (h + [m])[..|h|] == h;
  }

  lemma StepKeepsIds(s: System, e: Event)
    requires IdsOnTrace(s)
    ensures IdsOnTrace(Step(s, e))
  {
    hide Gate, BeginRun, StartedCall, IdempotencyKey, MaskE164;
    var s' := Step(s, e);
    forall p, r ensures Lookup(Ids(s'.store, r), p) == StartedCall(s'.history, p, r) {
      assert Lookup(Ids(s.store, r), p) == StartedCall(s.history, p, r);
      if |s'.history| > |s.history| {
        OneMoreCall(s.history, s'.history[|s.history|], p, r);
      }
    }
  }

  lemma {:induction false} RunKeepsIds(s: System, events: seq<Event>)
    requires IdsOnTrace(s)
    ensures IdsOnTrace(Run(s, events))
    decreases |events|
  {
    hide Step, IdsOnTrace;
    if events != [] {
      StepKeepsIds(s, events[0]);
      RunKeepsIds(Step(s, events[0]), events[1..]);
    }
  }

  /** What a run row is answered at once, as far as the trace tells; None when it goes on to dial. */
  ghost function AnswerFromTrace(h: seq<Mark>, pair: Pair, handle: string, st: Settings, retry: bool)
    : Option<RunResult>
  {
    var plan := OpenPlan(h, pair);
    if HasSucceeded(h, pair, retry) && StartedCall(h, pair, retry).Some? then
      Some(SkippedDuplicate(StartedCall(h, pair, retry).value))
    else if retry && !HasSucceeded(h, pair, false) then Some(RunRejected(InvalidHandle))
    else if plan.None? || handle == "" || plan.value.token != handle then Some(RunRejected(InvalidHandle))
    else
      match FirstReason(plan.value.phone, plan.value.region, plan.value.doNotCall, st)
      case Some(reason) => Some(RunRejected(reason))
      case None => None
  }

  /**
   * In every reachable state a run row is answered from the trace alone: "duplicate" with the
   * call its attempt has started, if it has; "invalid handle" for a retry before the first call,
   * and for anything but the token of the open plan; the first gate that stops what was planned;
   * and otherwise it dials what was planned.
   */
  lemma RunRowIs(events: seq<Event>, pair: Pair, handle: string, st: Settings, retry: bool)
    ensures var s := Run(INITIAL, events);
            var check := BeginRun(s.store, pair, handle, st, retry);
            match AnswerFromTrace(s.history, pair, handle, st, retry)
            case Some(result) => check == Answer(result)
            case None => OpenPlan(s.history, pair).Some? && check == Dial(OpenPlan(s.history, pair).value)
  {
    var s := Run(INITIAL, events);
    RunKeeps(INITIAL, events);
    RunKeepsIds(INITIAL, events);
    assert Lookup(s.store.snapshots, pair) == OpenPlan(s.history, pair);
    assert pair in Ids(s.store, retry) <==> HasSucceeded(s.history, pair, retry);
    assert pair in Ids(s.store, false) <==> HasSucceeded(s.history, pair, false);
    assert Lookup(Ids(s.store, retry), pair) == StartedCall(s.history, pair, retry);
    if pair in s.store.snapshots {
      var snap := s.store.snapshots[pair];
      GateIs(snap.phone, snap.region, snap.doNotCall, st);
    }
    hide Run, Gate, FirstReason, OpenPlan, HasSucceeded, StartedCall, AllJustified;
  }

  // ---- batches -------------------------------------------------------------

  /** The answer of row i, as the rules have it. */
  ghost predicate RowAnswers(row: PlanResult, r: CallRecipient, s: Settings, dryRun: bool, token: string) {
    var reason := FirstReason(r.phone, r.region, r.doNotCall, s);
    && (row == Planned(token) <==> reason.None? && !dryRun && s.allowDial)
    && (row == DryRun <==> reason.None? && dryRun)
    && (reason.Some? ==> row == Rejected(reason.value))
  }

  lemma PlanRowAnswers(st: Store, batchId: string, r: CallRecipient, s: Settings, dryRun: bool, trigger: string,
                       token: string)
    ensures RowAnswers(PlanRow(st, batchId, r, s, dryRun, trigger, token).1, r, s, dryRun, token)
  {
    PlanRowIs(st, batchId, r, s, dryRun, trigger, token);
    hide PlanRow, FirstReason;
  }

  lemma {:induction false} PlanRowsLength(st: Store, q: CallServer.PlanRequest, s: Settings, tokens: seq<string>,
                                          k: nat)
    requires k <= |q.recipients| == |tokens|
    ensures |CallServer.PlanAll(st, q, s, tokens, k).1| == |q.recipients| - k
    decreases |q.recipients| - k
  {
    hide PlanRow;
    if k < |q.recipients| {
      PlanRowsLength(PlanRow(st, q.batchId, q.recipients[k], s, q.dryRun, q.trigger, tokens[k]).0, q, s, tokens, k + 1);
    }
  }

  /** Row i of a plan batch is decided by recipient i and answered with the i-th token drawn. */
  lemma {:induction false} PlanBatchIs(st: Store, q: CallServer.PlanRequest, s: Settings, tokens: seq<string>, k: nat,
                                       i: nat)
    requires k <= i < |q.recipients| == |tokens|
    ensures var rows := CallServer.PlanAll(st, q, s, tokens, k).1;
            |rows| == |q.recipients| - k && RowAnswers(rows[i - k], q.recipients[i], s, q.dryRun, tokens[i])
    decreases |q.recipients| - k
  {
    hide PlanRow, RowAnswers;
    var st1 := PlanRow(st, q.batchId, q.recipients[k], s, q.dryRun, q.trigger, tokens[k]).0;
    PlanRowAnswers(st, q.batchId, q.recipients[k], s, q.dryRun, q.trigger, tokens[k]);
    PlanRowsLength(st1, q, s, tokens, k + 1);
    if i > k {
      PlanBatchIs(st1, q, s, tokens, k + 1, i);
    }
  }

  /** After the create: an id that is not empty is answered and kept, and uses up the plan; anything else has failed. */
  lemma DialledRowIs(st: Store, pair: Pair, handle: string, s: Settings, retry: bool, correlationId: string,
                     raw: Option<string>)
    requires BeginRun(st, pair, handle, s, retry).Dial?
    ensures var (st', row) := CallServer.RunOne(st, pair, handle, s, retry, correlationId, raw);
            var snap := BeginRun(st, pair, handle, s, retry).snapshot;
            if raw.Some? && raw.value != "" then
              && row == Queued(raw.value) && pair !in st'.snapshots
              && Lookup(Ids(st', retry), pair) == raw && Ids(st', !retry) == Ids(st, !retry)
              && Lookup(st'.runMasks, raw.value) == Some(MaskE164(snap.phone))
              && Lookup(st'.runContexts, raw.value) == Some(RunContext(pair.batchId, correlationId))
            else row == Failed && st' == st
  {
    hide MaskE164, BeginRun;
  }

  /** A first attempt never counts as a retry, nor a retry as a first attempt. */
  lemma {:induction false} AttemptsStayApart(st: Store, q: CallServer.RunRequest, s: Settings,
                                             raws: seq<Option<string>>, k: nat)
    requires k <= |q.recipients| == |raws| && q.attempt < 2
    ensures var st' := CallServer.RunAll(st, q, s, raws, k).0;
            if q.attempt == 0 then st'.retryRunIds == st.retryRunIds else st'.runIds == st.runIds
    decreases |q.recipients| - k
  {
    hide BeginRun, MaskE164;
    if k < |q.recipients| {
      var (r, retry) := (q.recipients[k], q.attempt == 1);
      var st1 :=
          CallServer.RunOne(st, Pair(q.batchId, r.contactId), r.confirmHandle, s, retry, q.correlationId, raws[k]).0;
      AttemptsStayApart(st1, q, s, raws, k + 1);
    }
  }

  /** A mask shows the last four digits and nothing else. */
  lemma MaskShowsFour(a: string, b: string)
    requires IsNumber(a) && IsNumber(b)
    ensures MaskE164(a) == MaskE164(b) <==> a[|a| - 4..] == b[|b| - 4..]
    ensures |MaskE164(a)| == 6 && MaskE164(a)[2..] == a[|a| - 4..]
  {
    assert MaskE164(a)[2..] == a[|a| - 4..] && MaskE164(b)[2..] == b[|b| - 4..];
  }
}

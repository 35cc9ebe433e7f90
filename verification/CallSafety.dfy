/** Whole runs of plan and run requests, interleaving wherever a run row awaits its create. */
module CallSafety {
  import opened Common
  import opened RegionGate
  import opened Calls

  /** What a caller and the call provider see, in order. */
  datatype Mark =
    | PlanAnswered(batchId: string, recipient: CallRecipient, trigger: string, settings: Settings, dryRun: bool,
                   answer: PlanResult)
    | Issued(pair: Pair, retry: bool, key: string, handle: string, sent: PlanSnapshot, settings: Settings)
    | Succeeded(pair: Pair, retry: bool, runId: string)

  /** A run row waiting for its create to answer. */
  datatype Pending = Pending(pair: Pair, retry: bool, snapshot: PlanSnapshot, correlationId: string)

  datatype System = System(store: Store, pending: map<nat, Pending>, history: seq<Mark>)

  datatype Event =
    | Plan(batchId: string, recipient: CallRecipient, settings: Settings, dryRun: bool, trigger: string, token: string)
    | Begin(ticket: nat, pair: Pair, handle: string, settings: Settings, retry: bool, correlationId: string)
    | Finish(ticket: nat, raw: Option<string>)

  const INITIAL := System(Store(map[], map[], map[], map[], map[]), map[], [])

  function Step(s: System, e: Event): System {
    match e
    case Plan(batchId, r, settings, dryRun, trigger, token) =>
      var (store, answer) := PlanRow(s.store, batchId, r, settings, dryRun, trigger, token);
      s.(store := store, history := s.history + [PlanAnswered(batchId, r, trigger, settings, dryRun, answer)])
    case Begin(t, pair, handle, settings, retry, correlationId) =>
      if t in s.pending || !settings.allowDial then s
      else
        var check := BeginRun(s.store, pair, handle, settings, retry);
        if check.Answer? then s
        else
          s.(pending := s.pending[t := Pending(pair, retry, check.snapshot, correlationId)],
             history := s.history
                        + [Issued(pair, retry, IdempotencyKey(pair, retry), handle, check.snapshot, settings)])
    case Finish(t, raw) =>
      if t !in s.pending then s
      else
        var p := s.pending[t];
        System(FinishRun(s.store, p.pair, p.retry, p.snapshot, p.correlationId, raw).0, s.pending - {t},
               if Created(raw) then s.history + [Succeeded(p.pair, p.retry, raw.value)] else s.history)
  }

  function Run(s: System, events: seq<Event>): System
    decreases |events|
  {
    if events == [] then s else Run(Step(s, events[0]), events[1..])
  }

  // ---- what the trace alone says -------------------------------------------

  /** The latest plan of the pair that nothing has since rejected or used up. */
  function OpenPlan(h: seq<Mark>, pair: Pair): Option<PlanSnapshot>
    decreases |h|
  {
    if h == [] then None
    else
      var before := h[..|h| - 1];
      match h[|h| - 1]
      case PlanAnswered(b, r, trigger, _, _, answer) =>
        if Pair(b, r.contactId) != pair then OpenPlan(before, pair)
        else (match answer
              case Planned(token) => Some(SnapshotOf(r, trigger, token))
              case Rejected(_) => None
              case DryRun => OpenPlan(before, pair))
      case Succeeded(p, _, _) => if p == pair then None else OpenPlan(before, pair)
      case Issued(_, _, _, _, _, _) => OpenPlan(before, pair)
  }

  predicate HasSucceeded(h: seq<Mark>, pair: Pair, retry: bool) {
    exists i :: 0 <= i < |h| && h[i].Succeeded? && h[i].pair == pair && h[i].retry == retry
  }

  /** A create that may be made after the trace h. */
  predicate Justified(h: seq<Mark>, m: Mark)
    requires m.Issued?
  {
    && m.key == IdempotencyKey(m.pair, m.retry)
    && m.handle != "" && OpenPlan(h, m.pair) == Some(m.sent) && m.sent.token == m.handle
    && m.settings.allowDial && m.sent.phone in m.settings.allowlist && !m.sent.doNotCall
    && IsValidE164(m.sent.phone) && !("+967" <= m.sent.phone) && m.sent.region in SUPPORTED_REGIONS - {"YE"}
    && !HasSucceeded(h, m.pair, m.retry)
    && (m.retry ==> HasSucceeded(h, m.pair, false))
  }

  predicate AllJustified(h: seq<Mark>) {
    forall k :: 0 <= k < |h| && h[k].Issued? ==> Justified(h[..k], h[k])
  }

  function Ids(st: Store, retry: bool): map<Pair, string> {
    if retry then st.retryRunIds else st.runIds
  }

  ghost predicate Mirrors(s: System) {
    && (forall p :: Lookup(s.store.snapshots, p) == OpenPlan(s.history, p))
    && (forall p, r :: p in Ids(s.store, r) <==> HasSucceeded(s.history, p, r))
    && (forall p, r :: p in Ids(s.store, r) ==> Ids(s.store, r)[p] != "")
  }

  lemma OneMore(h: seq<Mark>, m: Mark)
    ensures forall p :: OpenPlan(h + [m], p) ==
                        match m
                        case PlanAnswered(b, r, trigger, _, _, answer) =>
                          (if Pair(b, r.contactId) != p || answer.DryRun? then OpenPlan(h, p)
                          else if answer.Planned? then Some(SnapshotOf(r, trigger, answer.confirmHandle)) else None)
                        case Succeeded(q, _, _) => (if p == q then None else OpenPlan(h, p))
                        case Issued(_, _, _, _, _, _) => OpenPlan(h, p)
    ensures forall p, r :: HasSucceeded(h + [m], p, r) <==>
                             HasSucceeded(h, p, r) || (m.Succeeded? && m.pair == p && m.retry == r)
    ensures AllJustified(h) && (m.Issued? ==> Justified(h, m)) ==> AllJustified(h + [m])
  {
    assert (h + [m])[..|h|] == h;
    assert forall k :: 0 <= k < |h| ==> (h + [m])[..k] == h[..k];
    assert (h + [m])[|h|] == m;
    assert forall i :: 0 <= i < |h| ==> (h + [m])[i] == h[i];
  }

  lemma DialIsJustified(s: System, pair: Pair, handle: string, settings: Settings, retry: bool)
    requires Mirrors(s) && settings.allowDial && BeginRun(s.store, pair, handle, settings, retry).Dial?
    ensures var snap := BeginRun(s.store, pair, handle, settings, retry).snapshot;
            Justified(s.history, Issued(pair, retry, IdempotencyKey(pair, retry), handle, snap, settings))
  {
    hide CallingRegion, IsValidE164, OpenPlan, HasSucceeded;
    var snap := s.store.snapshots[pair];
    assert Lookup(s.store.snapshots, pair) == OpenPlan(s.history, pair);
    assert pair in Ids(s.store, retry) <==> HasSucceeded(s.history, pair, retry);
    assert pair in Ids(s.store, false) <==> HasSucceeded(s.history, pair, false);
    NeverYemen(snap.phone, snap.region, settings.allowlistRegion);
  }

  lemma PlanKeeps(s: System, e: Event)
    requires e.Plan? && Mirrors(s) && AllJustified(s.history)
    ensures Mirrors(Step(s, e)) && AllJustified(Step(s, e).history)
  {
    hide OpenPlan, HasSucceeded, Justified, Gate, AllJustified;
    var s' := Step(s, e);
    OneMore(s.history, s'.history[|s.history|]);
    assert s'.store.runIds == s.store.runIds && s'.store.retryRunIds == s.store.retryRunIds;
    assert forall r :: Ids(s'.store, r) == Ids(s.store, r);
    assert forall p, r :: HasSucceeded(s'.history, p, r) <==> HasSucceeded(s.history, p, r);
    assert forall p :: Lookup(s'.store.snapshots, p) == OpenPlan(s'.history, p);
  }

  lemma BeginKeeps(s: System, e: Event)
    requires e.Begin? && Mirrors(s) && AllJustified(s.history)
    ensures Mirrors(Step(s, e)) && AllJustified(Step(s, e).history)
  {
    hide OpenPlan, HasSucceeded, Justified, Gate, AllJustified;
    var s' := Step(s, e);
    if s' != s {
      OneMore(s.history, s'.history[|s.history|]);
      DialIsJustified(s, e.pair, e.handle, e.settings, e.retry);
    }
  }

  lemma FinishKeeps(s: System, e: Event)
    requires e.Finish? && Mirrors(s) && AllJustified(s.history)
    ensures Mirrors(Step(s, e)) && AllJustified(Step(s, e).history)
  {
    hide OpenPlan, HasSucceeded, Justified, Gate, AllJustified;
    var s' := Step(s, e);
    if s'.history != s.history {
      OneMore(s.history, s'.history[|s.history|]);
      var p := s.pending[e.ticket];
      assert forall q, r :: q in Ids(s'.store, r) <==> q in Ids(s.store, r) || (q == p.pair && r == p.retry);
    }
  }

  lemma StepKeeps(s: System, e: Event)
    requires Mirrors(s) && AllJustified(s.history)
    ensures Mirrors(Step(s, e)) && AllJustified(Step(s, e).history)
  {
    hide *;
    match e {
      case Plan(_, _, _, _, _, _) => PlanKeeps(s, e);
      case Begin(_, _, _, _, _, _) => BeginKeeps(s, e);
      case Finish(_, _) => FinishKeeps(s, e);
    }
  }

  lemma {:induction false} RunKeeps(s: System, events: seq<Event>)
    requires Mirrors(s) && AllJustified(s.history)
    ensures Mirrors(Run(s, events)) && AllJustified(Run(s, events).history)
    decreases |events|
  {
    if events != [] {
      StepKeeps(s, events[0]);
      RunKeeps(Step(s, events[0]), events[1..]);
    }
  }

  /**
   * Whatever interleaves: every create presented the token of the pair's latest
   * plan, unrejected and unused, passed the kill switch and all gates, never
   * went to a Yemeni number, and was a retry only after a first success.
   */
  lemma EveryCreateIsJustified(events: seq<Event>)
    ensures AllJustified(Run(INITIAL, events).history)
  {
    RunKeeps(INITIAL, events);
  }

  /** Even then a pair uses two keys at most, and no other pair shares either of them. */
  lemma TwoKeysPerPair(events: seq<Event>, i: nat, j: nat)
    requires var h := Run(INITIAL, events).history;
             && i < |h| && j < |h| && h[i].Issued? && h[j].Issued?
             && ColonFree(h[i].pair.batchId) && ColonFree(h[i].pair.contactId)
             && ColonFree(h[j].pair.batchId) && ColonFree(h[j].pair.contactId)
    ensures var h := Run(INITIAL, events).history;
            h[i].key == h[j].key <==> h[i].pair == h[j].pair && h[i].retry == h[j].retry
  {
    EveryCreateIsJustified(events);
    var h := Run(INITIAL, events).history;
    assert Justified(h[..i], h[i]) && Justified(h[..j], h[j]);
    if h[i].key == h[j].key {
      KeysAreInjective(h[i].pair, h[i].retry, h[j].pair, h[j].retry);
    }
  }

  // ---- at most one success per attempt -------------------------------------

  /** No two creates for the same attempt of the same pair are open at once. */
  predicate Apart(s: System) {
    forall t, u :: t in s.pending && u in s.pending && t != u ==>
                     s.pending[t].pair != s.pending[u].pair || s.pending[t].retry != s.pending[u].retry
  }

  predicate StaysApart(s: System, events: seq<Event>)
    decreases |events|
  {
    Apart(s) && (events != [] ==> StaysApart(Step(s, events[0]), events[1..]))
  }

  predicate SucceedOnce(h: seq<Mark>) {
    forall i, j :: 0 <= i < j < |h| && h[i].Succeeded? && h[j].Succeeded? && h[i].pair == h[j].pair
      ==> h[i].retry != h[j].retry
  }

  predicate OpenAreNew(s: System) {
    forall t :: t in s.pending ==> !HasSucceeded(s.history, s.pending[t].pair, s.pending[t].retry)
  }

  lemma StepSucceedsOnce(s: System, e: Event)
    requires Mirrors(s) && Apart(s) && SucceedOnce(s.history) && OpenAreNew(s)
    ensures SucceedOnce(Step(s, e).history) && OpenAreNew(Step(s, e))
  {
    hide Gate, OpenPlan, Justified, AllJustified;
    var s' := Step(s, e);
    if |s'.history| > |s.history| {
      OneMore(s.history, s'.history[|s.history|]);
    }
    if e.Begin? {
      assert e.pair in Ids(s.store, e.retry) <==> HasSucceeded(s.history, e.pair, e.retry);
    }
  }

  lemma {:induction false} RunSucceedsOnce(s: System, events: seq<Event>)
    requires Mirrors(s) && AllJustified(s.history) && SucceedOnce(s.history) && OpenAreNew(s) && StaysApart(s, events)
    ensures SucceedOnce(Run(s, events).history)
    decreases |events|
  {
    if events != [] {
      StepKeeps(s, events[0]);
      StepSucceedsOnce(s, events[0]);
      RunSucceedsOnce(Step(s, events[0]), events[1..]);
    }
  }

  /** Two open creates for one attempt are all it takes for that attempt to succeed twice. */
  lemma OverlapSucceedsTwice(s: System, t: nat, u: nat, a: string, b: string)
    requires t in s.pending && u in s.pending && t != u && a != "" && b != ""
    requires s.pending[t].pair == s.pending[u].pair && s.pending[t].retry == s.pending[u].retry
    ensures !SucceedOnce(Run(s, [Finish(t, Some(a)), Finish(u, Some(b))]).history)
  {
    var events := [Finish(t, Some(a)), Finish(u, Some(b))];
    var s1 := Step(s, events[0]);
    var s2 := Step(s1, events[1]);
    assert events[1..] == [events[1]] && [events[1]][1..] == [];
    assert Run(s, events) == Run(s1, [events[1]]) == Run(s2, []) == s2;
    var n := |s.history|;
    assert s2.history[n].Succeeded? && s2.history[n + 1].Succeeded?;
    assert s2.history[n].pair == s2.history[n + 1].pair && s2.history[n].retry == s2.history[n + 1].retry;
  }

  lemma RunHead(s: System, e: Event, rest: seq<Event>)
    ensures Run(s, [e] + rest) == Run(Step(s, e), rest)
  {
    assert ([e] + rest)[1..] == rest;
  }

  /** And they do open: a row run twice before its first create answers presents the same good token twice. */
  lemma RunningTwiceOverlaps(batchId: string, r: CallRecipient, settings: Settings, trigger: string, token: string,
                             a: string, b: string)
    requires Gate(r.phone, r.region, r.doNotCall, settings).None? && settings.allowDial && token != "" && a != ""
             && b != ""
    ensures var plan := Plan(batchId, r, settings, false, trigger, token);
            var run := t => Begin(t, Pair(batchId, r.contactId), token, settings, false, "");
            !SucceedOnce(Run(INITIAL,
                             [plan] + ([run(0)] + ([run(1)] + [Finish(0, Some(a)), Finish(1, Some(b))]))).history)
  {
    hide Gate;
    var pair := Pair(batchId, r.contactId);
    var plan := Plan(batchId, r, settings, false, trigger, token);
    var (first, second) := (Begin(0, pair, token, settings, false, ""), Begin(1, pair, token, settings, false, ""));
    var answers := [Finish(0, Some(a)), Finish(1, Some(b))];
    var s1 := Step(INITIAL, plan);
    assert s1.store.snapshots[pair] == SnapshotOf(r, trigger, token);
    var s2 := Step(s1, first);
    var s3 := Step(s2, second);
    assert 0 in s3.pending && 1 in s3.pending;
    RunHead(INITIAL, plan, [first] + ([second] + answers));
    RunHead(s1, first, [second] + answers);
    RunHead(s2, second, answers);
    OverlapSucceedsTwice(s3, 0, 1, a, b);
  }

  /** Handlers that are one step: a begun row is finished before anything else happens. */
  predicate OneStep(events: seq<Event>)
    decreases |events|
  {
    || events == []
    || (events[0].Plan? && OneStep(events[1..]))
    || (events[0].Begin? && |events| >= 2 && events[1].Finish? && events[1].ticket == events[0].ticket
        && OneStep(events[2..]))
  }

  lemma {:induction false} OneStepStaysApart(s: System, events: seq<Event>)
    requires s.pending == map[] && OneStep(events)
    ensures StaysApart(s, events)
    decreases |events|
  {
    hide PlanRow, BeginRun, FinishRun;
    if events != [] {
      var s1 := Step(s, events[0]);
      if events[0].Plan? {
        OneStepStaysApart(s1, events[1..]);
      } else {
        var s2 := Step(s1, events[1]);
        assert s1.pending.Keys <= {events[0].ticket};
        assert s2.pending == map[];
        OneStepStaysApart(s2, events[2..]);
        assert events[1..][0] == events[1] && events[1..][1..] == events[2..];
      }
    }
  }

  /** With one-step handlers each attempt succeeds once at most: two calls per pair in all. */
  lemma OneStepSucceedsOnce(events: seq<Event>)
    requires OneStep(events)
    ensures SucceedOnce(Run(INITIAL, events).history)
  {
    OneStepStaysApart(INITIAL, events);
    RunSucceedsOnce(INITIAL, events);
  }

  // ---- what is kept about a started call -----------------------------------

  predicate WasIssued(h: seq<Mark>, p: Pending) {
    exists i :: 0 <= i < |h| && h[i].Issued? && h[i].pair == p.pair && h[i].retry == p.retry && h[i].sent == p.snapshot
  }

  /** Call `runId` was created with this phone for this pair. */
  predicate Dialled(h: seq<Mark>, runId: string, phone: string, batchId: string) {
    exists i, j :: 0 <= i < |h| && 0 <= j < |h| && h[i].Issued? && h[j].Succeeded? && h[j].runId == runId
                   && h[i].pair == h[j].pair && h[i].retry == h[j].retry && h[i].sent.phone == phone
                     && h[j].pair.batchId == batchId
  }

  predicate Answered(h: seq<Mark>, runId: string) {
    exists j :: 0 <= j < |h| && h[j].Succeeded? && h[j].runId == runId
  }

  /** The kept mask and batch of a call are those of a call that was made. */
  ghost predicate TrueRecord(s: System, runId: string)
    requires runId in s.store.runMasks && runId in s.store.runContexts
  {
    exists phone :: s.store.runMasks[runId] == MaskE164(phone)
      && Dialled(s.history, runId, phone, s.store.runContexts[runId].batchId)
  }

  ghost predicate OnRecord(s: System) {
    && (forall t :: t in s.pending ==> WasIssued(s.history, s.pending[t]))
    && (forall id :: id in s.store.runMasks <==> Answered(s.history, id))
    && (forall id :: id in s.store.runContexts <==> Answered(s.history, id))
    && (forall id :: id in s.store.runMasks && id in s.store.runContexts ==> TrueRecord(s, id))
  }

  lemma OneMoreMark(h: seq<Mark>, m: Mark)
    ensures forall p :: WasIssued(h, p) ==> WasIssued(h + [m], p)
    ensures forall id, phone, batch :: Dialled(h, id, phone, batch) ==> Dialled(h + [m], id, phone, batch)
    ensures forall id :: Answered(h + [m], id) <==> Answered(h, id) || (m.Succeeded? && m.runId == id)
    ensures m.Issued? ==> forall c :: WasIssued(h + [m], Pending(m.pair, m.retry, m.sent, c))
    ensures forall p :: m.Succeeded? && WasIssued(h, p) && p.pair == m.pair && p.retry == m.retry
                        ==> Dialled(h + [m], m.runId, p.snapshot.phone, m.pair.batchId)
  {
    var h' := h + [m];
    assert forall i :: 0 <= i < |h| ==> h'[i] == h[i];
    assert h'[|h|] == m;
  }

  lemma FinishKeepsRecords(s: System, e: Event)
    requires OnRecord(s) && e.Finish? && e.ticket in s.pending && Created(e.raw)
    ensures OnRecord(Step(s, e))
  {
    hide WasIssued, Dialled, Answered, MaskE164;
    var s' := Step(s, e);
    OneMoreMark(s.history, s'.history[|s.history|]);
    forall id | id in s'.store.runMasks && id in s'.store.runContexts ensures TrueRecord(s', id) {
      if e.raw.value == id {
        assert s'.store.runMasks[id] == MaskE164(s.pending[e.ticket].snapshot.phone);
      } else {
        assert TrueRecord(s, id);
      }
    }
  }

  /** Where no call is created, the records stay true as long as every open row was issued. */
  lemma SameRecords(s: System, s': System)
    requires OnRecord(s) && s'.store.runMasks == s.store.runMasks && s'.store.runContexts == s.store.runContexts
    requires forall id :: Answered(s'.history, id) <==> Answered(s.history, id)
    requires forall id, phone, batch :: Dialled(s.history, id, phone, batch) ==> Dialled(s'.history, id, phone, batch)
    requires forall t :: t in s'.pending ==> WasIssued(s'.history, s'.pending[t])
    ensures OnRecord(s')
  {
    hide WasIssued, Dialled, Answered, MaskE164;
    forall id | id in s'.store.runMasks && id in s'.store.runContexts ensures TrueRecord(s', id) {
      assert TrueRecord(s, id);
    }
  }

  lemma PlanKeepsRecords(s: System, e: Event)
    requires OnRecord(s) && e.Plan?
    ensures OnRecord(Step(s, e))
  {
    hide Gate, WasIssued, Dialled, Answered, MaskE164;
    var s' := Step(s, e);
    OneMoreMark(s.history, s'.history[|s.history|]);
    assert s'.store.runMasks == s.store.runMasks && s'.store.runContexts == s.store.runContexts;
    SameRecords(s, s');
  }

  lemma BeginKeepsRecords(s: System, e: Event)
    requires OnRecord(s) && e.Begin?
    ensures OnRecord(Step(s, e))
  {
    hide BeginRun, WasIssued, Dialled, Answered, MaskE164, IdempotencyKey;
    var s' := Step(s, e);
    if s' != s {
      var m := s'.history[|s.history|];
      assert s'.history == s.history + [m] && m.Issued?;
      OneMoreMark(s.history, m);
      SameRecords(s, s');
    }
  }

  lemma StepKeepsRecords(s: System, e: Event)
    requires OnRecord(s)
    ensures OnRecord(Step(s, e))
  {
    hide OnRecord, FinishRun;
    if e.Plan? {
      PlanKeepsRecords(s, e);
    } else if e.Begin? {
      BeginKeepsRecords(s, e);
    } else if e.ticket in s.pending {
      if Created(e.raw) {
        FinishKeepsRecords(s, e);
      } else {
        FailureKeepsRecords(s, e);
      }
    }
  }

  lemma FailureKeepsRecords(s: System, e: Event)
    requires OnRecord(s) && e.Finish? && e.ticket in s.pending && !Created(e.raw)
    ensures OnRecord(Step(s, e))
  {
    hide WasIssued, Dialled, Answered, MaskE164;
    SameRecords(s, Step(s, e));
  }

  lemma {:induction false} RunKeepsRecords(s: System, events: seq<Event>)
    requires OnRecord(s)
    ensures OnRecord(Run(s, events))
    decreases |events|
  {
    if events != [] {
      StepKeepsRecords(s, events[0]);
      RunKeepsRecords(Step(s, events[0]), events[1..]);
    }
  }

  /** Over all interleavings, exactly the calls that were created have a mask and a context on record, and true ones. */
  lemma CallsAreOnRecord(events: seq<Event>)
    ensures OnRecord(Run(INITIAL, events))
  {
    RunKeepsRecords(INITIAL, events);
  }
}

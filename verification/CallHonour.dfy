/** When a run row dials, and which plan tokens are honoured. */
module CallHonour {
  import opened Common
  import opened RegionGate
  import opened Calls
  import opened CallSafety

  predicate GatesPass(snap: PlanSnapshot, st: Settings) {
    && IsValidE164(snap.phone) && RegionAllowed(snap.phone, snap.region, st.allowlistRegion)
    && !snap.doNotCall && snap.phone in st.allowlist
  }

  /** This attempt of the pair is due, as far as the trace tells. */
  predicate Due(h: seq<Mark>, pair: Pair, retry: bool) {
    !HasSucceeded(h, pair, retry) && (retry ==> HasSucceeded(h, pair, false))
  }

  /**
   * A run row dials exactly when its attempt is due and it presents the token of the open plan,
   * which passes all gates.
   */
  lemma DialsIff(s: System, pair: Pair, handle: string, st: Settings, retry: bool)
    requires Mirrors(s)
    ensures BeginRun(s.store, pair, handle, st, retry).Dial?
       <==> (&& Due(s.history, pair, retry)
             && OpenPlan(s.history, pair).Some? && handle != "" && OpenPlan(s.history, pair).value.token == handle
             && GatesPass(OpenPlan(s.history, pair).value, st))
  {
    hide CallingRegion, IsValidE164, RegionAllowed, OpenPlan, HasSucceeded;
    assert Lookup(s.store.snapshots, pair) == OpenPlan(s.history, pair);
    assert pair in Ids(s.store, retry) <==> HasSucceeded(s.history, pair, retry);
    assert pair in Ids(s.store, false) <==> HasSucceeded(s.history, pair, false);
  }

  // ---- a token, from the plan that hands it out ----------------------------

  /** Marks that end what was planned for the pair: a rejection, a new plan, a started call. */
  predicate Ends(m: Mark, pair: Pair) {
    match m
    case PlanAnswered(b, r, _, _, _, answer) => Pair(b, r.contactId) == pair && !answer.DryRun?
    case Succeeded(p, _, _) => p == pair
    case Issued(_, _, _, _, _, _) => false
  }

  /** Nothing after the first n marks ends what was planned for the pair. */
  predicate StillOpen(h: seq<Mark>, n: nat, pair: Pair) {
    forall k :: n <= k < |h| ==> !Ends(h[k], pair)
  }

  /** No plan after the first n marks draws this token for the pair again. */
  predicate DrawnOnce(h: seq<Mark>, n: nat, pair: Pair, token: string) {
    forall k :: n <= k < |h| && h[k].PlanAnswered? && Pair(h[k].batchId, h[k].recipient.contactId) == pair
      ==> h[k].answer != Planned(token)
  }

  lemma {:induction false} OpenWhileNothingEnds(h: seq<Mark>, n: nat, pair: Pair, snap: PlanSnapshot)
    requires n <= |h| && OpenPlan(h[..n], pair) == Some(snap) && DrawnOnce(h, n, pair, snap.token)
    ensures StillOpen(h, n, pair) ==> OpenPlan(h, pair) == Some(snap)
    ensures !StillOpen(h, n, pair) ==> OpenPlan(h, pair).None? || OpenPlan(h, pair).value.token != snap.token
    decreases |h|
  {
    if n == |h| {
      assert h[..n] == h;
    } else {
      var (before, last) := (h[..|h| - 1], h[|h| - 1]);
      assert before[..n] == h[..n];
      assert forall k :: 0 <= k < |before| ==> before[k] == h[k];
      OpenWhileNothingEnds(before, n, pair, snap);
      assert StillOpen(h, n, pair) <==> StillOpen(before, n, pair) && !Ends(last, pair);
    }
  }

  lemma {:induction false} HistoryGrows(s: System, events: seq<Event>)
    ensures s.history <= Run(s, events).history
    decreases |events|
  {
    hide PlanRow, BeginRun, FinishRun;
    if events != [] {
      HistoryGrows(Step(s, events[0]), events[1..]);
    }
  }

  /** This plan was answered with a token. */
  predicate HandsOut(s: System, plan: Event) {
    plan.Plan? && plan.token != ""
    && PlanRow(s.store, plan.batchId, plan.recipient, plan.settings, plan.dryRun, plan.trigger, plan.token).1
      == Planned(plan.token)
  }

  /** A run row that starts now with this token issues a create. */
  predicate Dials(s: System, ticket: nat, pair: Pair, token: string, st: Settings, retry: bool) {
    |Step(s, Begin(ticket, pair, token, st, retry, "")).history| > |s.history|
  }

  lemma DialsMeans(s: System, ticket: nat, pair: Pair, token: string, st: Settings, retry: bool)
    requires ticket !in s.pending
    ensures Dials(s, ticket, pair, token, st, retry)
            <==> st.allowDial && BeginRun(s.store, pair, token, st, retry).Dial?
  {
    hide BeginRun;
  }

  lemma PlanIsOpen(s: System, plan: Event)
    requires HandsOut(s, plan)
    ensures var (s1, pair) := (Step(s, plan), Pair(plan.batchId, plan.recipient.contactId));
            OpenPlan(s1.history, pair) == Some(SnapshotOf(plan.recipient, plan.trigger, plan.token))
  {
    hide PlanRow;
    var s1 := Step(s, plan);
    assert s1.history[..|s1.history| - 1] == s.history;
  }

  /**
   * Over all interleavings: a token that a plan handed out is honoured exactly while
   * its pair has since had no started call, no rejection and no new plan, the attempt
   * is due, dialling is allowed, and what was planned passes the gates of the moment.
   */
  lemma TokenHonouredIff(past: seq<Event>, plan: Event, future: seq<Event>, ticket: nat, st: Settings, retry: bool)
    requires HandsOut(Run(INITIAL, past), plan)
    requires var n := |Run(INITIAL, past).history| + 1;
             var later := Run(Step(Run(INITIAL, past), plan), future);
             ticket !in later.pending
             && DrawnOnce(later.history, n, Pair(plan.batchId, plan.recipient.contactId), plan.token)
    ensures var n := |Run(INITIAL, past).history| + 1;
            var later := Run(Step(Run(INITIAL, past), plan), future);
            var pair := Pair(plan.batchId, plan.recipient.contactId);
            Dials(later, ticket, pair, plan.token, st, retry)
            <==> (&& st.allowDial && StillOpen(later.history, n, pair) && Due(later.history, pair, retry)
                  && GatesPass(SnapshotOf(plan.recipient, plan.trigger, plan.token), st))
  {
    var s0 := Run(INITIAL, past);
    var s1 := Step(s0, plan);
    var later := Run(s1, future);
    var pair := Pair(plan.batchId, plan.recipient.contactId);
    var snap := SnapshotOf(plan.recipient, plan.trigger, plan.token);
    RunKeeps(INITIAL, past);
    StepKeeps(s0, plan);
    RunKeeps(s1, future);
    HistoryGrows(s1, future);
    PlanIsOpen(s0, plan);
    var n := |s0.history| + 1;
    assert later.history[..n] == s1.history;
    OpenWhileNothingEnds(later.history, n, pair, snap);
    DialsIff(later, pair, plan.token, st, retry);
    DialsMeans(later, ticket, pair, plan.token, st, retry);
    hide Run, Step, OpenPlan, HasSucceeded, GatesPass, BeginRun, StillOpen, DrawnOnce, Mirrors, Dials;
  }

  /** A plan made while a create of its pair is in flight hands out a token that is void once that create succeeds. */
  lemma PlanInFlightIsVoid(past: seq<Event>, plan: Event, future: seq<Event>, ticket: nat, st: Settings, retry: bool,
                           k: nat)
    requires HandsOut(Run(INITIAL, past), plan)
    requires var n := |Run(INITIAL, past).history| + 1;
             var later := Run(Step(Run(INITIAL, past), plan), future);
             ticket !in later.pending
             && DrawnOnce(later.history, n, Pair(plan.batchId, plan.recipient.contactId), plan.token)
             && n <= k < |later.history| && later.history[k].Succeeded?
             && later.history[k].pair == Pair(plan.batchId, plan.recipient.contactId)
    ensures var later := Run(Step(Run(INITIAL, past), plan), future);
            !Dials(later, ticket, Pair(plan.batchId, plan.recipient.contactId), plan.token, st, retry)
  {
    TokenHonouredIff(past, plan, future, ticket, st, retry);
    var later := Run(Step(Run(INITIAL, past), plan), future);
    hide Run, Step, Dials, DrawnOnce, GatesPass, Due;
    assert Ends(later.history[k], Pair(plan.batchId, plan.recipient.contactId));
  }
}

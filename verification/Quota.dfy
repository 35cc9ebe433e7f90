/** Monthly usage while any number of pushes interleave, statement by statement. */
module Quota {
  import opened Common
  import opened OpLog
  import opened Push

  datatype Phase =
    | Arrived
    | Looping(next: nat, pending: Option<AppendStatus>)   // an op may be appended but not yet projected
    | Refused
    | Stranded                                            // reserved, but told that reserving failed
    | Finished(projectionFailed: bool, released: bool)

  /** One request: the ids it carries, what it was charged, and the rows it added to the log. */
  datatype Request = Request(ids: seq<string>, phase: Phase, consumed: nat, appended: nat)

  datatype State = State(usage: nat, logged: set<string>, requests: seq<Request>)

  datatype Event =
    | Arrive(ids: seq<string>)
    | Reserve(request: nat, outcome: Outcome)
    | AppendNext(request: nat)
    | AppendFails(request: nat, release: Outcome)
    | ProjectNext(request: nat)
    | ProjectFails(request: nat, release: Outcome)
    | Close(request: nat, release: Outcome)

  /** A release that does not take effect is only logged. */
  function Release(usage: nat, q: Request, outcome: Outcome): nat {
    if Lands(outcome) then ConsumeSyncUsage(usage, q.consumed - |q.ids|, SYNC_EVENT_MONTHLY_CAP).1 else usage
  }

  function Charged(projected: Request, status: AppendStatus): Request {
    if status == AppliedNow then projected.(consumed := projected.consumed + 1) else projected
  }

  /** One statement of the handler for request q. Statements that are not due change nothing. */
  function RequestStep(s: State, q: Request, e: Event): (nat, set<string>, Request) {
    match (e, q.phase)
    case (Reserve(_, outcome), Arrived) =>
      if q.ids == [] then (s.usage, s.logged, q.(phase := Looping(0, None)))
      else if outcome.Fails? then (s.usage, s.logged, q.(phase := Refused))
      else
        var (allowed, count) := ConsumeSyncUsage(s.usage, |q.ids|, SYNC_EVENT_MONTHLY_CAP);
        var next := if !allowed then Refused else if outcome.Succeeds? then Looping(0, None) else Stranded;
        (count, s.logged, q.(phase := next))
    case (AppendNext(_), Looping(next, None)) =>
      if next >= |q.ids| then (s.usage, s.logged, q)
      else if q.ids[next] in s.logged then (s.usage, s.logged, q.(phase := Looping(next, Some(Duplicate))))
      else (s.usage, s.logged + {q.ids[next]}, q.(phase := Looping(next, Some(AppliedNow)), appended := q.appended + 1))
    case (AppendFails(_, o), Looping(next, None)) =>
      if next >= |q.ids| then (s.usage, s.logged, q)
      else (Release(s.usage, q, o), s.logged, q.(phase := Finished(false, Lands(o))))
    case (ProjectNext(_), Looping(next, Some(status))) =>
      (s.usage, s.logged, Charged(q, status).(phase := Looping(next + 1, None)))
    case (ProjectFails(_, o), Looping(_, Some(status))) =>
      (Release(s.usage, q, o), s.logged, q.(phase := Finished(status == AppliedNow, Lands(o))))
    case (Close(_, o), Looping(next, None)) =>
      if next < |q.ids| then (s.usage, s.logged, q)
      else (Release(s.usage, q, o), s.logged, q.(phase := Finished(false, Lands(o))))
    case _ => (s.usage, s.logged, q)
  }

  function Step(s: State, e: Event): State {
    match e
    case Arrive(ids) => s.(requests := s.requests + [Request(ids, Arrived, 0, 0)])
    case _ =>
      if e.request < |s.requests| then
        var (usage, logged, q) := RequestStep(s, s.requests[e.request], e);
        State(usage, logged, s.requests[e.request := q])
      else s
  }

  function Run(s: State, events: seq<Event>): State
    decreases |events|
  {
    if events == [] then s else Step(Run(s, events[..|events| - 1]), events[|events| - 1])
  }

  // ---- the books -----------------------------------------------------------

  /** What a request currently holds of the month's allowance. */
  function Held(q: Request): nat {
    match q.phase
    case Looping(_, _) => |q.ids|
    case Stranded => |q.ids|
    case Finished(_, released) => if released then q.consumed else |q.ids|
    case _ => 0
  }

  function Sum(f: Request -> nat, qs: seq<Request>): nat {
    if qs == [] then 0 else f(qs[0]) + Sum(f, qs[1..])
  }

  function Appended(q: Request): nat {
    q.appended
  }

  lemma {:induction false} SumUpdate(f: Request -> nat, qs: seq<Request>, i: nat, q: Request)
    requires i < |qs|
    ensures Sum(f, qs[i := q]) == Sum(f, qs) - f(qs[i]) + f(q)
    ensures f(qs[i]) <= Sum(f, qs)
  {
    if i == 0 {
      assert qs[i := q][1..] == qs[1..];
    } else {
      assert qs[i := q][1..] == qs[1..][i - 1 := q];
      SumUpdate(f, qs[1..], i - 1, q);
    }
  }

  lemma {:induction false} SumAppend(f: Request -> nat, qs: seq<Request>, q: Request)
    ensures Sum(f, qs + [q]) == Sum(f, qs) + f(q)
  {
    if qs != [] {
      assert (qs + [q])[1..] == qs[1..] + [q];
      SumAppend(f, qs[1..], q);
    }
  }

  /** A request never consumes more than it appended; they differ only by an op whose projection ended in an error. */
  ghost predicate Honest(q: Request) {
    match q.phase
    case Arrived => q.consumed == 0 && q.appended == 0
    case Refused => q.consumed == 0 && q.appended == 0
    case Stranded => q.consumed == 0 && q.appended == 0
    case Looping(next, pending) =>
      && next <= |q.ids| && q.consumed <= next
      && (pending.Some? ==> next < |q.ids|)
      && q.appended == q.consumed + if pending == Some(AppliedNow) then 1 else 0
    case Finished(projectionFailed, _) =>
      && q.consumed <= |q.ids|
      && q.appended == q.consumed + if projectionFailed then 1 else 0
  }

  ghost predicate Balanced(s0: State, s: State) {
    && s.usage == s0.usage + Sum(Held, s.requests) && s.usage <= SYNC_EVENT_MONTHLY_CAP
    && |s.logged| == |s0.logged| + Sum(Appended, s.requests)
    && forall i :: 0 <= i < |s.requests| ==> Honest(s.requests[i])
  }

  lemma RequestStepBalanced(s: State, q: Request, e: Event)
    requires Honest(q) && Held(q) <= s.usage <= SYNC_EVENT_MONTHLY_CAP
    ensures var (usage, logged, q') := RequestStep(s, q, e);
            && Honest(q') && usage <= SYNC_EVENT_MONTHLY_CAP
            && usage - Held(q') == s.usage - Held(q)
            && |logged| - Appended(q') == |s.logged| - Appended(q)
  {
  }

  lemma StepBalanced(s0: State, s: State, e: Event)
    requires Balanced(s0, s)
    ensures Balanced(s0, Step(s, e))
  {
    if e.Arrive? {
      var q := Request(e.ids, Arrived, 0, 0);
      SumAppend(Held, s.requests, q);
      SumAppend(Appended, s.requests, q);
    } else if e.request < |s.requests| {
      var q := s.requests[e.request];
      var (_, _, q') := RequestStep(s, q, e);
      SumUpdate(Held, s.requests, e.request, q');
      SumUpdate(Appended, s.requests, e.request, q');
      RequestStepBalanced(s, q, e);
    }
  }

  /**
   * Quota conservation over every interleaving: the counter is what running pushes
   * hold plus what finished ones consumed, never above the cap; and the log grew by
   * exactly the rows the requests count as newly appended.
   */
  lemma {:induction false} QuotaConserved(s0: State, events: seq<Event>)
    requires s0.requests == [] && s0.usage <= SYNC_EVENT_MONTHLY_CAP
    ensures Balanced(s0, Run(s0, events))
    decreases |events|
  {
    if events != [] {
      QuotaConserved(s0, events[..|events| - 1]);
      StepBalanced(s0, Run(s0, events[..|events| - 1]), events[|events| - 1]);
    }
  }

  predicate Settled(q: Request) {
    q.phase.Refused? || q.phase.Stranded? || q.phase.Finished?
  }

  /** A new row whose projection ended in an error, whether it took effect or not, is not charged for. */
  function Uncharged(q: Request): nat {
    if q.phase.Finished? && q.phase.projectionFailed then 1 else 0
  }

  /** Charged for good with no row to show: a reservation that was misreported, or a release that was lost. */
  function Excess(q: Request): nat {
    match q.phase
    case Stranded => |q.ids|
    case Finished(_, released) => if released || q.consumed >= |q.ids| then 0 else |q.ids| - q.consumed
    case _ => 0
  }

  lemma {:induction false} SettledSums(qs: seq<Request>)
    requires forall i :: 0 <= i < |qs| ==> Settled(qs[i]) && Honest(qs[i])
    ensures Sum(Appended, qs) + Sum(Excess, qs) == Sum(Held, qs) + Sum(Uncharged, qs)
  {
    if qs != [] {
      SettledSums(qs[1..]);
    }
  }

  /**
   * Once every push has ended, the month was charged for each new log row, except the
   * one row of each push whose projection reported an error, and beyond that for exactly what
   * misreported reservations and lost releases left behind. With neither, usage equals
   * the rows appended exactly when no projection failed.
   */
  lemma UsageIsNewRows(s0: State, events: seq<Event>)
    requires s0.requests == [] && s0.usage <= SYNC_EVENT_MONTHLY_CAP
    requires forall i :: 0 <= i < |Run(s0, events).requests| ==> Settled(Run(s0, events).requests[i])
    ensures var s := Run(s0, events);
            var (charged, rows) := (s.usage - s0.usage, |s.logged| - |s0.logged|);
            && charged + Sum(Uncharged, s.requests) == rows + Sum(Excess, s.requests)
            && (charged <= rows <==> Sum(Excess, s.requests) <= Sum(Uncharged, s.requests))
            && (Sum(Excess, s.requests) == 0 ==>
                  (charged == rows <==> forall i :: 0 <= i < |s.requests| ==> Uncharged(s.requests[i]) == 0))
  {
    QuotaConserved(s0, events);
    SettledSums(Run(s0, events).requests);
    SumZero(Run(s0, events).requests);
  }

  lemma {:induction false} SumZero(qs: seq<Request>)
    ensures Sum(Uncharged, qs) == 0 <==> forall i :: 0 <= i < |qs| ==> Uncharged(qs[i]) == 0
  {
    if qs != [] {
      SumZero(qs[1..]);
      assert forall i :: 0 < i < |qs| ==> qs[i] == qs[1..][i - 1];
      assert forall i :: 0 <= i < |qs[1..]| ==> qs[1..][i] == qs[i + 1];
    }
  }

  // ---- one request that is charged too much --------------------------------

  /** A request carrying one op, from its arrival on. */
  function Alone(usage: nat, logged: set<string>, id: string, rest: seq<Event>): State {
    Run(State(usage, logged, []), [Arrive([id])] + rest)
  }

  lemma {:induction false} RunMore(s: State, events: seq<Event>, more: seq<Event>)
    ensures Run(s, events + more) == Run(Run(s, events), more)
    decreases |more|
  {
    if more == [] {
      assert events + more == events;
    } else {
      var all := events + more;
      assert all[..|all| - 1] == events + more[..|more| - 1];
      RunMore(s, events, more[..|more| - 1]);
    }
  }

  lemma RunOne(s: State, e: Event, rest: seq<Event>)
    ensures Run(s, [e] + rest) == Run(Step(s, e), rest)
  {
    RunMore(s, [e], rest);
    assert [e][..0] == [];
  }

  /** A reservation that is made and reported as failed: no row, and one event charged. */
  lemma MisreportedReservationIsCharged(usage: nat, logged: set<string>, id: string)
    requires usage < SYNC_EVENT_MONTHLY_CAP
    ensures var s := Alone(usage, logged, id, [Reserve(0, LandsButErrs)]);
            && s.usage == usage + 1 && s.logged == logged
            && |s.requests| == 1 && Settled(s.requests[0]) && Excess(s.requests[0]) == 1
  {
    var s0 := State(usage, logged, []);
    RunOne(s0, Arrive([id]), [Reserve(0, LandsButErrs)]);
    RunOne(Step(s0, Arrive([id])), Reserve(0, LandsButErrs), []);
    assert [Reserve(0, LandsButErrs)] + [] == [Reserve(0, LandsButErrs)];
  }

  /** An op that was logged before, and the release of its reservation lost: no new row, and one event charged. */
  lemma LostReleaseIsCharged(usage: nat, logged: set<string>, id: string)
    requires usage < SYNC_EVENT_MONTHLY_CAP && id in logged
    ensures var s := Alone(usage, logged, id, [Reserve(0, Succeeds), AppendNext(0), ProjectNext(0), Close(0, Fails)]);
            && s.usage == usage + 1 && s.logged == logged
            && |s.requests| == 1 && Settled(s.requests[0]) && Excess(s.requests[0]) == 1
  {
    var s0 := State(usage, logged, []);
    var (e1, e2, e3, e4) := (Reserve(0, Succeeds), AppendNext(0), ProjectNext(0), Close(0, Fails));
    hide Step;
    RunOne(s0, Arrive([id]), [e1, e2, e3, e4]);
    var s1 := Step(s0, Arrive([id]));
    assert [e1, e2, e3, e4] == [e1] + [e2, e3, e4];
    RunOne(s1, e1, [e2, e3, e4]);
    assert [e2, e3, e4] == [e2] + [e3, e4] && [e3, e4] == [e3] + [e4] && [e4] == [e4] + [];
    RunOne(Step(s1, e1), e2, [e3, e4]);
    RunOne(Step(Step(s1, e1), e2), e3, [e4]);
    RunOne(Step(Step(Step(s1, e1), e2), e3), e4, []);
    FourSteps(s0, id);
  }

  lemma FourSteps(s0: State, id: string)
    requires s0.requests == [] && id in s0.logged && s0.usage < SYNC_EVENT_MONTHLY_CAP
    ensures var s := Step(Step(Step(Step(Step(s0, Arrive([id])), Reserve(0, Succeeds)), AppendNext(0)), ProjectNext(0)),
                          Close(0, Fails));
            s == State(s0.usage + 1, s0.logged, [Request([id], Finished(false, false), 0, 0)])
  {
    var s1 := Step(s0, Arrive([id]));
    assert s1.requests == [Request([id], Arrived, 0, 0)];
    var s2 := Step(s1, Reserve(0, Succeeds));
    assert s2 == State(s0.usage + 1, s0.logged, [Request([id], Looping(0, None), 0, 0)]);
    var s3 := Step(s2, AppendNext(0));
    assert s3 == State(s0.usage + 1, s0.logged, [Request([id], Looping(0, Some(Duplicate)), 0, 0)]);
    var s4 := Step(s3, ProjectNext(0));
    assert s4 == State(s0.usage + 1, s0.logged, [Request([id], Looping(1, None), 0, 0)]);
  }
}

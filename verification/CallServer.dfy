/** The handle store with its five dictionaries, and the two batch handlers over it. */
module CallServer {
  import opened Common
  import opened Calls
  import opened CallSafety

  const MAX_RECIPIENTS := 5

  datatype PlanRequest = PlanRequest(batchId: string, recipients: seq<CallRecipient>, dryRun: bool, trigger: string)

  datatype RunRecipient = RunRecipient(contactId: string, confirmHandle: string)

  datatype RunRequest = RunRequest(batchId: string, correlationId: string, recipients: seq<RunRecipient>, attempt: nat)

  datatype PlanResponse = PlanRefused | PlanRows(results: seq<PlanResult>)

  datatype RunResponse = RunRefused | KillSwitchOn | RunRows(results: seq<RunResult>, needsHuman: bool)

  // ---- the handlers on values ----------------------------------------------

  function RunOne(st: Store, pair: Pair, handle: string, s: Settings, retry: bool, correlationId: string,
                  raw: Option<string>)
    : (Store, RunResult)
  {
    match BeginRun(st, pair, handle, s, retry)
    case Answer(result) => (st, result)
    case Dial(snap) => FinishRun(st, pair, retry, snap, correlationId, raw)
  }

  /** `tokens` are the handles drawn, one per recipient. */
  function PlanAll(st: Store, q: PlanRequest, s: Settings, tokens: seq<string>, k: nat): (Store, seq<PlanResult>)
    requires k <= |q.recipients| == |tokens|
    decreases |q.recipients| - k
  {
    if k == |q.recipients| then (st, [])
    else
      var (st1, row) := PlanRow(st, q.batchId, q.recipients[k], s, q.dryRun, q.trigger, tokens[k]);
      var (st2, rows) := PlanAll(st1, q, s, tokens, k + 1);
      (st2, [row] + rows)
  }

  /** `raws` are the answers of the creates, one per recipient; unused where no create is made. */
  function RunAll(st: Store, q: RunRequest, s: Settings, raws: seq<Option<string>>, k: nat): (Store, seq<RunResult>)
    requires k <= |q.recipients| == |raws|
    decreases |q.recipients| - k
  {
    if k == |q.recipients| then (st, [])
    else
      var r := q.recipients[k];
      var (st1, row) :=
          RunOne(st, Pair(q.batchId, r.contactId), r.confirmHandle, s, q.attempt == 1, q.correlationId, raws[k]);
      var (st2, rows) := RunAll(st1, q, s, raws, k + 1);
      (st2, [row] + rows)
  }

  predicate SizeAllowed(n: nat) {
    1 <= n <= MAX_RECIPIENTS
  }

  // ---- the store -----------------------------------------------------------

  class InMemoryConfirmHandleStore {
    var snapshots: map<Pair, PlanSnapshot>
    var runIds: map<Pair, string>
    var retryRunIds: map<Pair, string>
    var runMasks: map<string, string>
    var runContexts: map<string, RunContext>

    ghost function View(): Store
      reads this
    {
      Store(snapshots, runIds, retryRunIds, runMasks, runContexts)
    }

    constructor ()
      ensures View() == INITIAL.store
    {
      snapshots, runIds, retryRunIds, runMasks, runContexts := map[], map[], map[], map[], map[];
    }

    /** What the store answers for a pair. */
    ghost function Plan(pair: Pair): Option<PlanSnapshot>
      reads this`snapshots
    {
      Lookup(snapshots, pair)
    }

    /** The pair is answered with this plan, whatever it had before; no other pair's plan changes. */
    method Put(pair: Pair, snapshot: PlanSnapshot)
      modifies `snapshots
      ensures Plan(pair) == Some(snapshot)
      ensures forall other :: other != pair ==> Plan(other) == old(Plan(other))
      ensures snapshots == old(snapshots)[pair := snapshot]
    {
      snapshots := snapshots[pair := snapshot];
    }

    /** The pair has no plan any more, whether or not it had one; no other pair's plan changes. */
    method Delete(pair: Pair)
      modifies `snapshots
      ensures Plan(pair).None?
      ensures forall other :: other != pair ==> Plan(other) == old(Plan(other))
      ensures snapshots == old(snapshots) - {pair}
    {
      snapshots := snapshots - {pair};
    }

    method PutRunId(pair: Pair, runId: string)
      modifies `runIds
      ensures runIds == old(runIds)[pair := runId]
    {
      runIds := runIds[pair := runId];
    }

    method PutRetryRunId(pair: Pair, runId: string)
      modifies `retryRunIds
      ensures retryRunIds == old(retryRunIds)[pair := runId]
    {
      retryRunIds := retryRunIds[pair := runId];
    }

    method PutRunMask(runId: string, phoneMasked: string)
      modifies `runMasks
      ensures runMasks == old(runMasks)[runId := phoneMasked]
    {
      runMasks := runMasks[runId := phoneMasked];
    }

    method PutRunContext(runId: string, context: RunContext)
      modifies `runContexts
      ensures runContexts == old(runContexts)[runId := context]
    {
      runContexts := runContexts[runId := context];
    }

    method PlanOne(q: PlanRequest, r: CallRecipient, s: Settings, token: string) returns (row: PlanResult)
      modifies this
      ensures (View(), row) == PlanRow(old(View()), q.batchId, r, s, q.dryRun, q.trigger, token)
    {
      var pair := Pair(q.batchId, r.contactId);
      var gate := Gate(r.phone, r.region, r.doNotCall, s);
      if gate.Some? {
        Delete(pair);
        return Rejected(gate.value);
      }
      if q.dryRun {
        return DryRun;
      }
      if !s.allowDial {
        Delete(pair);
        return Rejected(KillSwitch);
      }
      Put(pair, SnapshotOf(r, q.trigger, token));
      return Planned(token);
    }

    method RunRow(pair: Pair, handle: string, s: Settings, retry: bool, correlationId: string, raw: Option<string>)
      returns (row: RunResult)
      modifies this
      ensures (View(), row) == RunOne(old(View()), pair, handle, s, retry, correlationId, raw)
    {
      hide Gate, MaskE164;
      if retry {
        if pair in retryRunIds && retryRunIds[pair] != "" {
          return SkippedDuplicate(retryRunIds[pair]);
        }
        if pair !in runIds {
          return RunRejected(InvalidHandle);
        }
      } else if pair in runIds && runIds[pair] != "" {
        return SkippedDuplicate(runIds[pair]);
      }
      if pair !in snapshots || !TokenMatches(snapshots[pair].token, handle) {
        return RunRejected(InvalidHandle);
      }
      var snapshot := snapshots[pair];
      var gate := SnapshotGate(snapshot, s);
      if gate.Some? {
        return RunRejected(gate.value);
      }
      if !Created(raw) {
        return Failed;
      }
      if retry {
        PutRetryRunId(pair, raw.value);
      } else {
        PutRunId(pair, raw.value);
      }
      PutRunMask(raw.value, MaskE164(snapshot.phone));
      PutRunContext(raw.value, RunContext(pair.batchId, correlationId));
      Delete(pair);
      return Queued(raw.value);
    }

    method PlanBatch(q: PlanRequest, s: Settings, tokens: seq<string>) returns (response: PlanResponse)
      requires |tokens| == |q.recipients|
      modifies this
      ensures !(1 <= |q.recipients| <= 5) ==> response == PlanRefused && View() == old(View())
      ensures 1 <= |q.recipients| <= 5 ==>
                response.PlanRows? && (View(), response.results) == PlanAll(old(View()), q, s, tokens, 0)
                && |response.results| == |q.recipients|
    {
      if !SizeAllowed(|q.recipients|) {
        return PlanRefused;
      }
      hide PlanRow;
      var results: seq<PlanResult> := [];
      assert results + PlanAll(View(), q, s, tokens, 0).1 == PlanAll(View(), q, s, tokens, 0).1;
      for k := 0 to |q.recipients|
        invariant |results| == k
        invariant var (st, rows) := PlanAll(View(), q, s, tokens, k);
                  PlanAll(old(View()), q, s, tokens, 0) == (st, results + rows)
      {
        var row := PlanOne(q, q.recipients[k], s, tokens[k]);
        assert results + ([row] + PlanAll(View(), q, s, tokens, k + 1).1)
               == results + [row] + PlanAll(View(), q, s, tokens, k + 1).1;
        results := results + [row];
      }
      assert results + [] == results;
      return PlanRows(results);
    }

    method RunBatch(q: RunRequest, s: Settings, raws: seq<Option<string>>) returns (response: RunResponse)
      requires |raws| == |q.recipients|
      modifies this
      ensures !(1 <= |q.recipients| <= 5) || q.attempt >= 2 ==> response == RunRefused
      ensures 1 <= |q.recipients| <= 5 && q.attempt < 2 && !s.allowDial ==> response == KillSwitchOn
      ensures !response.RunRows? ==> View() == old(View())
      ensures 1 <= |q.recipients| <= 5 && q.attempt < 2 && s.allowDial ==>
                response.RunRows? && (View(), response.results) == RunAll(old(View()), q, s, raws, 0)
                && |response.results| == |q.recipients| && (response.needsHuman <==> Failed in response.results)
    {
      if !SizeAllowed(|q.recipients|) || q.attempt >= 2 {
        return RunRefused;
      }
      if !s.allowDial {
        return KillSwitchOn;
      }
      hide RunOne;
      var results: seq<RunResult>, needsHuman := [], false;
      assert results + RunAll(View(), q, s, raws, 0).1 == RunAll(View(), q, s, raws, 0).1;
      for k := 0 to |q.recipients|
        invariant |results| == k
        invariant needsHuman <==> Failed in results
        invariant var (st, rows) := RunAll(View(), q, s, raws, k);
                  RunAll(old(View()), q, s, raws, 0) == (st, results + rows)
      {
        var r := q.recipients[k];
        var row := RunRow(Pair(q.batchId, r.contactId), r.confirmHandle, s, q.attempt == 1, q.correlationId, raws[k]);
        assert results + ([row] + RunAll(View(), q, s, raws, k + 1).1)
               == results + [row] + RunAll(View(), q, s, raws, k + 1).1;
        needsHuman := needsHuman || row == Failed;
        results := results + [row];
      }
      assert results + [] == results;
      return RunRows(results, needsHuman);
    }
  }

  // ---- the handlers are one-step runs of the state machine ------------------

  function PlanEvents(q: PlanRequest, s: Settings, tokens: seq<string>, k: nat): seq<Event>
    requires k <= |q.recipients| == |tokens|
    decreases |q.recipients| - k
  {
    if k == |q.recipients| then []
    else [Plan(q.batchId, q.recipients[k], s, q.dryRun, q.trigger, tokens[k])] + PlanEvents(q, s, tokens, k + 1)
  }

  function RunEvents(q: RunRequest, s: Settings, raws: seq<Option<string>>, k: nat): seq<Event>
    requires k <= |q.recipients| == |raws|
    decreases |q.recipients| - k
  {
    if k == |q.recipients| then []
    else
      var r := q.recipients[k];
      [Begin(0, Pair(q.batchId, r.contactId), r.confirmHandle, s, q.attempt == 1, q.correlationId)]
      + ([Finish(0, raws[k])] + RunEvents(q, s, raws, k + 1))
  }

  lemma {:induction false} PlansAreSteps(s: System, q: PlanRequest, settings: Settings, tokens: seq<string>, k: nat)
    requires k <= |q.recipients| == |tokens| && s.pending == map[]
    ensures var events := PlanEvents(q, settings, tokens, k);
            OneStep(events) && Run(s, events).pending == map[]
              && Run(s, events).store == PlanAll(s.store, q, settings, tokens, k).0
    decreases |q.recipients| - k
  {
    hide PlanRow;
    if k < |q.recipients| {
      var e := Plan(q.batchId, q.recipients[k], settings, q.dryRun, q.trigger, tokens[k]);
      var rest := PlanEvents(q, settings, tokens, k + 1);
      RunHead(s, e, rest);
      PlansAreSteps(Step(s, e), q, settings, tokens, k + 1);
      assert ([e] + rest)[1..] == rest;
    }
  }

  lemma {:induction false} RunsAreSteps(s: System, q: RunRequest, settings: Settings, raws: seq<Option<string>>, k: nat)
    requires k <= |q.recipients| == |raws| && s.pending == map[] && settings.allowDial
    ensures var events := RunEvents(q, settings, raws, k);
            OneStep(events) && Run(s, events).pending == map[]
              && Run(s, events).store == RunAll(s.store, q, settings, raws, k).0
    decreases |q.recipients| - k
  {
    hide BeginRun, FinishRun;
    if k < |q.recipients| {
      var r := q.recipients[k];
      var begin := Begin(0, Pair(q.batchId, r.contactId), r.confirmHandle, settings, q.attempt == 1, q.correlationId);
      var finish := Finish(0, raws[k]);
      var rest := RunEvents(q, settings, raws, k + 1);
      RunHead(s, begin, [finish] + rest);
      var s1 := Step(s, begin);
      RunHead(s1, finish, rest);
      assert s1.pending.Keys <= {0};
      assert Step(s1, finish).pending == map[];
      RunsAreSteps(Step(s1, finish), q, settings, raws, k + 1);
      var events := [begin] + ([finish] + rest);
      assert events[2..] == rest && events[1] == finish;
    }
  }

  // ---- whole histories of requests -----------------------------------------

  datatype Request =
    | PlanIt(plan: PlanRequest, settings: Settings, tokens: seq<string>)
    | RunIt(run: RunRequest, settings: Settings, raws: seq<Option<string>>)

  /** One drawn handle, or one create answer, stands ready for each recipient. */
  predicate Ready(r: Request) {
    match r
    case PlanIt(q, _, tokens) => |tokens| == |q.recipients|
    case RunIt(q, _, raws) => |raws| == |q.recipients|
  }

  function Serve(st: Store, r: Request): Store
    requires Ready(r)
  {
    match r
    case PlanIt(q, s, tokens) => if SizeAllowed(|q.recipients|) then PlanAll(st, q, s, tokens, 0).0 else st
    case RunIt(q, s, raws) =>
      if SizeAllowed(|q.recipients|) && q.attempt < 2 && s.allowDial then RunAll(st, q, s, raws, 0).0 else st
  }

  function ServeAll(st: Store, rs: seq<Request>): Store
    requires forall r <- rs :: Ready(r)
    decreases |rs|
  {
    if rs == [] then st else ServeAll(Serve(st, rs[0]), rs[1..])
  }

  function EventsOf(r: Request): seq<Event>
    requires Ready(r)
  {
    match r
    case PlanIt(q, s, tokens) => if SizeAllowed(|q.recipients|) then PlanEvents(q, s, tokens, 0) else []
    case RunIt(q, s, raws) =>
      if SizeAllowed(|q.recipients|) && q.attempt < 2 && s.allowDial then RunEvents(q, s, raws, 0) else []
  }

  function AllEvents(rs: seq<Request>): seq<Event>
    requires forall r <- rs :: Ready(r)
    decreases |rs|
  {
    if rs == [] then [] else EventsOf(rs[0]) + AllEvents(rs[1..])
  }

  lemma {:induction false} RunJoin(s: System, a: seq<Event>, b: seq<Event>)
    ensures Run(s, a + b) == Run(Run(s, a), b)
    ensures OneStep(a) && OneStep(b) ==> OneStep(a + b)
    decreases |a|
  {
    hide Step;
    if a == [] {
      assert a + b == b;
    } else {
      assert (a + b)[1..] == a[1..] + b;
      RunJoin(Step(s, a[0]), a[1..], b);
      if OneStep(a) && OneStep(b) && a[0].Begin? {
        assert (a + b)[2..] == a[2..] + b && (a + b)[1] == a[1];
        RunJoin(s, a[2..], b);
      }
    }
  }

  lemma {:induction false} ServedInSteps(s: System, rs: seq<Request>)
    requires s.pending == map[] && forall r <- rs :: Ready(r)
    ensures var events := AllEvents(rs); OneStep(events) && Run(s, events).store == ServeAll(s.store, rs)
    decreases |rs|
  {
    hide PlanAll, RunAll, PlanEvents, RunEvents, Step;
    if rs != [] {
      var events := EventsOf(rs[0]);
      match rs[0] {
        case PlanIt(q, settings, tokens) => PlansAreSteps(s, q, settings, tokens, 0);
        case RunIt(q, settings, raws) => if settings.allowDial { RunsAreSteps(s, q, settings, raws, 0); }
      }
      RunJoin(s, events, AllEvents(rs[1..]));
      ServedInSteps(Run(s, events), rs[1..]);
    }
  }

  /**
   * However many plan and run requests are served one after another, each attempt of a pair
   * calls successfully once at most.
   */
  lemma RequestsCallOnce(rs: seq<Request>)
    requires forall r <- rs :: Ready(r)
    ensures var end := Run(INITIAL, AllEvents(rs));
            end.store == ServeAll(INITIAL.store, rs) && SucceedOnce(end.history) && AllJustified(end.history)
  {
    ServedInSteps(INITIAL, rs);
    OneStepSucceedsOnce(AllEvents(rs));
    EveryCreateIsJustified(AllEvents(rs));
  }
}

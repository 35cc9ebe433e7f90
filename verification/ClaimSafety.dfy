/** Any number of claims of any tokens, interleaved with every other statement on the tables. */
module ClaimSafety {
  import opened Common
  import opened DeepLink

  datatype System = System(db: Db, claims: seq<Claim>)

  datatype Event =
    | StartClaim(token: string, caller: Caller)
    | AdvanceClaim(index: nat, outcome: Outcome, now: int)
    | SupersedeInvites(workspace: string, memberId: string)
    | RevokeInvites(workspace: string, memberId: string)
    | DeleteSeat(memberId: string, workspace: string)
    | NewToken(token: string, row: Token)
    | NewSeat(memberId: string, member: Member)
    | SetMember(memberId: string, member: Member)   // any other seat write; no seat ever changes its workspace

  function Step(s: System, e: Event): System {
    match e
    case StartClaim(token, caller) => s.(claims := s.claims + [Claim(token, caller, Read)])
    case AdvanceClaim(i, o, now) =>
      if i < |s.claims| then
        var (db, c) := ClaimStep(s.db, s.claims[i], o, now);
        System(db, s.claims[i := c])
      else s
    case SupersedeInvites(w, m) => s.(db := EndInvites(s.db, w, m, Superseded))
    case RevokeInvites(w, m) => s.(db := EndInvites(s.db, w, m, Revoked))
    case DeleteSeat(m, w) => s.(db := DeletePending(s.db, m, w))
    case NewToken(t, row) => s.(db := InsertToken(s.db, t, row).0)
    case NewSeat(m, row) => if m in s.db.members then s else s.(db := s.db.(members := s.db.members[m := row]))
    case SetMember(m, row) =>
      if m in s.db.members && s.db.members[m].workspace == row.workspace
      then s.(db := s.db.(members := s.db.members[m := row]))
      else s
  }

  function Run(s: System, events: seq<Event>): System
    decreases |events|
  {
    if events == [] then s else Step(Run(s, events[..|events| - 1]), events[|events| - 1])
  }

  /** The claim has spent its token: it is binding the seat, about to undo, or has answered ok. */
  predicate Holds(c: Claim) {
    c.pc.Bind? || c.pc.Undo? || c.pc == Done(Granted)
  }

  ghost predicate HeldBy(db: Db, c: Claim) {
    && Claimer(c.caller).Some? && c.token in db.tokens
    && db.tokens[c.token].state == Claimed(Claimer(c.caller).value)
  }

  ghost predicate Safe(s: System) {
    && (forall i :: 0 <= i < |s.claims| && Holds(s.claims[i]) ==> HeldBy(s.db, s.claims[i]))
    && (forall i, j :: 0 <= i < j < |s.claims| && Holds(s.claims[i]) && Holds(s.claims[j])
          ==> s.claims[i].token != s.claims[j].token)
  }

  /** What one statement of claim i does to the token another claim holds: nothing. */
  lemma ClaimStepIsLocal(s: System, i: nat, o: Outcome, now: int)
    requires Safe(s) && i < |s.claims|
    ensures var (db', c') := ClaimStep(s.db, s.claims[i], o, now);
            && c'.token == s.claims[i].token && c'.caller == s.claims[i].caller
            && (Holds(c') ==> HeldBy(db', c'))
            && (forall j :: 0 <= j < |s.claims| && j != i && Holds(s.claims[j])
                  ==> HeldBy(db', s.claims[j]) && (Holds(c') ==> s.claims[j].token != c'.token))
  {
    var c := s.claims[i];
    forall j | 0 <= j < |s.claims| && j != i && Holds(s.claims[j])
      ensures HeldBy(s.db, s.claims[j]) && (Holds(c) ==> s.claims[j].token != c.token)
    {
      assert Holds(c) ==> if i < j then c.token != s.claims[j].token else s.claims[j].token != c.token;
    }
  }

  lemma StepIsSafe(s: System, e: Event)
    requires Safe(s)
    ensures Safe(Step(s, e))
  {
    if e.AdvanceClaim? && e.index < |s.claims| {
      ClaimStepIsLocal(s, e.index, e.outcome, e.now);
    }
  }

  lemma {:induction false} RunIsSafe(db: Db, events: seq<Event>)
    ensures Safe(Run(System(db, []), events))
    decreases |events|
  {
    if events != [] {
      RunIsSafe(db, events[..|events| - 1]);
      StepIsSafe(Run(System(db, []), events[..|events| - 1]), events[|events| - 1]);
    }
  }

  /** Whatever interleaves, no token is ever claimed successfully twice. */
  lemma AtMostOneOk(db: Db, events: seq<Event>, i: nat, j: nat)
    requires i < |Run(System(db, []), events).claims| && j < |Run(System(db, []), events).claims|
    requires Run(System(db, []), events).claims[i].pc == Done(Granted)
    requires Run(System(db, []), events).claims[j].pc == Done(Granted)
    requires Run(System(db, []), events).claims[i].token == Run(System(db, []), events).claims[j].token
    ensures i == j
  {
    RunIsSafe(db, events);
  }

  lemma {:induction false} RunSplit(s: System, a: seq<Event>, b: seq<Event>)
    ensures Run(s, a + b) == Run(Run(s, a), b)
    decreases |b|
  {
    if b == [] {
      assert a + b == a;
    } else {
      assert (a + b)[..|a + b| - 1] == a + b[..|b| - 1];
      RunSplit(s, a, b[..|b| - 1]);
    }
  }

  lemma {:induction false} ClaimsStay(s: System, events: seq<Event>, i: nat)
    requires i < |s.claims| && s.claims[i].pc.Done?
    ensures i < |Run(s, events).claims| && Run(s, events).claims[i] == s.claims[i]
    decreases |events|
  {
    if events != [] {
      ClaimsStay(s, events[..|events| - 1], i);
    }
  }

  /** Once a claim has answered ok, its token stays claimed by that claimer for ever. */
  lemma OkIsForEver(db: Db, past: seq<Event>, future: seq<Event>, i: nat)
    requires i < |Run(System(db, []), past).claims| && Run(System(db, []), past).claims[i].pc == Done(Granted)
    ensures HeldBy(Run(System(db, []), past + future).db, Run(System(db, []), past).claims[i])
  {
    RunSplit(System(db, []), past, future);
    ClaimsStay(Run(System(db, []), past), future, i);
    RunIsSafe(db, past + future);
  }

  /** Whoever asks again at any later time is told at once who has it, and nothing changes. */
  lemma AskingAgain(db: Db, past: seq<Event>, future: seq<Event>, i: nat, caller: Caller, now: int)
    requires i < |Run(System(db, []), past).claims| && Run(System(db, []), past).claims[i].pc == Done(Granted)
    ensures var (granted, later) := (Run(System(db, []), past).claims[i], Run(System(db, []), past + future).db);
            ClaimStep(later, Claim(granted.token, caller, Read), Succeeds, now)
            == (later, Claim(granted.token, caller,
                             Done(if Claimer(caller) == Claimer(granted.caller) then AlreadyByYou else AlreadyByOther)))
  {
    OkIsForEver(db, past, future, i);
    hide Run;
  }

  /** The undo tests only the state, yet the claim it takes back is always the undoer's own. */
  lemma UndoIsOwn(db: Db, events: seq<Event>, i: nat)
    requires i < |Run(System(db, []), events).claims| && Run(System(db, []), events).claims[i].pc.Undo?
    ensures HeldBy(Run(System(db, []), events).db, Run(System(db, []), events).claims[i])
  {
    RunIsSafe(db, events);
  }

  // ---- who may be granted a seat -------------------------------------------

  predicate SameOffer(a: Token, b: Token) {
    a.kind == b.kind && a.intent == b.intent && a.workspace == b.workspace
  }

  /** The caller signed in, and with the address the invite was sent to. */
  predicate IsInvitee(row: Token, c: Caller) {
    row.kind.WorkerInvite? ==>
      c.identity.Some? && row.intent.InviteIntent? && c.googleEmail == Some(row.intent.invitedEmail)
  }

  ghost predicate Vetted(db: Db, c: Claim) {
    match c.pc
    case LookUpSeat(row) => c.token in db.tokens && SameOffer(row, db.tokens[c.token]) && c.caller.identity.Some?
    case Spend(row) => c.token in db.tokens && SameOffer(row, db.tokens[c.token]) && IsInvitee(row, c.caller)
    case Bind(row) => c.token in db.tokens && SameOffer(row, db.tokens[c.token]) && IsInvitee(row, c.caller)
    case Undo => c.token in db.tokens && IsInvitee(db.tokens[c.token], c.caller)
    case Done(r) => r.Granted? ==> c.token in db.tokens && IsInvitee(db.tokens[c.token], c.caller)
    case _ => true
  }

  /** No statement rewrites what a token offers. */
  ghost predicate OffersKept(before: Db, after: Db) {
    forall t :: t in before.tokens ==> t in after.tokens && SameOffer(before.tokens[t], after.tokens[t])
  }

  lemma StepKeepsOffers(s: System, e: Event)
    ensures OffersKept(s.db, Step(s, e).db)
  {
  }

  lemma ClaimStepVetted(db: Db, c: Claim, o: Outcome, now: int)
    requires Vetted(db, c)
    ensures Vetted(ClaimStep(db, c, o, now).0, ClaimStep(db, c, o, now).1)
  {
  }

  lemma {:induction false} RunIsVetted(db: Db, events: seq<Event>)
    ensures forall i :: 0 <= i < |Run(System(db, []), events).claims|
              ==> Vetted(Run(System(db, []), events).db, Run(System(db, []), events).claims[i])
    decreases |events|
  {
    if events != [] {
      RunIsVetted(db, events[..|events| - 1]);
      var (s, e) := (Run(System(db, []), events[..|events| - 1]), events[|events| - 1]);
      StepKeepsOffers(s, e);
      if e.AdvanceClaim? && e.index < |s.claims| {
        ClaimStepVetted(s.db, s.claims[e.index], e.outcome, e.now);
      }
    }
  }

  /** A worker invite is only ever granted to a signed-in caller with the invited address. */
  lemma OnlyTheInvitee(db: Db, events: seq<Event>, i: nat)
    requires i < |Run(System(db, []), events).claims| && Run(System(db, []), events).claims[i].pc == Done(Granted)
    ensures var (end, c) := (Run(System(db, []), events), Run(System(db, []), events).claims[i]);
            c.token in end.db.tokens && IsInvitee(end.db.tokens[c.token], c.caller)
  {
    RunIsVetted(db, events);
    assert Vetted(Run(System(db, []), events).db, Run(System(db, []), events).claims[i]);
  }

  // ---- what ok does and does not say about the seat -------------------------

  predicate InWorkspace(db: Db, seat: string, workspace: string) {
    seat in db.members && db.members[seat].workspace == workspace
  }

  /** The seat is this identity's. */
  predicate Bound(db: Db, seat: string, workspace: string, identity: string) {
    InWorkspace(db, seat, workspace) && db.members[seat].active && db.members[seat].identity == Some(identity)
  }

  /** This event is a seat deletion that takes effect. */
  predicate Deletes(s: System, e: Event, seat: string) {
    e.DeleteSeat? && e.memberId == seat && InWorkspace(s.db, seat, e.workspace) && !s.db.members[seat].active
  }

  ghost predicate NeverDeleted(s: System, events: seq<Event>, seat: string) {
    forall k :: 0 <= k < |events| ==> !Deletes(Run(s, events[..k]), events[k], seat)
  }

  /** Seat ids are drawn once. */
  predicate NotDrawnAgain(events: seq<Event>, seat: string) {
    forall k :: 0 <= k < |events| ==> !(events[k].NewSeat? && events[k].memberId == seat)
  }

  lemma NeverDeletedLast(s: System, events: seq<Event>, seat: string)
    requires events != []
    ensures var prior := events[..|events| - 1];
            NeverDeleted(s, events, seat) <==>
            NeverDeleted(s, prior, seat) && !Deletes(Run(s, prior), events[|prior|], seat)
  {
    hide Run, Deletes;
    var prior := events[..|events| - 1];
    forall k | 0 <= k < |events| ensures events[..k] == prior[..k] {}
    if NeverDeleted(s, events, seat) {
      forall k | 0 <= k < |prior| ensures !Deletes(Run(s, prior[..k]), prior[k], seat) {
        assert prior[..k] == events[..k] && prior[k] == events[k];
      }
    }
  }

  lemma SeatStep(s: System, e: Event, seat: string, workspace: string)
    requires seat in s.db.members ==> s.db.members[seat].workspace == workspace
    requires !(e.NewSeat? && e.memberId == seat)
    ensures var s' := Step(s, e);
            && (seat in s'.db.members ==> s'.db.members[seat].workspace == workspace)
            && (seat in s'.db.members <==> seat in s.db.members && !Deletes(s, e, seat))
  {
  }

  /** A seat is there until it is deleted, and then it is gone. */
  lemma {:induction false} SeatStaysIff(s: System, events: seq<Event>, seat: string, workspace: string)
    requires InWorkspace(s.db, seat, workspace) && NotDrawnAgain(events, seat)
    ensures var s' := Run(s, events);
            && (seat in s'.db.members ==> s'.db.members[seat].workspace == workspace)
            && (seat in s'.db.members <==> NeverDeleted(s, events, seat))
    decreases |events|
  {
    if events != [] {
      var prior := events[..|events| - 1];
      assert Run(s, events) == Step(Run(s, prior), events[|prior|]);
      hide Run, Step, Deletes, NeverDeleted;
      SeatStaysIff(s, prior, seat, workspace);
      NeverDeletedLast(s, events, seat);
      SeatStep(Run(s, prior), events[|prior|], seat, workspace);
    }
  }

  /** A claim that went on to spend its token for this row. */
  predicate On(pc: Pc, row: Token) {
    match pc
    case Spend(r) => r == row
    case Bind(r) => r == row && row.kind.WorkerInvite?
    case Undo => true
    case Done(_) => true
    case _ => false
  }

  lemma {:induction false} RowIsKept(s: System, events: seq<Event>, i: nat, row: Token)
    requires i < |s.claims| && On(s.claims[i].pc, row)
    ensures var s' := Run(s, events);
            i < |s'.claims| && On(s'.claims[i].pc, row) && s'.claims[i].caller == s.claims[i].caller
    decreases |events|
  {
    if events != [] {
      RowIsKept(s, events[..|events| - 1], i, row);
    }
  }

  /**
   * The activation write does not check its row count. A claim that found its seat,
   * spent its token and answers ok has that seat exactly when no deletion of the seat
   * took effect between its look-up and its activation.
   */
  lemma GrantBindsSeatIff(db: Db, past: seq<Event>, between: seq<Event>, i: nat, now: int)
    requires i < |Run(System(db, []), past).claims|
    requires var (s, c) := (Run(System(db, []), past), Run(System(db, []), past).claims[i]);
             && c.pc.LookUpSeat? && MayBind(s.db, c.pc.row, c.caller)
             && NotDrawnAgain(between, c.pc.row.intent.memberId)
             && i < |Run(Step(s, AdvanceClaim(i, Succeeds, now)), between).claims|
             && Run(Step(s, AdvanceClaim(i, Succeeds, now)), between).claims[i].pc.Bind?
    ensures var (s, c) := (Run(System(db, []), past), Run(System(db, []), past).claims[i]);
            var found := Step(s, AdvanceClaim(i, Succeeds, now));
            var end := Step(Run(found, between), AdvanceClaim(i, Succeeds, now));
            && end.claims[i].pc == Done(Granted) && c.caller.identity.Some? && c.pc.row.workspace.Some?
            && (Bound(end.db, c.pc.row.intent.memberId, c.pc.row.workspace.value, c.caller.identity.value)
                <==> NeverDeleted(found, between, c.pc.row.intent.memberId))
  {
    var s := Run(System(db, []), past);
    var row := s.claims[i].pc.row;
    RunIsVetted(db, past);
    assert Vetted(s.db, s.claims[i]);
    var found := Step(s, AdvanceClaim(i, Succeeds, now));
    SeatStaysIff(found, between, row.intent.memberId, row.workspace.value);
    RowIsKept(found, between, i, row);
    hide Run, NeverDeleted, Vetted;
  }

  /** A revoke that slips in after the token is spent leaves an ok claim without a seat. */
  lemma OkWithoutSeat(seat: string, workspace: string, email: string, token: string, identity: string)
    requires email != ""
    ensures var row := Token(WorkerInvite, InviteIntent(seat, email), Some(workspace), Active, 1);
            var db := Db({workspace}, map[token := row],
                         map[seat := Member(workspace, Some(email), Viewer, false, 1, None)]);
            var events := [StartClaim(token, Caller(Some(identity), None, Some(email))),
                           AdvanceClaim(0, Succeeds, 0), AdvanceClaim(0, Succeeds, 0), AdvanceClaim(0, Succeeds, 0),
                           RevokeInvites(workspace, seat), DeleteSeat(seat, workspace), AdvanceClaim(0, Succeeds, 0)];
            var end := Run(System(db, []), events);
            |end.claims| == 1 && end.claims[0].pc == Done(Granted) && seat !in end.db.members
  {
    var row := Token(WorkerInvite, InviteIntent(seat, email), Some(workspace), Active, 1);
    var caller := Caller(Some(identity), None, Some(email));
    var db := Db({workspace}, map[token := row], map[seat := Member(workspace, Some(email), Viewer, false, 1, None)]);
    var events := [StartClaim(token, caller),
                   AdvanceClaim(0, Succeeds, 0), AdvanceClaim(0, Succeeds, 0), AdvanceClaim(0, Succeeds, 0),
                   RevokeInvites(workspace, seat), DeleteSeat(seat, workspace), AdvanceClaim(0, Succeeds, 0)];
    UpToSpent(seat, workspace, email, token, identity);
    hide Run;
    SevenSteps(System(db, []), events);
    var s4 := Step(Step(Step(Step(System(db, []), events[0]), events[1]), events[2]), events[3]);
    RevokedThenBound(s4, seat, workspace, Claim(token, caller, Bind(row)));
  }

  /** The first four statements of that run: the token is spent, the seat not yet bound. */
  lemma UpToSpent(seat: string, workspace: string, email: string, token: string, identity: string)
    requires email != ""
    ensures var row := Token(WorkerInvite, InviteIntent(seat, email), Some(workspace), Active, 1);
            var members := map[seat := Member(workspace, Some(email), Viewer, false, 1, None)];
            var (caller, go) := (Caller(Some(identity), None, Some(email)), AdvanceClaim(0, Succeeds, 0));
            var s4 := Step(Step(Step(Step(System(Db({workspace}, map[token := row], members), []),
                                          StartClaim(token, caller)), go), go), go);
            s4.claims == [Claim(token, caller, Bind(row))] && s4.db.members == members
  {
    var row := Token(WorkerInvite, InviteIntent(seat, email), Some(workspace), Active, 1);
    var members := map[seat := Member(workspace, Some(email), Viewer, false, 1, None)];
    var (caller, go) := (Caller(Some(identity), None, Some(email)), AdvanceClaim(0, Succeeds, 0));
    var db := Db({workspace}, map[token := row], members);
    var s1 := Step(System(db, []), StartClaim(token, caller));
    assert s1 == System(db, [Claim(token, caller, Read)]);
    var s2 := Step(s1, go);
    assert s2 == System(db, [Claim(token, caller, LookUpSeat(row))]);
    var s3 := Step(s2, go);
    assert s3 == System(db, [Claim(token, caller, Spend(row))]);
  }

  /** The last three: both revoke writes, and then the activation that finds no seat. */
  lemma RevokedThenBound(s4: System, seat: string, workspace: string, c: Claim)
    requires s4.claims == [c] && c.pc.Bind? && c.caller.identity.Some? && c.pc.row.workspace == Some(workspace)
    requires c.pc.row.intent.InviteIntent? && c.pc.row.intent.memberId == seat
    requires InWorkspace(s4.db, seat, workspace) && !s4.db.members[seat].active
    ensures var end :=
            Step(Step(Step(s4, RevokeInvites(workspace, seat)), DeleteSeat(seat, workspace)),
                 AdvanceClaim(0, Succeeds, 0));
            |end.claims| == 1 && end.claims[0].pc == Done(Granted) && seat !in end.db.members
  {
    var s5 := Step(s4, RevokeInvites(workspace, seat));
    assert s5.claims == s4.claims && s5.db.members == s4.db.members;
    var s6 := Step(s5, DeleteSeat(seat, workspace));
    assert s6.claims == s4.claims && seat !in s6.db.members;
  }

  lemma SevenSteps(s: System, events: seq<Event>)
    requires |events| == 7
    ensures Run(s, events)
            == Step(Step(Step(Step(Step(Step(Step(s, events[0]), events[1]), events[2]), events[3]), events[4]),
                         events[5]), events[6])
  {
    assert events[..7] == events && events[..0] == [];
    forall k: nat | k < 7
      ensures events[..k + 1][..k] == events[..k] && Run(s, events[..k + 1]) == Step(Run(s, events[..k]), events[k])
    {
      assert events[..k + 1][..k] == events[..k];
    }
  }
}

/**
 * What a claim answers: a grant only within the token's time, over all interleavings, and
 * for a claim that runs alone its answer and the tables it leaves, for every starting state.
 */
module ClaimAnswers {
  import opened Common
  import opened DeepLink
  import opened ClaimSafety
  import SeatConsistency

  // ---- in time -------------------------------------------------------------

  /** Claim i reads its token's row with this event, and finds it active and not past its time. */
  predicate ReadsInTime(s: System, e: Event, i: nat) {
    && e.AdvanceClaim? && e.index == i && i < |s.claims| && s.claims[i].pc == Read
    && s.claims[i].token in s.db.tokens
    && s.db.tokens[s.claims[i].token].state == Active && e.now <= s.db.tokens[s.claims[i].token].expiresAt
  }

  ghost predicate WasReadInTime(s: System, events: seq<Event>, i: nat) {
    exists k :: 0 <= k < |events| && ReadsInTime(Run(s, events[..k]), events[k], i)
  }

  /** The claim got past its read. */
  predicate GotPastRead(c: Claim) {
    c.pc.LookUpSeat? || c.pc.Spend? || c.pc.Bind? || c.pc.Undo? || c.pc == Done(Granted)
  }

  lemma StepGetsPast(s: System, e: Event, i: nat)
    requires i < |Step(s, e).claims| && GotPastRead(Step(s, e).claims[i])
    ensures ReadsInTime(s, e, i) || (i < |s.claims| && GotPastRead(s.claims[i]))
  {
  }

  lemma ReadEarlier(s: System, events: seq<Event>, i: nat)
    requires events != []
    ensures WasReadInTime(s, events[..|events| - 1], i) ==> WasReadInTime(s, events, i)
    ensures ReadsInTime(Run(s, events[..|events| - 1]), events[|events| - 1], i) ==> WasReadInTime(s, events, i)
  {
    hide ReadsInTime, Run;
    var prior := events[..|events| - 1];
    if k: nat :| k < |prior| && ReadsInTime(Run(s, prior[..k]), prior[k], i) {
      assert prior[..k] == events[..k] && prior[k] == events[k];
    }
  }

  lemma {:induction false} RunGetsPast(db: Db, events: seq<Event>, i: nat)
    requires i < |Run(System(db, []), events).claims| && GotPastRead(Run(System(db, []), events).claims[i])
    ensures WasReadInTime(System(db, []), events, i)
    decreases |events|
  {
    var s0 := System(db, []);
    if events != [] {
      var prior := events[..|events| - 1];
      assert Run(s0, events) == Step(Run(s0, prior), events[|prior|]);
      hide Run, Step, GotPastRead, WasReadInTime, ReadsInTime;
      StepGetsPast(Run(s0, prior), events[|prior|], i);
      ReadEarlier(s0, events, i);
      if !ReadsInTime(Run(s0, prior), events[|prior|], i) {
        RunGetsPast(db, prior, i);
      }
    }
  }

  /** Whatever interleaves, a claim is granted only if it read its token active and not past its time. */
  lemma GrantedInTime(db: Db, events: seq<Event>, i: nat)
    requires i < |Run(System(db, []), events).claims| && Run(System(db, []), events).claims[i].pc == Done(Granted)
    ensures WasReadInTime(System(db, []), events, i)
  {
    RunGetsPast(db, events, i);
  }

  // ---- a claim that runs alone ---------------------------------------------

  /** Who is claiming: the signed-in identity, else the device. */
  function Who(c: Caller): Option<string> {
    match c.identity
    case Some(_) => c.identity
    case None => c.deviceHash
  }

  /** The seat of the invite is there, in its workspace, for the invited address, and that is the caller's. */
  predicate MayHaveSeat(db: Db, row: Token, c: Caller) {
    && c.identity.Some? && row.intent.InviteIntent?
    && row.intent.memberId in db.members
    && row.workspace == Some(db.members[row.intent.memberId].workspace)
    && db.members[row.intent.memberId].email == Some(row.intent.invitedEmail)
    && row.intent.invitedEmail != "" && c.googleEmail == Some(row.intent.invitedEmail)
  }

  function WithState(db: Db, token: string, state: TokenState): Db
    requires token in db.tokens
  {
    db.(tokens := db.tokens[token := db.tokens[token].(state := state)])
  }

  function WithSeat(db: Db, seat: string, identity: string): Db
    requires seat in db.members
  {
    db.(members := db.members[seat := db.members[seat].(active := true, identity := Some(identity))])
  }

  /** The answer to a claim that meets the tables alone, and the tables afterwards. */
  function Answer(db: Db, token: string, c: Caller, now: int): (Db, ClaimResult) {
    if token !in db.tokens then (db, NotFound)
    else
      var row := db.tokens[token];
      match row.state
      case Expired => (db, ResultExpired)
      case Revoked => (db, ResultRevoked)
      case Superseded => (db, ResultRevoked)
      case Claimed(holder) => (db, if Who(c) == Some(holder) then AlreadyByYou else AlreadyByOther)
      case Active =>
        if row.expiresAt < now then (WithState(db, token, Expired), ResultExpired)
        else if Who(c).None? then (db, NotFound)
        else if !row.kind.WorkerInvite? then (WithState(db, token, Claimed(Who(c).value)), Granted)
        else if !MayHaveSeat(db, row, c) then (db, NotFound)
        else
          (WithSeat(WithState(db, token, Claimed(c.identity.value)), row.intent.memberId, c.identity.value), Granted)
  }

  /** Enough statements, and all of them succeed. */
  predicate AllSucceed(outcomes: seq<Outcome>) {
    |outcomes| >= 5 && forall i :: 0 <= i < |outcomes| ==> outcomes[i] == Succeeds
  }

  function Steps(db: Db, c: Claim, n: nat, now: int): (Db, Claim)
    decreases n
  {
    if n == 0 then (db, c)
    else var (db1, c1) := Steps(db, c, n - 1, now); ClaimStep(db1, c1, Succeeds, now)
  }

  lemma {:induction false} AloneSteps(db: Db, c: Claim, outcomes: seq<Outcome>, now: int)
    requires forall i :: 0 <= i < |outcomes| ==> outcomes[i] == Succeeds
    ensures SeatConsistency.ClaimAlone(db, c, outcomes, now) == Steps(db, c, |outcomes|, now)
    decreases |outcomes|
  {
    hide ClaimStep;
    if outcomes != [] {
      AloneSteps(db, c, outcomes[..|outcomes| - 1], now);
    }
  }

  lemma DoneStep(db: Db, c: Claim, o: Outcome, now: int)
    requires c.pc.Done?
    ensures ClaimStep(db, c, o, now) == (db, c)
  {
  }

  lemma {:induction false} DoneStays(db: Db, c: Claim, k: nat, n: nat, now: int)
    requires k <= n && Steps(db, c, k, now).1.pc.Done?
    ensures Steps(db, c, n, now) == Steps(db, c, k, now)
    decreases n
  {
    hide ClaimStep;
    if k < n {
      DoneStays(db, c, k, n - 1, now);
      DoneStep(Steps(db, c, k, now).0, Steps(db, c, k, now).1, Succeeds, now);
    }
  }

  lemma UpToFour(db: Db, c: Claim, now: int)
    ensures var (db1, c1) := ClaimStep(db, c, Succeeds, now);
            var (db2, c2) := ClaimStep(db1, c1, Succeeds, now);
            var (db3, c3) := ClaimStep(db2, c2, Succeeds, now);
            && Steps(db, c, 1, now) == (db1, c1) && Steps(db, c, 2, now) == (db2, c2)
            && Steps(db, c, 3, now) == (db3, c3) && Steps(db, c, 4, now) == ClaimStep(db3, c3, Succeeds, now)
  {
    hide ClaimStep;
    assert Steps(db, c, 0, now) == (db, c);
    assert Steps(db, c, 1, now) == ClaimStep(db, c, Succeeds, now);
  }

  lemma FourStepsAnswer(db: Db, token: string, caller: Caller, now: int)
    ensures var (db', result) := Answer(db, token, caller, now);
            Steps(db, Claim(token, caller, Read), 4, now) == (db', Claim(token, caller, Done(result)))
  {
    UpToFour(db, Claim(token, caller, Read), now);
  }

  /**
   * A claim that runs alone with all its statements succeeding: its answer, and the tables it
   * leaves, for every state its token may be in, or none.
   */
  lemma LoneClaimIs(db: Db, token: string, caller: Caller, outcomes: seq<Outcome>, now: int)
    requires AllSucceed(outcomes)
    ensures var (db', result) := Answer(db, token, caller, now);
            SeatConsistency.ClaimAlone(db, Claim(token, caller, Read), outcomes, now)
            == (db', Claim(token, caller, Done(result)))
  {
    AloneSteps(db, Claim(token, caller, Read), outcomes, now);
    FourStepsAnswer(db, token, caller, now);
    DoneStays(db, Claim(token, caller, Read), 4, |outcomes|, now);
    hide Answer, Steps;
  }

  // ---- one invite per seat -------------------------------------------------

  lemma StepKeepsOneInvite(s: System, e: Event)
    requires SeatConsistency.OneInvitePerSeat(s.db)
    ensures SeatConsistency.OneInvitePerSeat(Step(s, e).db)
  {
    var db' := Step(s, e).db;
    forall t, u, m | SeatConsistency.ActiveInviteTo(db', t, m) && SeatConsistency.ActiveInviteTo(db', u, m)
      ensures t == u
    {
      assert SeatConsistency.ActiveInviteTo(s.db, t, m) || !SeatConsistency.ActiveInviteTo(s.db, t, m);
      assert SeatConsistency.ActiveInviteTo(s.db, u, m) || !SeatConsistency.ActiveInviteTo(s.db, u, m);
    }
  }

  /** Over all interleavings no seat ever has two active invites, whatever is inserted, ended or given back. */
  lemma {:induction false} OneInviteAlways(db: Db, events: seq<Event>)
    requires SeatConsistency.OneInvitePerSeat(db)
    ensures SeatConsistency.OneInvitePerSeat(Run(System(db, []), events).db)
    decreases |events|
  {
    hide Step, SeatConsistency.OneInvitePerSeat;
    if events != [] {
      OneInviteAlways(db, events[..|events| - 1]);
      StepKeepsOneInvite(Run(System(db, []), events[..|events| - 1]), events[|events| - 1]);
    }
  }

  // ---- what a caller is shown ----------------------------------------------

  /** Callers who are not signed in are told "revoked" instead of "not found". */
  function Shown(result: ClaimResult, c: Caller): ClaimResult {
    if c.identity.None? && result.NotFound? then ResultRevoked else result
  }

  /** Whoever is not signed in cannot tell a token that was revoked or superseded from one that never was. */
  lemma AnonymousCannotTell(db: Db, missing: string, ended: string, c: Caller, outcomes: seq<Outcome>, now: int)
    requires c.identity.None? && missing !in db.tokens && AllSucceed(outcomes)
    requires ended in db.tokens && db.tokens[ended].state in {Revoked, Superseded}
    ensures var (db1, claim1) := SeatConsistency.ClaimAlone(db, Claim(missing, c, Read), outcomes, now);
            var (db2, claim2) := SeatConsistency.ClaimAlone(db, Claim(ended, c, Read), outcomes, now);
            && db1 == db2 == db && claim1.pc.Done? && claim2.pc.Done?
            && Shown(claim1.pc.result, c) == Shown(claim2.pc.result, c) == ResultRevoked
  {
    LoneClaimIs(db, missing, c, outcomes, now);
    LoneClaimIs(db, ended, c, outcomes, now);
    hide SeatConsistency.ClaimAlone;
  }

  // ---- a claim whose activation fails --------------------------------------

  /** The activation fails, and the token is given back. */
  predicate ActivationFails(outcomes: seq<Outcome>) {
    outcomes == [Succeeds, Succeeds, Succeeds, Fails, Succeeds]
  }

  lemma FiveOutcomes(db: Db, c: Claim, outcomes: seq<Outcome>, now: int)
    requires ActivationFails(outcomes)
    ensures var (db3, c3) := Steps(db, c, 3, now);
            var (db4, c4) := ClaimStep(db3, c3, Fails, now);
            SeatConsistency.ClaimAlone(db, c, outcomes, now) == ClaimStep(db4, c4, Succeeds, now)
  {
    hide ClaimStep;
    AloneSteps(db, c, outcomes[..3], now);
    assert outcomes[..4][..3] == outcomes[..3] && outcomes[..4][3] == Fails;
    assert outcomes == outcomes[..4] + [Succeeds];
    assert SeatConsistency.ClaimAlone(db, c, outcomes[..4], now)
           == (var (db3, c3) := Steps(db, c, 3, now); ClaimStep(db3, c3, Fails, now));
  }

  lemma NobodyElseInvited(db: Db, token: string, seat: string)
    requires SeatConsistency.Consistent(db) && SeatConsistency.ActiveInviteTo(db, token, seat)
    ensures forall state :: !InviteTaken(WithState(db, token, state), seat, token)
  {
    forall state ensures !InviteTaken(WithState(db, token, state), seat, token) {
      var db' := WithState(db, token, state);
      if InviteTaken(db', seat, token) {
        var t :| t in db'.tokens && t != token && db'.tokens[t].state.Active? && InvitesTo(db'.tokens[t], seat);
        assert SeatConsistency.ActiveInviteTo(db, t, seat);
      }
    }
  }

  /**
   * A claim that would have been granted a seat, but for its activation failing, leaves the tables
   * as it found them and is told "not found".
   */
  lemma FailedActivationGivesBack(db: Db, token: string, caller: Caller, outcomes: seq<Outcome>, now: int)
    requires SeatConsistency.Consistent(db) && Answer(db, token, caller, now).1 == Granted
    requires db.tokens[token].kind.WorkerInvite? && ActivationFails(outcomes)
    ensures SeatConsistency.ClaimAlone(db, Claim(token, caller, Read), outcomes, now)
            == (db, Claim(token, caller, Done(NotFound)))
  {
    var row := db.tokens[token];
    var c := Claim(token, caller, Read);
    assert SeatConsistency.ActiveInviteTo(db, token, row.intent.memberId);
    NobodyElseInvited(db, token, row.intent.memberId);
    FiveOutcomes(db, c, outcomes, now);
    UpToFour(db, c, now);
    var spent := WithState(db, token, Claimed(caller.identity.value));
    assert Steps(db, c, 3, now) == (spent, c.(pc := Bind(row)));
    hide SeatConsistency.Consistent, SeatConsistency.ClaimAlone, Steps, InviteTaken;
    assert spent.(tokens := spent.tokens[token := row]) == db;
  }
}

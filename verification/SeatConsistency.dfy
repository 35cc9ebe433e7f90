/**
 * The invite, revoke and claim handlers run one at a time, with any of their
 * database writes failing: tokens and seats stay consistent.
 */
module SeatConsistency {
  import opened Common
  import opened DeepLink

  /** Active invites point at a seat of their workspace, one per seat; the seat and editor caps hold. */
  ghost predicate Consistent(db: Db) {
    && InvitesPointAtSeats(db) && OneInvitePerSeat(db) && SeatsDistinct(db) && OneWorkerEditor(db)
  }

  ghost predicate InvitesPointAtSeats(db: Db) {
    forall t, m :: ActiveInviteTo(db, t, m) ==> PointsAtSeat(db, db.tokens[t])
  }

  predicate PointsAtSeat(db: Db, row: Token)
    requires row.intent.InviteIntent?
  {
    row.intent.memberId in db.members && Some(db.members[row.intent.memberId].workspace) == row.workspace
  }

  predicate ActiveInviteTo(db: Db, t: string, m: string) {
    t in db.tokens && db.tokens[t].state.Active? && InvitesTo(db.tokens[t], m)
  }

  ghost predicate OneInvitePerSeat(db: Db) {
    forall t, u, m :: ActiveInviteTo(db, t, m) && ActiveInviteTo(db, u, m) ==> t == u
  }

  predicate SeatOf(db: Db, m: string, workspace: string, index: int) {
    m in db.members && db.members[m].workspace == workspace && db.members[m].seatIndex == index
  }

  predicate EditorOf(db: Db, m: string, workspace: string) {
    m in db.members && db.members[m].workspace == workspace && db.members[m].role.Editor?
  }

  predicate ProperSeat(row: Member) {
    0 <= row.seatIndex <= 2 && (row.role.Owner? <==> row.seatIndex == 0) && (row.seatIndex == 0 ==> row.active)
  }

  /** Seat 0 is the owner's and every workspace has one; workers sit on seats 1 and 2, one each. */
  ghost predicate SeatsDistinct(db: Db) {
    && (forall m :: m in db.members ==> ProperSeat(db.members[m]))
    && (forall m, n, w, k :: SeatOf(db, m, w, k) && SeatOf(db, n, w, k) ==> m == n)
    && (forall w :: w in db.workspaces ==> exists m :: SeatOf(db, m, w, 0))
  }

  /** The owner occupies one editor slot, so a workspace has at most one worker editor. */
  ghost predicate OneWorkerEditor(db: Db) {
    forall m, n, w :: EditorOf(db, m, w) && EditorOf(db, n, w) ==> m == n
  }

  // ---- the invite handler --------------------------------------------------

  /** The request, the ids the database and the mint draw, and how each write ends. */
  datatype Invite = Invite(
    workspace: string, email: string, requested: Role,
    freshId: string, freshToken: string, expiresAt: int,
    found: Option<string>,
    seat: Outcome, supersede: Outcome, insert: Outcome, rollback: Outcome)

  ghost predicate WellPosed(db: Db, i: Invite) {
    && !i.requested.Owner?
    && (if i.found.Some? then i.found.value in PendingFor(db, i.workspace, i.email)
        else PendingFor(db, i.workspace, i.email) == {})
  }

  function InviteRow(i: Invite, memberId: string): Token {
    Token(WorkerInvite, InviteIntent(memberId, i.email), Some(i.workspace), Active, i.expiresAt)
  }

  /** Once the seat is held: supersede, insert, and free a seat that was created for nothing. */
  function IssueToken(db: Db, i: Invite, memberId: string, wasReused: bool): (Db, bool) {
    var db1 := if Lands(i.supersede) then EndInvites(db, i.workspace, memberId, Superseded) else db;
    if !i.supersede.Succeeds? then (db1, false)
    else
      var (db2, inserted) := if Lands(i.insert) then InsertToken(db1, i.freshToken, InviteRow(i, memberId))
          else (db1, false);
      if i.insert.Succeeds? && inserted then (db2, true)
      else if wasReused || !Lands(i.rollback) then (db2, false)
      else (DeletePending(db2, memberId, i.workspace), false)
  }

  function InviteWorker(db: Db, i: Invite): (Db, bool)
    requires !i.requested.Owner?
    requires if i.found.Some? then i.found.value in PendingFor(db, i.workspace, i.email)
             else PendingFor(db, i.workspace, i.email) == {}
  {
    if i.seat.Fails? then (db, false)
    else
      var (db1, seat) := ClaimWorkerSeat(db, i.workspace, i.email, i.requested, i.found, i.freshId);
      if i.seat.LandsButErrs? then (db1, false)
      else
        match seat
        case Reused(memberId, _) => IssueToken(db1, i, memberId, true)
        case Created(memberId, _) => IssueToken(db1, i, memberId, false)
        case _ => (db1, false)
  }

  /** Two distinct members of a set make it at least two strong. */
  lemma TwoMembers(s: set<string>, a: string, b: string)
    requires a in s && b in s && a != b
    ensures |s| >= 2
  {
    assert |s - {a}| == |s| - 1;
    assert b in s - {a};
  }

  lemma AWorkerSeatIsFree(db: Db, workspace: string)
    requires |Workers(db, workspace)| < MAX_WORKERS
    ensures SeatFree(db, workspace, 1) || SeatFree(db, workspace, 2)
  {
    if !SeatFree(db, workspace, 1) && !SeatFree(db, workspace, 2) {
      var m :| m in Seats(db, workspace) && db.members[m].seatIndex == 1;
      var n :| n in Seats(db, workspace) && db.members[n].seatIndex == 2;
      TwoMembers(Workers(db, workspace), m, n);
    }
  }

  /** A worker is only made an editor when no other worker is one. */
  lemma EditorCapKept(db: Db, workspace: string, except: set<string>, requested: Role, m: string)
    requires SeatsDistinct(db) && workspace in db.workspaces && !requested.Owner?
    requires forall x :: x in except ==> !SeatOf(db, x, workspace, 0)
    requires EditorOf(db, m, workspace) && m !in except
    ensures EffectiveRole(|Editors(db, workspace) - except|, requested) == Viewer
  {
    var owner :| SeatOf(db, owner, workspace, 0);
    assert ProperSeat(db.members[owner]) && ProperSeat(db.members[m]);
    TwoMembers(Editors(db, workspace) - except, owner, m);
  }

  /** Writing one worker seat: its own place, or a free one; an editor only if it is the only one. */
  lemma PutSeat(db: Db, id: string, row: Member)
    requires Consistent(db) && 1 <= row.seatIndex <= 2 && !row.role.Owner?
    requires if id in db.members then SeatOf(db, id, row.workspace, row.seatIndex)
             else forall m :: !SeatOf(db, m, row.workspace, row.seatIndex)
    requires row.role.Editor? ==> forall m :: EditorOf(db, m, row.workspace) ==> m == id
    ensures Consistent(db.(members := db.members[id := row]))
  {
    var db' := db.(members := db.members[id := row]);
    forall w | w in db'.workspaces
      ensures exists m :: SeatOf(db', m, w, 0)
    {
      var m :| SeatOf(db, m, w, 0);
      assert SeatOf(db', m, w, 0);
    }
    forall m, n, w, k | SeatOf(db', m, w, k) && SeatOf(db', n, w, k)
      ensures m == n
    {
      assert m != id ==> SeatOf(db, m, w, k);
      assert n != id ==> SeatOf(db, n, w, k);
    }
    forall m, n, w | EditorOf(db', m, w) && EditorOf(db', n, w)
      ensures m == n
    {
      assert m != id ==> EditorOf(db, m, w);
      assert n != id ==> EditorOf(db, n, w);
    }
    assert forall t, m :: ActiveInviteTo(db', t, m) ==> ActiveInviteTo(db, t, m);
  }

  /** The seat a handler works on: pending, in its workspace. */
  ghost predicate HasPendingSeat(db: Db, memberId: string, workspace: string) {
    memberId in db.members && db.members[memberId].workspace == workspace && !db.members[memberId].active
  }

  lemma ReuseKeepsConsistent(db: Db, i: Invite)
    requires Consistent(db) && WellPosed(db, i) && i.found.Some? && i.workspace in db.workspaces
    ensures var (db', seat) := ClaimWorkerSeat(db, i.workspace, i.email, i.requested, i.found, i.freshId);
            Consistent(db') && seat.Reused? && seat.memberId == i.found.value
              && HasPendingSeat(db', seat.memberId, i.workspace)
  {
    var id := i.found.value;
    var role := EffectiveRole(|Editors(db, i.workspace) - {id}|, i.requested);
    assert ProperSeat(db.members[id]);
    forall m | role.Editor? && EditorOf(db, m, i.workspace)
      ensures m == id
    {
      if m != id {
        EditorCapKept(db, i.workspace, {id}, i.requested, m);
      }
    }
    PutSeat(db, id, db.members[id].(role := role));
  }

  lemma CreateKeepsConsistent(db: Db, i: Invite)
    requires Consistent(db) && WellPosed(db, i) && i.found.None? && i.workspace in db.workspaces
    ensures var (db', seat) := ClaimWorkerSeat(db, i.workspace, i.email, i.requested, i.found, i.freshId);
            && Consistent(db') && !seat.Reused?
            && (seat.Created? ==> seat.memberId == i.freshId && i.freshId !in db.members && db'.tokens == db.tokens
                                  && HasPendingSeat(db', i.freshId, i.workspace))
  {
    var (db', seat) := ClaimWorkerSeat(db, i.workspace, i.email, i.requested, i.found, i.freshId);
    if seat.Created? {
      AWorkerSeatIsFree(db, i.workspace);
      assert Editors(db, i.workspace) - {} == Editors(db, i.workspace);
      forall m | EditorOf(db, m, i.workspace)
        ensures seat.role.Viewer?
      {
        EditorCapKept(db, i.workspace, {}, i.requested, m);
      }
      var index := if SeatFree(db, i.workspace, 1) then 1 else 2;
      forall m ensures !SeatOf(db, m, i.workspace, index) {
        assert SeatOf(db, m, i.workspace, index) ==> m in Seats(db, i.workspace);
      }
      PutSeat(db, i.freshId, Member(i.workspace, Some(i.email), seat.role, false, index, None));
    }
  }

  lemma EndInvitesKeepsConsistent(db: Db, workspace: string, memberId: string, state: TokenState)
    requires Consistent(db) && !state.Active? && memberId in db.members && db.members[memberId].workspace == workspace
    ensures Consistent(EndInvites(db, workspace, memberId, state))
    ensures forall t :: !ActiveInviteTo(EndInvites(db, workspace, memberId, state), t, memberId)
  {
    var db' := EndInvites(db, workspace, memberId, state);
    assert forall t, m :: ActiveInviteTo(db', t, m) ==> ActiveInviteTo(db, t, m);
    forall m, w, k ensures SeatOf(db', m, w, k) <==> SeatOf(db, m, w, k) {}
    forall m, w ensures EditorOf(db', m, w) <==> EditorOf(db, m, w) {}
  }

  lemma InsertKeepsConsistent(db: Db, token: string, row: Token)
    requires Consistent(db)
             && (row.kind.WorkerInvite? && row.intent.InviteIntent? && row.state.Active? ==> PointsAtSeat(db, row))
    ensures Consistent(InsertToken(db, token, row).0)
  {
    var db' := InsertToken(db, token, row).0;
    forall m, w, k ensures SeatOf(db', m, w, k) <==> SeatOf(db, m, w, k) {}
    forall m, w ensures EditorOf(db', m, w) <==> EditorOf(db, m, w) {}
    assert forall t, m :: t != token && ActiveInviteTo(db', t, m) ==> ActiveInviteTo(db, t, m);
  }

  lemma DeletePendingConsistentIff(db: Db, memberId: string, workspace: string)
    requires Consistent(db) && HasPendingSeat(db, memberId, workspace)
    ensures Consistent(DeletePending(db, memberId, workspace)) <==> forall t :: !ActiveInviteTo(db, t, memberId)
  {
    var db' := DeletePending(db, memberId, workspace);
    assert forall t, m :: ActiveInviteTo(db', t, m) <==> ActiveInviteTo(db, t, m);
    assert forall m, w, k :: SeatOf(db', m, w, k) ==> SeatOf(db, m, w, k);
    assert forall m, w :: EditorOf(db', m, w) ==> EditorOf(db, m, w);
    assert ProperSeat(db.members[memberId]);
    forall w | w in db'.workspaces
      ensures exists m :: SeatOf(db', m, w, 0)
    {
      var m :| SeatOf(db, m, w, 0);
      assert SeatOf(db', m, w, 0);
    }
    if t :| ActiveInviteTo(db, t, memberId) {
      assert ActiveInviteTo(db', t, memberId) && !PointsAtSeat(db', db'.tokens[t]);
    } else {
      forall t, m | ActiveInviteTo(db', t, m)
        ensures PointsAtSeat(db', db'.tokens[t])
      {
        assert ActiveInviteTo(db, t, m) && m != memberId;
      }
    }
  }

  /**
   * The insert went through although it reported an error, and the rollback then removed the
   * seat it had just created.
   */
  predicate Orphans(db: Db, i: Invite, wasReused: bool) {
    i.supersede.Succeeds? && i.insert.LandsButErrs? && i.freshToken !in db.tokens && !wasReused && Lands(i.rollback)
  }

  lemma IssueConsistentIff(db: Db, i: Invite, memberId: string, wasReused: bool)
    requires Consistent(db) && HasPendingSeat(db, memberId, i.workspace)
    ensures Consistent(IssueToken(db, i, memberId, wasReused).0) <==> !Orphans(db, i, wasReused)
  {
    EndInvitesKeepsConsistent(db, i.workspace, memberId, Superseded);
    var db1 := EndInvites(db, i.workspace, memberId, Superseded);
    var row := InviteRow(i, memberId);
    InsertKeepsConsistent(db1, i.freshToken, row);
    var (db2, inserted) := InsertToken(db1, i.freshToken, row);
    assert inserted <==> i.freshToken !in db.tokens by {
      assert forall t :: t in db1.tokens && db1.tokens[t].state.Active? && InvitesTo(db1.tokens[t], memberId)
               ==> ActiveInviteTo(db1, t, memberId);
    }
    assert inserted ==> ActiveInviteTo(db2, i.freshToken, memberId);
    DeletePendingConsistentIff(db1, memberId, i.workspace);
    DeletePendingConsistentIff(db2, memberId, i.workspace);
  }

  /**
   * Whatever writes of an invite fail, the tables stay consistent, with one exact
   * exception: a token insert that landed but reported an error, followed by the
   * rollback of the seat it points at.
   */
  lemma InviteConsistentIff(db: Db, i: Invite)
    requires Consistent(db) && WellPosed(db, i)
    ensures var (db1, seat) := ClaimWorkerSeat(db, i.workspace, i.email, i.requested, i.found, i.freshId);
            Consistent(InviteWorker(db, i).0) <==> !(i.seat.Succeeds? && seat.Created? && Orphans(db, i, false))
  {
    if i.workspace in db.workspaces {
      var (db1, seat) := ClaimWorkerSeat(db, i.workspace, i.email, i.requested, i.found, i.freshId);
      if i.found.Some? {
        ReuseKeepsConsistent(db, i);
        IssueConsistentIff(db1, i, i.found.value, true);
      } else {
        CreateKeepsConsistent(db, i);
        if seat.Created? {
          IssueConsistentIff(db1, i, i.freshId, false);
        }
      }
    }
  }

  /** A workspace with its owner and nobody else. */
  function OwnerAlone(workspace: string, owner: string, email: string): Db {
    Db({workspace}, map[], map[owner := Member(workspace, Some(email), Owner, true, 0, Some(owner))])
  }

  /** The first invite of that workspace: its insert is misreported, and its rollback then goes through. */
  function MisreportedInvite(workspace: string, email: string, requested: Role, freshId: string, freshToken: string,
                             expiresAt: int): Invite {
    Invite(workspace, email, requested, freshId, freshToken, expiresAt, None,
           Succeeds, Succeeds, LandsButErrs, Succeeds)
  }

  lemma OwnerAloneIsConsistent(workspace: string, owner: string, email: string)
    ensures Consistent(OwnerAlone(workspace, owner, email))
  {
    assert SeatOf(OwnerAlone(workspace, owner, email), owner, workspace, 0);
  }

  /** The input that shows the exception: a consistent pair of tables that this invite makes inconsistent. */
  lemma MisreportedInviteOrphans(workspace: string, owner: string, ownEmail: string, email: string, requested: Role,
                                 freshId: string, freshToken: string, expiresAt: int)
    requires freshId != owner && email != ownEmail && !requested.Owner?
    ensures var db := OwnerAlone(workspace, owner, ownEmail);
            var i := MisreportedInvite(workspace, email, requested, freshId, freshToken, expiresAt);
            Consistent(db) && WellPosed(db, i) && !Consistent(InviteWorker(db, i).0)
  {
    var db := OwnerAlone(workspace, owner, ownEmail);
    var i := MisreportedInvite(workspace, email, requested, freshId, freshToken, expiresAt);
    OwnerAloneIsConsistent(workspace, owner, ownEmail);
    assert PendingFor(db, workspace, email) == {} && Workers(db, workspace) == {};
    InviteConsistentIff(db, i);
    hide Consistent;
  }

  // ---- the revoke handler --------------------------------------------------

  /** Revoke the token first, delete the pending seat second. */
  function RevokeWorkerInvite(db: Db, workspace: string, memberId: string, lookup: Outcome, tokenWrite: Outcome,
                              seatDelete: Outcome): (Db, bool) {
    if !lookup.Succeeds? || memberId !in db.members || db.members[memberId].workspace != workspace then (db, false)
    else if db.members[memberId].active || db.members[memberId].seatIndex == 0 then (db, false)
    else
      var db1 := if Lands(tokenWrite) then EndInvites(db, workspace, memberId, Revoked) else db;
      if !tokenWrite.Succeeds? then (db1, false)
      else (if Lands(seatDelete) then DeletePending(db1, memberId, workspace) else db1, seatDelete.Succeeds?)
  }

  lemma RevokeKeepsConsistent(db: Db, workspace: string, memberId: string, lookup: Outcome, tokenWrite: Outcome,
                              seatDelete: Outcome)
    requires Consistent(db)
    ensures Consistent(RevokeWorkerInvite(db, workspace, memberId, lookup, tokenWrite, seatDelete).0)
  {
    if memberId in db.members && db.members[memberId].workspace == workspace && !db.members[memberId].active {
      EndInvitesKeepsConsistent(db, workspace, memberId, Revoked);
      DeletePendingConsistentIff(EndInvites(db, workspace, memberId, Revoked), memberId, workspace);
    }
  }

  // ---- the claim handler ---------------------------------------------------

  /** A claim that runs alone, for as many statements as it lives. */
  function ClaimAlone(db: Db, c: Claim, outcomes: seq<Outcome>, now: int): (Db, Claim)
    decreases |outcomes|
  {
    if outcomes == [] then (db, c)
    else
      var (db1, c1) := ClaimAlone(db, c, outcomes[..|outcomes| - 1], now);
      ClaimStep(db1, c1, outcomes[|outcomes| - 1], now)
  }

  /** While a claim has its token spent, that token's seat exists and has no active invite. */
  ghost predicate SpentAlone(db: Db, c: Claim) {
    c.token in db.tokens && db.tokens[c.token].state.Claimed?
    && (db.tokens[c.token].kind.WorkerInvite? && db.tokens[c.token].intent.InviteIntent? ==>
          && PointsAtSeat(db, db.tokens[c.token])
          && forall t :: !ActiveInviteTo(db, t, db.tokens[c.token].intent.memberId))
  }

  ghost predicate AloneGood(db: Db, c: Claim) {
    && Consistent(db)
    && match c.pc
       case LookUpSeat(row) => c.token in db.tokens && db.tokens[c.token] == row
       case Spend(row) => c.token in db.tokens && db.tokens[c.token] == row
       case Bind(row) => SpentAlone(db, c) && row.intent == db.tokens[c.token].intent
         && row.workspace == db.tokens[c.token].workspace
       case Undo => SpentAlone(db, c)
       case _ => true
  }

  /** A token write that makes no invite active keeps the tables consistent. */
  lemma RetireKeepsConsistent(db: Db, tokens: map<string, Token>)
    requires Consistent(db)
    requires forall t, m :: ActiveInviteTo(db.(tokens := tokens), t, m)
               ==> ActiveInviteTo(db, t, m) && tokens[t] == db.tokens[t]
    ensures Consistent(db.(tokens := tokens))
  {
    var db' := db.(tokens := tokens);
    forall m, w, k ensures SeatOf(db', m, w, k) <==> SeatOf(db, m, w, k) {}
    forall m, w ensures EditorOf(db', m, w) <==> EditorOf(db, m, w) {}
  }

  lemma SpendAlone(db: Db, c: Claim, claimer: string)
    requires Consistent(db) && c.token in db.tokens && db.tokens[c.token].state.Active?
    ensures Consistent(CasClaim(db, c.token, claimer).0) && SpentAlone(CasClaim(db, c.token, claimer).0, c)
  {
    RetireKeepsConsistent(db, CasClaim(db, c.token, claimer).0.tokens);
    var row := db.tokens[c.token];
    if row.kind.WorkerInvite? && row.intent.InviteIntent? {
      assert ActiveInviteTo(db, c.token, row.intent.memberId);
    }
  }

  lemma BindAlone(db: Db, c: Claim, memberId: string, workspace: string, identity: string)
    requires Consistent(db) && SpentAlone(db, c)
    ensures Consistent(Activate(db, memberId, workspace, identity))
            && SpentAlone(Activate(db, memberId, workspace, identity), c)
  {
    var db' := Activate(db, memberId, workspace, identity);
    if db' != db {
      PutActive(db, memberId, identity);
    }
    assert forall t, m :: ActiveInviteTo(db', t, m) <==> ActiveInviteTo(db, t, m);
  }

  lemma PutActive(db: Db, id: string, identity: string)
    requires Consistent(db) && id in db.members
    ensures Consistent(db.(members := db.members[id := db.members[id].(active := true, identity := Some(identity))]))
  {
    var db' := db.(members := db.members[id := db.members[id].(active := true, identity := Some(identity))]);
    forall m, w, k ensures SeatOf(db', m, w, k) <==> SeatOf(db, m, w, k) {}
    forall m, w ensures EditorOf(db', m, w) <==> EditorOf(db, m, w) {}
    forall t, m ensures ActiveInviteTo(db', t, m) <==> ActiveInviteTo(db, t, m) {}
    assert forall m :: m in db.members ==> ProperSeat(db.members[m]);
  }

  lemma UndoAlone(db: Db, c: Claim)
    requires Consistent(db) && SpentAlone(db, c)
    ensures Consistent(RevertClaim(db, c.token))
  {
    var db' := RevertClaim(db, c.token);
    forall m, w, k ensures SeatOf(db', m, w, k) <==> SeatOf(db, m, w, k) {}
    forall m, w ensures EditorOf(db', m, w) <==> EditorOf(db, m, w) {}
    assert forall t, m :: t != c.token ==> (ActiveInviteTo(db', t, m) <==> ActiveInviteTo(db, t, m));
  }

  lemma ClaimStepAlone(db: Db, c: Claim, o: Outcome, now: int)
    requires AloneGood(db, c)
    ensures AloneGood(ClaimStep(db, c, o, now).0, ClaimStep(db, c, o, now).1)
  {
    match c.pc
    case Expire => RetireKeepsConsistent(db, ExpireToken(db, c.token).tokens);
    case Spend(row) =>
      if Claimer(c.caller).Some? && row.state.Active? {
        SpendAlone(db, c, Claimer(c.caller).value);
      }
    case Bind(row) =>
      if c.caller.identity.Some? && row.intent.InviteIntent? && row.workspace.Some? {
        BindAlone(db, c, row.intent.memberId, row.workspace.value, c.caller.identity.value);
      }
    case Undo => UndoAlone(db, c);
    case _ =>
  }

  /** However a lone claim's writes end, and wherever it stops, the tables stay consistent. */
  lemma {:induction false} ClaimKeepsConsistent(db: Db, token: string, caller: Caller, outcomes: seq<Outcome>, now: int)
    requires Consistent(db)
    ensures AloneGood(ClaimAlone(db, Claim(token, caller, Read), outcomes, now).0,
                      ClaimAlone(db, Claim(token, caller, Read), outcomes, now).1)
    decreases |outcomes|
  {
    if outcomes != [] {
      ClaimKeepsConsistent(db, token, caller, outcomes[..|outcomes| - 1], now);
      var (db1, c1) := ClaimAlone(db, Claim(token, caller, Read), outcomes[..|outcomes| - 1], now);
      ClaimStepAlone(db1, c1, outcomes[|outcomes| - 1], now);
    }
  }

  // ---- any sequence of requests --------------------------------------------

  datatype Request =
    | InviteRequest(invite: Invite)
    | RevokeRequest(workspace: string, memberId: string, lookup: Outcome, tokenWrite: Outcome, seatDelete: Outcome)
    | ClaimRequest(token: string, caller: Caller, outcomes: seq<Outcome>, now: int)
    | CreateLinkRequest(freshToken: string, row: Token, insert: Outcome)

  ghost function Handle(db: Db, r: Request): Db {
    match r
    case InviteRequest(i) => if WellPosed(db, i) then InviteWorker(db, i).0 else db
    case RevokeRequest(w, m, lookup, tokenWrite, seatDelete) =>
      RevokeWorkerInvite(db, w, m, lookup, tokenWrite, seatDelete).0
    case ClaimRequest(token, caller, outcomes, now) => ClaimAlone(db, Claim(token, caller, Read), outcomes, now).0
    case CreateLinkRequest(token, row, insert) =>
      if Lands(insert) && !row.kind.WorkerInvite? then InsertToken(db, token, row).0 else db
  }

  ghost function HandleAll(db: Db, rs: seq<Request>): Db
    decreases |rs|
  {
    if rs == [] then db else Handle(HandleAll(db, rs[..|rs| - 1]), rs[|rs| - 1])
  }

  /**
   * This request is an invite whose insert took effect while reporting an error and whose
   * rollback then removed the new seat.
   */
  ghost predicate OrphansAToken(db: Db, r: Request) {
    r.InviteRequest? && WellPosed(db, r.invite)
    && var i := r.invite;
       var seat := ClaimWorkerSeat(db, i.workspace, i.email, i.requested, i.found, i.freshId).1;
       i.seat.Succeeds? && seat.Created? && Orphans(db, i, false)
  }

  lemma RequestConsistentIff(db: Db, r: Request)
    requires Consistent(db)
    ensures Consistent(Handle(db, r)) <==> !OrphansAToken(db, r)
  {
    hide Consistent, InviteWorker, ClaimWorkerSeat;
    match r
    case InviteRequest(i) => if WellPosed(db, i) { InviteConsistentIff(db, i); }
    case RevokeRequest(w, m, lookup, tokenWrite, seatDelete) =>
      RevokeKeepsConsistent(db, w, m, lookup, tokenWrite, seatDelete);
    case ClaimRequest(token, caller, outcomes, now) => ClaimKeepsConsistent(db, token, caller, outcomes, now);
    case CreateLinkRequest(token, row, insert) => if !row.kind.WorkerInvite? { InsertKeepsConsistent(db, token, row); }
  }

  /** The tables are consistent after each of the requests. */
  ghost predicate ConsistentThroughout(db: Db, rs: seq<Request>) {
    forall n :: 0 <= n <= |rs| ==> Consistent(HandleAll(db, rs[..n]))
  }

  ghost predicate NeverOrphans(db: Db, rs: seq<Request>) {
    forall n :: 0 <= n < |rs| ==> !OrphansAToken(HandleAll(db, rs[..n]), rs[n])
  }

  lemma ThroughoutLast(db: Db, rs: seq<Request>)
    requires rs != []
    ensures ConsistentThroughout(db, rs) <==> ConsistentThroughout(db, rs[..|rs| - 1]) && Consistent(HandleAll(db, rs))
  {
    hide Consistent, HandleAll;
    var prior := rs[..|rs| - 1];
    assert rs[..|rs|] == rs;
    forall n | 0 <= n < |rs| ensures rs[..n] == prior[..n] {}
    if ConsistentThroughout(db, rs) {
      forall n | 0 <= n <= |prior| ensures Consistent(HandleAll(db, prior[..n])) {
        assert prior[..n] == rs[..n];
      }
    }
  }

  lemma NeverLast(db: Db, rs: seq<Request>)
    requires rs != []
    ensures var prior := rs[..|rs| - 1];
            NeverOrphans(db, rs) <==> NeverOrphans(db, prior) && !OrphansAToken(HandleAll(db, prior), rs[|prior|])
  {
    hide OrphansAToken, HandleAll;
    var prior := rs[..|rs| - 1];
    forall n | 0 <= n < |rs| ensures rs[..n] == prior[..n] {}
    if NeverOrphans(db, rs) {
      forall n | 0 <= n < |prior| ensures !OrphansAToken(HandleAll(db, prior[..n]), prior[n]) {
        assert prior[..n] == rs[..n] && prior[n] == rs[n];
      }
    }
  }

  /**
   * Over any sequence of handlers run one at a time, with any of their writes failing
   * or misreported: after every request each active invite points at a seat of its
   * workspace, no seat has two, and the seat and editor caps hold, exactly as long as
   * no invite orphans the token it has just inserted.
   */
  lemma {:induction false} AlwaysConsistentIff(db: Db, rs: seq<Request>)
    requires Consistent(db)
    ensures ConsistentThroughout(db, rs) <==> NeverOrphans(db, rs)
    decreases |rs|
  {
    hide Consistent, OrphansAToken, Handle;
    if rs != [] {
      var prior := rs[..|rs| - 1];
      AlwaysConsistentIff(db, prior);
      ThroughoutLast(db, rs);
      NeverLast(db, rs);
      if ConsistentThroughout(db, prior) {
        assert prior[..|prior|] == prior;
        RequestConsistentIff(HandleAll(db, prior), rs[|prior|]);
      }
    }
  }

  lemma AtMostTwo(all: set<string>, a: set<string>, b: set<string>)
    requires all == a + b
    requires (forall m, n :: m in a && n in a ==> m == n) && (forall m, n :: m in b && n in b ==> m == n)
    ensures |all| <= 2
  {
    AtMostOne(a);
    AtMostOne(b);
  }

  lemma TwoWorkers(db: Db, workspace: string)
    requires Consistent(db)
    ensures |Workers(db, workspace)| <= 2
  {
    var one := set m | m in Workers(db, workspace) && db.members[m].seatIndex == 1;
    var two := set m | m in Workers(db, workspace) && db.members[m].seatIndex == 2;
    forall m | m in Workers(db, workspace) ensures m in one + two {
      assert ProperSeat(db.members[m]);
    }
    forall m, n | m in one && n in one ensures m == n {
      assert SeatOf(db, m, workspace, 1) && SeatOf(db, n, workspace, 1);
    }
    forall m, n | m in two && n in two ensures m == n {
      assert SeatOf(db, m, workspace, 2) && SeatOf(db, n, workspace, 2);
    }
    AtMostTwo(Workers(db, workspace), one, two);
  }

  lemma TwoEditors(db: Db, workspace: string)
    requires Consistent(db)
    ensures |Editors(db, workspace)| <= 2
  {
    var owners := set m | m in Editors(db, workspace) && db.members[m].role.Owner?;
    var editors := set m | m in Editors(db, workspace) && db.members[m].role.Editor?;
    forall m, n | m in owners && n in owners ensures m == n {
      assert ProperSeat(db.members[m]) && ProperSeat(db.members[n]);
      assert SeatOf(db, m, workspace, 0) && SeatOf(db, n, workspace, 0);
    }
    forall m, n | m in editors && n in editors ensures m == n {
      assert EditorOf(db, m, workspace) && EditorOf(db, n, workspace);
    }
    AtMostTwo(Editors(db, workspace), owners, editors);
  }

  /** The caps in numbers: an owner, at most two workers, at most one of them an editor. */
  lemma CapsInNumbers(db: Db, workspace: string)
    requires Consistent(db)
    ensures |Workers(db, workspace)| <= MAX_WORKERS
    ensures |Editors(db, workspace)| <= MAX_EDITORS
  {
    hide Consistent, Workers, Editors;
    TwoWorkers(db, workspace);
    TwoEditors(db, workspace);
  }

  lemma AtMostOne(s: set<string>)
    requires forall m, n :: m in s && n in s ==> m == n
    ensures |s| <= 1
  {
    if m :| m in s {
      assert s == {m};
    }
  }
}

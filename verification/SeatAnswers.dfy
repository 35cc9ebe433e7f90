/** What an invite and a revoke leave in the tables, apart from keeping them consistent. */
module SeatAnswers {
  import opened Common
  import opened DeepLink
  import opened SeatConsistency

  /** The token is an active invite of this seat, sent from this workspace. */
  predicate InvitesSeat(row: Token, workspace: string, seat: string) {
    && row.kind == WorkerInvite && row.state == Active && row.workspace == Some(workspace)
    && row.intent.InviteIntent? && row.intent.memberId == seat
  }

  /** The tokens with the active invites of this seat ended, and nothing else changed. */
  function Ended(tokens: map<string, Token>, workspace: string, seat: string, state: TokenState): map<string, Token> {
    map t | t in tokens :: if InvitesSeat(tokens[t], workspace, seat) then tokens[t].(state := state) else tokens[t]
  }

  lemma EndedIs(db: Db, workspace: string, seat: string, state: TokenState)
    ensures EndInvites(db, workspace, seat, state) == db.(tokens := Ended(db.tokens, workspace, seat, state))
  {
    var ended := EndInvites(db, workspace, seat, state);
    assert ended.tokens == Ended(db.tokens, workspace, seat, state);
  }

  // ---- revoke --------------------------------------------------------------

  /** A seat of this workspace that nobody has taken yet, and not the owner's. */
  predicate Pending(db: Db, workspace: string, seat: string) {
    && seat in db.members && db.members[seat].workspace == workspace
    && !db.members[seat].active && db.members[seat].seatIndex != 0
  }

  /**
   * A revoke answers ok exactly when the seat is a pending one of the workspace and its three
   * statements succeed. Then the seat is gone and no active invite of it is left; no other token
   * or member has changed. Where the seat is not pending nothing changes at all, and where only
   * the deletion fails the invites have ended and the seat is still there.
   */
  lemma RevokeIs(db: Db, workspace: string, seat: string, lookup: Outcome, tokenWrite: Outcome, seatDelete: Outcome)
    ensures var (db', ok) := RevokeWorkerInvite(db, workspace, seat, lookup, tokenWrite, seatDelete);
            && (ok <==> Pending(db, workspace, seat) && lookup == tokenWrite == seatDelete == Succeeds)
            && (ok ==>
                  && db'.members == db.members - {seat} && db'.workspaces == db.workspaces
                  && db'.tokens == Ended(db.tokens, workspace, seat, Revoked)
                  && forall t :: t in db'.tokens ==> !InvitesSeat(db'.tokens[t], workspace, seat))
            && (!Pending(db, workspace, seat) || lookup != Succeeds || tokenWrite == Fails ==> db' == db)
            && (Pending(db, workspace, seat) && lookup == tokenWrite == Succeeds && seatDelete == Fails ==>
                  db' == db.(tokens := Ended(db.tokens, workspace, seat, Revoked)))
  {
    EndedIs(db, workspace, seat, Revoked);
    hide EndInvites;
  }

  // ---- invite --------------------------------------------------------------

  /** How many seats of the workspace, this one apart, are an owner's or an editor's. */
  function OtherEditors(db: Db, workspace: string, seat: string): nat {
    |set m | m in db.members && m != seat && db.members[m].workspace == workspace
             && db.members[m].role in {Owner, Editor}|
  }

  /** The role a seat is given: an editor's only while fewer than two others have one. */
  function RoleGiven(db: Db, i: Invite, seat: string): Role {
    if i.requested == Editor && OtherEditors(db, i.workspace, seat) < 2 then Editor else Viewer
  }

  predicate SeatTaken(db: Db, workspace: string, index: int) {
    exists m :: m in db.members && db.members[m].workspace == workspace && db.members[m].seatIndex == index
  }

  /** A worker seat is free for a new address. */
  predicate HasRoom(db: Db, i: Invite) {
    && |set m | m in db.members && db.members[m].workspace == i.workspace && db.members[m].seatIndex > 0| < 2
    && (!SeatTaken(db, i.workspace, 1) || !SeatTaken(db, i.workspace, 2))
    && i.freshId !in db.members
    && forall m :: m in db.members && db.members[m].workspace == i.workspace ==> db.members[m].email != Some(i.email)
  }

  /** The seat an invite that goes through leaves: the pending one of the address, or a new one. */
  function SeatGiven(db: Db, i: Invite): (string, Member)
    requires i.found.Some? ==> i.found.value in db.members
  {
    match i.found
    case Some(seat) => (seat, db.members[seat].(role := RoleGiven(db, i, seat)))
    case None =>
      (i.freshId, Member(i.workspace, Some(i.email), RoleGiven(db, i, i.freshId), false,
                         if SeatTaken(db, i.workspace, 1) then 2 else 1, None))
  }

  predicate AllSucceed(i: Invite) {
    i.seat == i.supersede == i.insert == Succeeds
  }

  lemma EditorsAre(db: Db, workspace: string, seat: string)
    ensures |Editors(db, workspace) - {seat}| == OtherEditors(db, workspace, seat)
    ensures seat !in db.members ==> |Editors(db, workspace)| == OtherEditors(db, workspace, seat)
  {
    var others := set m | m in db.members && m != seat && db.members[m].workspace == workspace
                          && db.members[m].role in {Owner, Editor};
    assert Editors(db, workspace) - {seat} == others;
    if seat !in db.members {
      assert Editors(db, workspace) == others;
    }
  }

  lemma WorkersAre(db: Db, workspace: string)
    ensures Workers(db, workspace)
         == set m | m in db.members && db.members[m].workspace == workspace && db.members[m].seatIndex > 0
    ensures forall k :: SeatFree(db, workspace, k) <==> !SeatTaken(db, workspace, k)
    ensures forall email :: EmailTaken(db, workspace, email) <==>
              exists m :: m in db.members && db.members[m].workspace == workspace && db.members[m].email == Some(email)
  {
    forall k ensures SeatFree(db, workspace, k) <==> !SeatTaken(db, workspace, k) {
      if !SeatFree(db, workspace, k) {
        var m :| m in Seats(db, workspace) && db.members[m].seatIndex == k;
      }
      if SeatTaken(db, workspace, k) {
        var m :| m in db.members && db.members[m].workspace == workspace && db.members[m].seatIndex == k;
        assert m in Seats(db, workspace);
      }
    }
    forall email ensures EmailTaken(db, workspace, email) <==>
      exists m :: m in db.members && db.members[m].workspace == workspace && db.members[m].email == Some(email)
    {
      if m :| m in db.members && db.members[m].workspace == workspace && db.members[m].email == Some(email) {
        assert m in Seats(db, workspace);
      }
    }
  }

  /** The seat half of an invite. */
  lemma SeatClaimed(db: Db, i: Invite)
    requires WellPosed(db, i) && i.workspace in db.workspaces
    ensures var (db', seat) := ClaimWorkerSeat(db, i.workspace, i.email, i.requested, i.found, i.freshId);
            && (seat.Reused? <==> i.found.Some?) && (seat.Created? <==> i.found.None? && HasRoom(db, i))
            && (i.found.Some? ==> i.found.value in db.members)
            && (seat.Reused? || seat.Created? ==>
                  && seat.memberId == SeatGiven(db, i).0
                  && db' == db.(members := db.members[SeatGiven(db, i).0 := SeatGiven(db, i).1]))
            && (!(seat.Reused? || seat.Created?) ==> db' == db)
  {
    WorkersAre(db, i.workspace);
    EditorsAre(db, i.workspace, if i.found.Some? then i.found.value else i.freshId);
    hide Workers, Editors, SeatFree, EmailTaken, SeatTaken, OtherEditors;
  }

  lemma TokenGoesIn(db: Db, i: Invite, seat: string)
    requires Consistent(db) && HasPendingSeat(db, seat, i.workspace) && i.freshToken !in db.tokens
    ensures var ended := EndInvites(db, i.workspace, seat, Superseded);
            InsertToken(ended, i.freshToken, InviteRow(i, seat))
            == (ended.(tokens := ended.tokens[i.freshToken := InviteRow(i, seat)]), true)
  {
    EndInvitesKeepsConsistent(db, i.workspace, seat, Superseded);
    var ended := EndInvites(db, i.workspace, seat, Superseded);
    assert forall t :: t in ended.tokens && ended.tokens[t].state.Active? && InvitesTo(ended.tokens[t], seat)
             ==> ActiveInviteTo(ended, t, seat);
    hide Consistent, EndInvites;
  }

  lemma IssueIs(db: Db, i: Invite, seat: string, wasReused: bool)
    requires Consistent(db) && HasPendingSeat(db, seat, i.workspace) && i.freshToken !in db.tokens && AllSucceed(i)
    ensures IssueToken(db, i, seat, wasReused)
         == (db.(tokens := Ended(db.tokens, i.workspace, seat, Superseded)
                           [i.freshToken := Token(WorkerInvite, InviteIntent(seat, i.email), Some(i.workspace), Active,
                                                  i.expiresAt)]), true)
  {
    TokenGoesIn(db, i, seat);
    EndedIs(db, i.workspace, seat, Superseded);
    hide Consistent, EndInvites, InsertToken, Ended;
  }

  /** The tables after an invite that went through. */
  predicate Invited(db: Db, db': Db, i: Invite) {
    && (i.found.Some? ==> i.found.value in db.members)
    && var (seat, member) := SeatGiven(db, i);
       db' == Db(db.workspaces,
                 Ended(db.tokens, i.workspace, seat, Superseded)
                 [i.freshToken := Token(WorkerInvite, InviteIntent(seat, i.email), Some(i.workspace), Active,
                                        i.expiresAt)],
                 db.members[seat := member])
  }

  /**
   * An invite whose statements all succeed goes through exactly when the workspace is known and
   * the address has a pending seat in it or there is room for one. It then leaves one active
   * invite of the seat, this one, for this address and until its own time; the earlier ones are
   * superseded, the seat has the role the cap allows, and nothing else has changed. An invite
   * that does not go through changes nothing.
   */
  lemma InviteIs(db: Db, i: Invite)
    requires Consistent(db) && WellPosed(db, i) && AllSucceed(i) && i.freshToken !in db.tokens
    ensures var (db', ok) := InviteWorker(db, i);
            && (ok <==> i.workspace in db.workspaces && (i.found.Some? || HasRoom(db, i)))
            && (!ok ==> db' == db)
            && (ok ==> Invited(db, db', i))
  {
    if i.workspace in db.workspaces {
      SeatClaimed(db, i);
      var (seated, seat) := ClaimWorkerSeat(db, i.workspace, i.email, i.requested, i.found, i.freshId);
      if i.found.Some? {
        ReuseKeepsConsistent(db, i);
        IssueIs(seated, i, i.found.value, true);
      } else {
        CreateKeepsConsistent(db, i);
        if seat.Created? {
          IssueIs(seated, i, i.freshId, false);
        }
      }
    }
    hide Consistent, ClaimWorkerSeat, HasRoom, IssueToken, Ended, SeatGiven;
  }
}

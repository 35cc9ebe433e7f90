/** The three handlers as they change the tables, statement by statement. */
module DeepLinkServer {
  import opened Common
  import opened DeepLink
  import opened SeatConsistency
  import SeatAnswers
  import ClaimAnswers

  class Server {
    var db: Db

    constructor (db: Db)
      ensures this.db == db
    {
      this.db := db;
    }

    /** Seat, supersede, insert; a seat created for a token that was not inserted is freed again. */
    method Invite(i: Invite) returns (ok: bool)
      requires WellPosed(db, i)
      modifies this
      ensures (db, ok) == InviteWorker(old(db), i)
      ensures Consistent(old(db)) && !i.insert.LandsButErrs? ==> Consistent(db)
      ensures Consistent(old(db)) && SeatAnswers.AllSucceed(i) && i.freshToken !in old(db).tokens ==>
                && (ok <==> i.workspace in old(db).workspaces && (i.found.Some? || SeatAnswers.HasRoom(old(db), i)))
                && (ok ==> SeatAnswers.Invited(old(db), db, i)) && (!ok ==> db == old(db))
    {
      ghost var before := db;
      if Consistent(before) {
        InviteConsistentIff(before, i);
        if SeatAnswers.AllSucceed(i) && i.freshToken !in before.tokens { SeatAnswers.InviteIs(before, i); }
      }
      if i.seat.Fails? {
        return false;
      }
      var (seated, seat) := ClaimWorkerSeat(db, i.workspace, i.email, i.requested, i.found, i.freshId);
      db := seated;
      if i.seat.LandsButErrs? || !(seat.Reused? || seat.Created?) {
        return false;
      }
      if Lands(i.supersede) {
        db := EndInvites(db, i.workspace, seat.memberId, Superseded);
      }
      if !i.supersede.Succeeds? {
        return false;
      }
      var inserted := false;
      if Lands(i.insert) {
        var (db', landed) := InsertToken(db, i.freshToken, InviteRow(i, seat.memberId));
        db, inserted := db', landed;
      }
      if !i.insert.Succeeds? || !inserted {
        if seat.Created? && Lands(i.rollback) {
          db := DeletePending(db, seat.memberId, i.workspace);
        }
        return false;
      }
      ok := true;
    }

    method Revoke(workspace: string, memberId: string, lookup: Outcome, tokenWrite: Outcome, seatDelete: Outcome)
      returns (ok: bool)
      modifies this
      ensures (db, ok) == RevokeWorkerInvite(old(db), workspace, memberId, lookup, tokenWrite, seatDelete)
      ensures Consistent(old(db)) ==> Consistent(db)
      ensures ok <==>
                SeatAnswers.Pending(old(db), workspace, memberId) && lookup == tokenWrite == seatDelete == Succeeds
      ensures ok ==>
                db == Db(old(db).workspaces, SeatAnswers.Ended(old(db).tokens, workspace, memberId, Revoked),
                         old(db).members - {memberId})
    {
      ghost var before := db;
      SeatAnswers.RevokeIs(before, workspace, memberId, lookup, tokenWrite, seatDelete);
      if Consistent(before) { RevokeKeepsConsistent(before, workspace, memberId, lookup, tokenWrite, seatDelete); }
      if !lookup.Succeeds? || memberId !in db.members || db.members[memberId].workspace != workspace {
        return false;
      }
      if db.members[memberId].active || db.members[memberId].seatIndex == 0 {
        return false;
      }
      if Lands(tokenWrite) {
        db := EndInvites(db, workspace, memberId, Revoked);
      }
      if !tokenWrite.Succeeds? {
        return false;
      }
      if Lands(seatDelete) {
        db := DeletePending(db, memberId, workspace);
      }
      ok := seatDelete.Succeeds?;
    }

    /** A claim from request to answer; `outcomes` says how each of its statements ends. */
    method ClaimDeepLink(token: string, caller: Caller, outcomes: seq<Outcome>, now: int) returns (claim: Claim)
      modifies this
      ensures (db, claim) == ClaimAlone(old(db), Claim(token, caller, Read), outcomes, now)
      ensures Consistent(old(db)) ==> Consistent(db)
      ensures |outcomes| >= 5 ==> claim.pc.Done?
      ensures ClaimAnswers.AllSucceed(outcomes) ==>
                var (db', result) := ClaimAnswers.Answer(old(db), token, caller, now);
                db == db' && claim.pc == Done(result)
    {
      claim := Claim(token, caller, Read);
      var n := 0;
      while n < |outcomes|
        invariant 0 <= n <= |outcomes|
        invariant (db, claim) == ClaimAlone(old(db), Claim(token, caller, Read), outcomes[..n], now)
        invariant StatementsLeft(claim.pc) + n <= 5 || claim.pc.Done?
      {
        assert outcomes[..n + 1][..n] == outcomes[..n];
        var (db', claim') := ClaimStep(db, claim, outcomes[n], now);
        db, claim := db', claim';
        n := n + 1;
      }
      assert outcomes[..n] == outcomes;
      if ClaimAnswers.AllSucceed(outcomes) { ClaimAnswers.LoneClaimIs(old(db), token, caller, outcomes, now); }
      if Consistent(old(db)) { ClaimKeepsConsistent(old(db), token, caller, outcomes, now); }
    }
  }

  /** How many statements a claim can still run: read, look up, spend, bind, undo. */
  function StatementsLeft(pc: Pc): nat {
    match pc
    case Read => 5
    case LookUpSeat(_) => 4
    case Spend(_) => 3
    case Bind(_) => 2
    case Expire => 1
    case Undo => 1
    case Done(_) => 0
  }
}

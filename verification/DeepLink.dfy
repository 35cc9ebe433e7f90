/**
 * The token and seat tables behind deep links, and each single statement the
 * handlers run against them. Addresses are already trimmed and lower-cased.
 */
module DeepLink {
  import opened Common

  datatype TokenKind = Share | Referral | WorkerInvite

  datatype TokenState = Active | Claimed(claimer: string) | Expired | Revoked | Superseded

  datatype Intent = InviteIntent(memberId: string, invitedEmail: string) | OtherIntent

  datatype Token = Token(kind: TokenKind, intent: Intent, workspace: Option<string>, state: TokenState, expiresAt: int)

  datatype Role = Owner | Editor | Viewer

  datatype Member = Member(workspace: string, email: Option<string>, role: Role, active: bool, seatIndex: int,
                           identity: Option<string>)

  datatype Db = Db(workspaces: set<string>, tokens: map<string, Token>, members: map<string, Member>)

  predicate InvitesTo(t: Token, memberId: string) {
    t.kind.WorkerInvite? && t.intent.InviteIntent? && t.intent.memberId == memberId
  }

  // ---- tokens --------------------------------------------------------------

  /** The compare-and-swap of transitionToClaimed; the flag is the affected-row count. */
  function CasClaim(db: Db, token: string, claimer: string): (Db, bool) {
    if token in db.tokens && db.tokens[token].state.Active?
    then (db.(tokens := db.tokens[token := db.tokens[token].(state := Claimed(claimer))]), true)
    else (db, false)
  }

  /** uq_deep_link_active_worker_invite: an active invite of this seat under another token. */
  predicate InviteTaken(db: Db, memberId: string, except: string) {
    exists t :: t in db.tokens && t != except && db.tokens[t].state.Active? && InvitesTo(db.tokens[t], memberId)
  }

  /** revertClaim looks at the state only, not at who claimed. */
  function RevertClaim(db: Db, token: string): Db {
    if token !in db.tokens || !db.tokens[token].state.Claimed? then db
    else if db.tokens[token].kind.WorkerInvite? && db.tokens[token].intent.InviteIntent?
            && InviteTaken(db, db.tokens[token].intent.memberId, token) then db
    else db.(tokens := db.tokens[token := db.tokens[token].(state := Active)])
  }

  function ExpireToken(db: Db, token: string): Db {
    if token in db.tokens && db.tokens[token].state.Active?
    then db.(tokens := db.tokens[token := db.tokens[token].(state := Expired)])
    else db
  }

  /** Ends every active invite of a seat: superseded by a new invite, or revoked by the owner. */
  function EndInvites(db: Db, workspace: string, memberId: string, state: TokenState): Db {
    db.(tokens := map t | t in db.tokens ::
      if db.tokens[t].workspace == Some(workspace) && InvitesTo(db.tokens[t], memberId) && db.tokens[t].state.Active?
      then db.tokens[t].(state := state) else db.tokens[t])
  }

  /** The insert fails on a token that exists, and on a second active invite of one seat. */
  function InsertToken(db: Db, token: string, row: Token): (Db, bool) {
    if token in db.tokens then (db, false)
    else if row.state.Active? && row.kind.WorkerInvite? && row.intent.InviteIntent?
      && InviteTaken(db, row.intent.memberId, token)
    then (db, false)
    else (db.(tokens := db.tokens[token := row]), true)
  }

  // ---- seats ---------------------------------------------------------------

  function Activate(db: Db, memberId: string, workspace: string, identity: string): Db {
    if memberId in db.members && db.members[memberId].workspace == workspace
    then db.(members := db.members[memberId := db.members[memberId].(active := true, identity := Some(identity))])
    else db
  }

  function DeletePending(db: Db, memberId: string, workspace: string): Db {
    if memberId in db.members && db.members[memberId].workspace == workspace && !db.members[memberId].active
    then db.(members := db.members - {memberId})
    else db
  }

  const MAX_WORKERS: nat := 2
  const MAX_EDITORS: nat := 2

  function Seats(db: Db, workspace: string): set<string> {
    set m | m in db.members && db.members[m].workspace == workspace
  }

  function Workers(db: Db, workspace: string): set<string> {
    set m | m in Seats(db, workspace) && db.members[m].seatIndex > 0
  }

  function Editors(db: Db, workspace: string): set<string> {
    set m | m in Seats(db, workspace) && (db.members[m].role.Owner? || db.members[m].role.Editor?)
  }

  /** The pending seats already held for an address. */
  function PendingFor(db: Db, workspace: string, email: string): set<string> {
    set m | m in Seats(db, workspace) && !db.members[m].active && db.members[m].email == Some(email)
  }

  predicate SeatFree(db: Db, workspace: string, index: int) {
    forall m :: m in Seats(db, workspace) ==> db.members[m].seatIndex != index
  }

  /** uq_workspace_members_email_normalized. */
  predicate EmailTaken(db: Db, workspace: string, email: string) {
    exists m :: m in Seats(db, workspace) && db.members[m].email == Some(email)
  }

  datatype SeatOutcome =
    | WorkspaceNotFound
    | SeatCapExceeded
    | SeatError
    | Reused(memberId: string, role: Role)
    | Created(memberId: string, role: Role)

  function EffectiveRole(editors: nat, requested: Role): Role {
    if requested.Editor? && editors >= MAX_EDITORS then Viewer else requested
  }

  /** claim_worker_seat: `found` is the pending seat the address already holds, if any. */
  function ClaimWorkerSeat(db: Db, workspace: string, email: string, requested: Role, found: Option<string>,
                           freshId: string): (Db, SeatOutcome)
    requires !requested.Owner?
    requires if found.Some? then found.value in PendingFor(db, workspace, email)
             else PendingFor(db, workspace, email) == {}
  {
    if workspace !in db.workspaces then (db, WorkspaceNotFound)
    else if found.Some? then
      var role := EffectiveRole(|Editors(db, workspace) - {found.value}|, requested);
      (db.(members := db.members[found.value := db.members[found.value].(role := role)]), Reused(found.value, role))
    else
      var role := EffectiveRole(|Editors(db, workspace)|, requested);
      if |Workers(db, workspace)| >= MAX_WORKERS then (db, SeatCapExceeded)
      else if !SeatFree(db, workspace, 1) && !SeatFree(db, workspace, 2) then (db, SeatCapExceeded)
      else if freshId in db.members || EmailTaken(db, workspace, email) then (db, SeatError)
      else
        var index := if SeatFree(db, workspace, 1) then 1 else 2;
        (db.(members := db.members[freshId := Member(workspace, Some(email), role, false, index, None)]),
         Created(freshId, role))
  }

  // ---- the claim handler, one statement at a time --------------------------

  datatype Caller = Caller(identity: Option<string>, deviceHash: Option<string>, googleEmail: Option<string>)

  datatype ClaimResult = Granted | ResultExpired | ResultRevoked | NotFound | AlreadyByYou | AlreadyByOther

  datatype Pc =
    | Read
    | Expire
    | LookUpSeat(row: Token)
    | Spend(row: Token)
    | Bind(row: Token)
    | Undo
    | Done(result: ClaimResult)

  datatype Claim = Claim(token: string, caller: Caller, pc: Pc)

  function Claimer(c: Caller): Option<string> {
    if c.identity.Some? then c.identity else c.deviceHash
  }

  function MapTerminalState(row: Token, claimer: Option<string>): ClaimResult {
    match row.state
    case Expired => ResultExpired
    case Revoked => ResultRevoked
    case Superseded => ResultRevoked
    case Claimed(holder) => if claimer == Some(holder) then AlreadyByYou else AlreadyByOther
    case Active => NotFound
  }

  /** Where a claim goes once it has read an active, unexpired row. */
  function AfterRead(row: Token, c: Caller): Pc {
    if Claimer(c).None? then Done(NotFound)
    else if !row.kind.WorkerInvite? then Spend(row)
    else if c.identity.None? || !row.intent.InviteIntent? then Done(NotFound)
    else LookUpSeat(row)
  }

  /** The identity checks of a worker invite, made before its token is spent. */
  predicate MayBind(db: Db, row: Token, c: Caller) {
    && row.intent.InviteIntent? && row.intent.memberId in db.members
    && Some(db.members[row.intent.memberId].workspace) == row.workspace
    && db.members[row.intent.memberId].email == Some(row.intent.invitedEmail)
    && row.intent.invitedEmail != "" && c.googleEmail == Some(row.intent.invitedEmail)
  }

  function ClaimStep(db: Db, c: Claim, o: Outcome, now: int): (Db, Claim) {
    match c.pc
    case Read =>
      if !o.Succeeds? || c.token !in db.tokens then (db, c.(pc := Done(NotFound)))
      else
        var row := db.tokens[c.token];
        if row.state.Active? && row.expiresAt < now then (db, c.(pc := Expire))
        else if !row.state.Active? then (db, c.(pc := Done(MapTerminalState(row, Claimer(c.caller)))))
        else (db, c.(pc := AfterRead(row, c.caller)))
    case Expire =>
      (if Lands(o) then ExpireToken(db, c.token) else db, c.(pc := Done(ResultExpired)))
    case LookUpSeat(row) =>
      (db, c.(pc := if o.Succeeds? && MayBind(db, row, c.caller) then Spend(row) else Done(NotFound)))
    case Spend(row) =>
      if Claimer(c.caller).None? then (db, c.(pc := Done(NotFound)))
      else
        var (db', won) := CasClaim(db, c.token, Claimer(c.caller).value);
        if o.Fails? then (db, c.(pc := Done(AlreadyByOther)))
        else if o.LandsButErrs? || !won then (db', c.(pc := Done(AlreadyByOther)))
        else (db', c.(pc := if row.kind.WorkerInvite? then Bind(row) else Done(Granted)))
    case Bind(row) =>
      if c.caller.identity.None? || !row.intent.InviteIntent? || row.workspace.None? then (db, c.(pc := Undo))
      else
        (if Lands(o) then Activate(db, row.intent.memberId, row.workspace.value, c.caller.identity.value) else db,
         c.(pc := if o.Succeeds? then Done(Granted) else Undo))
    case Undo =>
      (if Lands(o) then RevertClaim(db, c.token) else db, c.(pc := Done(NotFound)))
    case Done(_) => (db, c)
  }
}

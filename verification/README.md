# Daftar: verified models of the sync, invite, voice, call, mail and session protocols

Daftar is a ledger app with a Supabase back end and an agent service. This project
models the parts of both that carry protocol state or parse what a merchant says, and
proves what they are for. Each module follows one part of the program:

- **Sync op-log.** `Deltas`, `DeltaMerge` and `Intake` are the field deltas and the
  validation of a pushed batch, `VerbTable` and `IntakeRules` the tables of what every verb
  and every raw op comes to, `OpLog` the commit-ordered append and the page query,
  `Push` and `PushAcks` the handler over log, mirror and usage, `Projection` the guarded
  row mirror, `OutOfOrder` and `ArrivalOrder` projections that land out of order,
  `CrashRetry` a push that fails and is sent again, `RePush` and `PushAgain` the same
  with other writers in between, `Quota` the monthly allowance under interleaving.
  `ArchiveFilter`, `Pull`, `PullPages`, `PullAnswers` and `Drain` are the reader's side, `NoLostOps` and
  `Withheld` the two sides together, `LegacyDraw` the split draw-then-insert that the
  atomic append replaced.
- **Deep links.** `DeepLink` has the two tables and every single statement on them,
  `ClaimSafety` any number of claims interleaved with everything else,
  `SeatConsistency` the three handlers one at a time with any statement failing,
  `ClaimAnswers` and `SeatAnswers` what each handler answers and leaves,
  `DeepLinkServer` the handlers as they change the tables.
- **Spoken amounts.** `Numerals` is the accumulator and its phrases, `EnglishPhrases` and
  `ArabicPhrases` how the languages put numbers into words, `EnglishSpellings` and
  `ArabicSpellings` the words in all their spellings, `SpokenEnglish` and
  `SpokenArabic` the parsers and their round trips, `EverydayArabic` the amounts that are
  heard short, `SpokenMajor` the choice among readings, `GoalSlice` the search for names
  in a goal.
- **Calls and mail.** `RegionGate`, `Calls`, `CallSafety`, `CallHonour`,
  `CallRules` and `CallServer` are the plan and run protocol, `EmailBatch` the batch mail
  loop and its idempotency store, `EmailAnswers` its rows, `EmailRace` its requests
  interleaved.
- **Session tokens.** `Base64Url` and `Base64Text`, `SyncJwt`, and `SessionSecrets` for the signing secret.

What the source changes in place is a class or a loop here, tied by its `ensures` to a
function, and the theorems are about that function. Where an operation is a table (verbs and
columns, spellings, calling codes, gates, answers), the table is written out a second
time by meaning, and the two are proved equal. A statement against the database
ends in one of three ways: it takes effect, it does not, or it takes effect although an
error is reported.

## What the proofs show about the program

- Replaying a single CREATE can take a row's op_seq back after a later write; the
  comment at supabase/functions/push-sync-ops/index.ts:347-352 holds for UPDATE and
  DELETE only (`Projection.CreateReplayHarmlessIff`). Re-pushing the whole batch still
  heals it for a single writer (`Projection.BatchIdempotent`); with other writers on a row
  the batch creates, `RePush.RePushHarmlessIff` says exactly when it does, and
  `RePush.RePushLosesANote` is a note that is lost.
- A patch that lands behind a higher number on its row is dropped whole, with every
  column it carries, so projections that land out of order can leave another mirror than
  the log; `ArrivalOrder.RowSameIff` says exactly when they do not, for any log and any
  order of arrival, and `ArrivalOrder.LatePatchLoses` is a name that is lost.
- An UPDATE cannot change a ledger's type, the ledger of a contact, or the contact or
  attachment of a transaction; such deltas are accepted, logged and not projected
  (`DeltaMerge.EditIsCreateIff`).
- A full page of unstamped rows would stop a reader for good (`PullPages.PageStuckIff`);
  the append always stamps, so logs it wrote cannot get there.
- An op withheld for an archived ledger is passed for good: the watermark moves over it,
  and opening the ledger again does not bring it back (`Withheld.DecidedForGood`,
  `Withheld.PullAfterReopening`).
- A contact or transaction created with `field_deltas` 0 or false is refused by the
  pre-flight check, although its projection would have skipped it
  (`Deltas.PreflightExactIff`). No op passes the check and is then refused.
- A reservation that is made but reported as failed, and a release that is lost, stay
  charged (`Quota.UsageIsNewRows`, `Quota.MisreportedReservationIsCharged`,
  `Quota.LostReleaseIsCharged`).
- A granted claim has no seat exactly when the seat was deleted between its look-up and
  its activation (`ClaimSafety.GrantBindsSeatIff`).
- An invite whose token insert took effect but reported an error removes the seat and
  leaves the token pointing nowhere (`SeatConsistency.InviteConsistentIff`,
  `SeatConsistency.MisreportedInviteOrphans`).
- "اثنا عشر" reads as ten: an amount said the everyday way is heard two short in each
  group of three digits that ends in twelve (`EverydayArabic.EverydayIsHeardIff`).
- A count said right before an Arabic dual is lost (`SpokenArabic.CountBeforeDualIsLost`).
- Two runs of one row that overlap at the create can both succeed, under the same
  idempotency key (`CallSafety.RunningTwiceOverlaps`), and planning again while a create
  is in flight hands out a token that becomes void (`CallHonour.PlanInFlightIsVoid`).
- Two mail requests that overlap at the SMTP await can both send
  (`EmailRace.TwoRequestsOverlap`).
- The two sides of a session token look for the secret differently: behind an empty or
  short first setting tokens are minted that no request is served with
  (`SessionSecrets.OwnTokenIsServedIff`).

## Model

| member | source | states |
|---|---|---|
| Deltas.PreflightExactIff | supabase/functions/_shared/sync_ops.ts:204-305 | for every entity type, verb and payload, bare numbers and booleans included, the pre-flight check raises what the projection raises, whatever instant stamps the op, except exactly when a contact or transaction is created from a falsy payload: the check refuses it and the projection would skip it |
| Deltas.ZeroPayloadIsRefused | supabase/functions/_shared/sync_ops.ts:204-216 | the input that shows the exception: `field_deltas` 0 on the creation of a contact |
| VerbTable.VerbsAsTold | supabase/functions/_shared/sync_ops.ts:119-155 | every verb, on every entity type and payload, has the effect that the written-out tables of verbs and columns give it; it is refused exactly when its payload is not good, and a creation without a record never is |
| VerbTable.ChecksAsTold | supabase/functions/_shared/sync_ops.ts:204-247 | the checks before the append pass exactly the good payloads, for every verb |
| VerbTable.RowAfterEdit | supabase/functions/_shared/sync_ops.ts:381-502 | on a row that is there and behind, UPDATE, USER_ARCHIVE, USER_UNARCHIVE, RESTORE and ACTIVATE_ARCHIVED leave every column as its rule says and touch no other row; on a missing or newer row they do nothing |
| VerbTable.RowAfterCreate | supabase/functions/_shared/sync_ops.ts:310-379 | a CREATE writes its columns, with their defaults, over the row that is there or over a fresh one |
| VerbTable.FlagVerbs | supabase/functions/_shared/sync_ops.ts:124-155 | archiving, unarchiving, restoring, activating and deleting without fields of their own change exactly their flag, the stamp and the number |
| DeltaMerge.EditIsCreateIff | supabase/functions/_shared/sync_ops.ts:310-459 | a CREATE followed by an UPDATE leaves, in every column a CREATE writes, the row one CREATE with the merged deltas would leave, exactly when the UPDATE asks for no change it cannot make |
| Intake.AcceptedIsProjectable | supabase/functions/push-sync-ops/index.ts:84-122 | an op that `normalizeOp` accepts never raises a validation error when projected, at whatever time it is stamped |
| Intake.AcceptedAreProjectable | supabase/functions/push-sync-ops/index.ts:318-337 | so nothing a batch appends can be refused by its projection: the "acked but not projected" branch is dead |
| Intake.SplitBatch | supabase/functions/push-sync-ops/index.ts:320-337 | the intake loop keeps the good ops in order and reports the bad ones by id; the request fails as a whole exactly when a bad op has no usable id |
| IntakeRules.NormalizeOpIff | supabase/functions/push-sync-ops/index.ts:84-122 | an op is accepted exactly when its four texts, type, verb, payload and time are good, and then each field is the trimmed or parsed one of the same name; the code of a refusal |
| IntakeRules.TrimIs | supabase/functions/_shared/validation.ts:55-68 | trimming cuts the white space off both ends, and all of it |
| IntakeRules.SpacesAre | supabase/functions/_shared/validation.ts:55-68 | white space is the list of code points ECMAScript trims |
| IntakeRules.AcceptedInOrder | supabase/functions/push-sync-ops/index.ts:318-337 | each op that can be accepted is found, as itself, at its place among the accepted ones |
| IntakeRules.RefusedInOrder | supabase/functions/push-sync-ops/index.ts:322-337 | each op that cannot be accepted is reported at its place among these, by the id it was sent with and the code of its fault |
| IntakeRules.PushLeaves | supabase/functions/push-sync-ops/index.ts:344-412 | after a completed push every new log row holds an acceptable raw op, field by field; every acceptable one is logged and answered by its id in its place; and the mirror is the projection, in order, of what their verbs do by the tables |
| OpLog.AppendKeepsValid | supabase/migrations/20260806140000_stage_8_8_commit_ordered_op_seq.sql:63-144 | an append keeps number order equal to commit order, every row stamped, and each op id logged once; a repeated id returns its old number |
| OpLog.PageIsSlice | supabase/functions/pull-sync-ops/index.ts:219-242 | on a commit-ordered log the sorted, limited page query is a contiguous stretch of the log that starts right above the watermark |
| OpLog.PageIsAbove | supabase/functions/pull-sync-ops/index.ts:230-234 | on any table at all, a page holds only numbers above the watermark |
| ArchiveFilter.MarkContacts | supabase/functions/pull-sync-ops/index.ts:202-207 | the contact loop adds exactly the contacts whose ledger is archived |
| ArchiveFilter.MarkTransactions | supabase/functions/pull-sync-ops/index.ts:209-214 | the transaction loop adds exactly the transactions whose contact is under an archived ledger |
| ArchiveFilter.ResolveArchivedEntityIds | supabase/functions/pull-sync-ops/index.ts:120-217 | three bulk lookups with three early returns give the set a per-kind definition gives |
| ArchiveFilter.BulkIsPerRow | supabase/functions/pull-sync-ops/index.ts:120-217 | with ids unique across entity types, membership in that set is the per-row rule: a contact under an archived ledger, or a transaction of one; a ledger op is never withheld |
| ArchiveFilter.RowArchivedIff | supabase/functions/pull-sync-ops/index.ts:120-217 | that rule in words of the tables: the op is of a contact whose ledger is archived, or of a transaction with such a contact |
| Pull.HandlePage | supabase/functions/pull-sync-ops/index.ts:307-335 | the row loop: one row at a time, stopping at the output limit, the cursor moving only over handled stamped rows |
| Pull.PullSyncOps | supabase/functions/pull-sync-ops/index.ts:280-360 | the page loop with its three exits computes the request specification, each page on its own state of the database |
| PullAnswers.LimitIs | supabase/functions/pull-sync-ops/index.ts:271-275 | a limit from 1 to 500 is taken as asked for, without one it is 200, and others go to the nearer end |
| PullAnswers.ResolveDeviceRoles | supabase/functions/pull-sync-ops/index.ts:52-114 | the look-up loop gives each device the role of the active member who registered it, and "editor" where there is none or a look-up fails |
| PullAnswers.PulledOpsAreRows | supabase/functions/pull-sync-ops/index.ts:307-335 | every op of a response is a stamped row of a page the request read, with the role that page found for its device |
| PullPages.PageCovers | supabase/functions/pull-sync-ops/index.ts:286-342 | one page turn examines exactly the stamped rows the cursor passes, delivers those not withheld, and an exhausted scan leaves nothing above its cursor |
| PullPages.PageStuckIff | supabase/functions/pull-sync-ops/index.ts:311-341 | a page turn makes no progress and does not finish exactly when the page is full and no row on it has a server stamp |
| Drain.PullIsFilter | supabase/functions/pull-sync-ops/index.ts:252-360 | one request on a settled log returns at most `limit` ops, exactly the deliverable rows between the two watermarks; `has_more` false means nothing stamped is left above |
| Drain.PullAdvances | supabase/functions/pull-sync-ops/index.ts:344-357 | on a fully stamped log a request that reports more has strictly raised the watermark |
| Drain.PullCycle | lib/data/repositories/sync_engine_repository_impl.dart:131-191 | one sync cycle of at most 25 requests delivers exactly what is deliverable between its two watermarks, and either leaves nothing or shrinks the backlog by at least 25 rows |
| Drain.DrainAll | lib/data/repositories/sync_engine_repository_impl.dart:131-191 | so finitely many cycles drain the log, and all ops together are the deliverable rows above the start, in order |
| NoLostOps.RunKeepsGood | supabase/functions/pull-sync-ops/index.ts:284-360 | over every interleaving of appends, archive changes, page fetches, answers and abandoned requests, each device has been shown exactly the rows at or below its watermark |
| NoLostOps.NoOpIsLost | supabase/functions/pull-sync-ops/index.ts:219-360 | in every reachable state each log row at or below a device's watermark was delivered to it exactly once, or was withheld by the page that examined it |
| Withheld.DecidedForGood | supabase/functions/pull-sync-ops/index.ts:293-335 | whatever happens later, a row at or below a device's watermark has arrived, once, if the page that examined it did not withhold it, and otherwise never arrives |
| Withheld.ReopenedTooLate | supabase/functions/pull-sync-ops/index.ts:317-333 | an op withheld for an archived ledger never reaches that device, however often it pulls and whatever the archive tables say by then |
| Withheld.PullAfterReopening | supabase/functions/pull-sync-ops/index.ts:317-333 | a run in which the ledger is opened again and the device pulls once more, and the op is still missing |
| LegacyDraw.LossIsForever | supabase/functions/push-sync-ops/index.ts:16-24 | in the protocol that drew a number before inserting, an op stored below a watermark and undelivered stays undelivered under every later draw, commit and pull |
| LegacyDraw.SplitDrawLosesAnOp | supabase/functions/push-sync-ops/index.ts:16-24 | and five steps of two writers and one reader reach such a loss, for any two ops, any limit and any archive state |
| Push.SyncServer.ReserveSyncUsage | supabase/migrations/20260806121000_stage_8_8_atomic_rpcs.sql:46-116 | a reservation is granted exactly when the month has room for all of it, and is then counted in full; otherwise nothing is counted |
| Push.SyncServer.ReleaseSyncUsage | supabase/functions/push-sync-ops/index.ts:188-203 | a release subtracts, clamped at zero, and ignores counts that are not positive |
| Push.SyncServer.PushSyncOps | supabase/functions/push-sync-ops/index.ts:339-423 | log, mirror, results and usage after a batch, for an append or projection that fails or takes effect while reporting an error, and for a reservation or release that fails or is misreported: what stays charged is what was newly appended and answered, unless the reservation or the release went wrong |
| Push.SyncServer.Handle | supabase/functions/push-sync-ops/index.ts:283-423 | the whole request: a caller who may not write, more than 500 ops, an unregistrable device or a malformed batch change and charge nothing; otherwise the accepted ops are pushed and the refused ones reported |
| PushAcks.EveryOpIsAcked | supabase/functions/push-sync-ops/index.ts:344-412 | for any batch on any log, with repeated and old ids, each op is answered in order with the number its id has in the log; "duplicate" exactly when the id was logged before or came earlier in the batch; `consumed` is the number of rows added |
| CrashRetry.TriesAbsorbed | supabase/functions/push-sync-ops/index.ts:344-412 | whatever mirror any number of failed attempts leave, projecting the whole batch on it gives what projecting it on the first mirror gives |
| CrashRetry.CrashRetryEquivalence | supabase/functions/push-sync-ops/index.ts:344-423 | a fresh batch that fails anywhere any number of times and is then pushed whole leaves the log grown by exactly the batch in order, and the mirror equal to the guard-free fold of those rows |
| Quota.QuotaConserved | supabase/functions/push-sync-ops/index.ts:158-203 | over every interleaving of requests, with reservations misreported and releases lost, the counter is what running pushes hold plus what ended ones were left charged, at most the cap, and the log grows by the rows counted as new |
| Quota.UsageIsNewRows | supabase/functions/push-sync-ops/index.ts:339-423 | when all pushes have ended, usage is the new rows, less one per push whose projection reported an error, plus exactly what misreported reservations and lost releases left behind |
| Quota.MisreportedReservationIsCharged | supabase/functions/push-sync-ops/index.ts:158-186 | one request whose reservation is made but reported as failed: no row, and one event charged |
| Quota.LostReleaseIsCharged | supabase/functions/push-sync-ops/index.ts:188-203 | one request that sends an old op again and whose release is lost: no new row, and one event charged |
| Projection.InOrderIsFold | supabase/functions/_shared/sync_ops.ts:461-502 | in sequence order the op_seq guard never fires: the mirror is the guard-free fold of the log |
| Projection.RedeliveryIsFold | supabase/functions/_shared/sync_ops.ts:381-502 | re-projecting already projected UPDATEs and DELETEs, any number of times at any later point, leaves the mirror equal to the fold |
| Projection.CreateReplayHarmlessIff | supabase/functions/_shared/sync_ops.ts:310-379 | replaying one CREATE is harmless exactly when no later op of the log is on its row; otherwise the row's op_seq goes back |
| Projection.BatchIdempotent | supabase/functions/_shared/sync_ops.ts:251-502 | projecting an ascending batch a second time changes nothing, from any mirror, CREATEs included |
| Projection.PrefixAbsorbed | supabase/functions/push-sync-ops/index.ts:347-352 | projecting any prefix first and then the whole batch is the same as the whole batch |
| RePush.RePushHarmlessIff | supabase/functions/push-sync-ops/index.ts:344-412 | with any number of writers: pushing part of a projected log again changes nothing exactly when, for every row the part creates, it holds the log's last op on the row and every column it writes from that creation on ends with the value the log ends with |
| RePush.TwoWritersIff | supabase/functions/push-sync-ops/index.ts:344-412 | a creation, another writer's edit and an own edit: the own batch may be pushed again exactly when the other edit touches no column of the creation, or one rewritten since, or agrees with it |
| RePush.RePushLosesANote | supabase/functions/_shared/sync_ops.ts:310-379 | a log in which the other writer's note is lost |
| PushAgain.PushAgainHarmlessIff | supabase/functions/push-sync-ops/index.ts:344-412 | the handler on a batch that is in the log: it adds no row, charges nothing, and leaves the mirror as it is exactly under that condition |
| OutOfOrder.AnyOrderHighestSeq | supabase/functions/_shared/sync_ops.ts:461-502 | UPDATEs and DELETEs in any order leave each row at the highest op_seq among them and its own |
| OutOfOrder.AnyOrderMonotone | supabase/functions/_shared/sync_ops.ts:461-502 | the op_seq of a row never goes down while they land |
| OutOfOrder.AnyOrderHighestWins | supabase/functions/_shared/sync_ops.ts:461-502 | every column the highest op writes ends with that op's value |
| OutOfOrder.RowAfterArrival | supabase/functions/_shared/sync_ops.ts:310-502 | for any ops in any order, creations included: a row ends as its start with the columns of the ops that arrive in time written over it, at the highest op_seq since its last creation |
| ArrivalOrder.PermutedDelivers | supabase/functions/_shared/sync_ops.ts:461-502 | any reordering of a log delivers every op of it and nothing else, which is all the lemmas below ask of an arrival |
| ArrivalOrder.RowSameIff | supabase/functions/_shared/sync_ops.ts:310-502 | however a log arrives, each op once or many times, creations included, a row ends as in sequence order exactly when no creation of it arrives after the last arrival of its highest-numbered op and the ops in time leave every column at its in-order value |
| ArrivalOrder.AnyArrivalSameIff | supabase/functions/_shared/sync_ops.ts:310-502 | and the whole mirror does exactly when that holds for every row |
| ArrivalOrder.PatchesSameIff | supabase/functions/_shared/sync_ops.ts:461-502 | UPDATEs and DELETEs on a row that is there and behind them: any order gives the in-order row exactly when those that no newer one overtook leave in every column the value of the newest op that writes it |
| ArrivalOrder.LatePatchHarmlessIff | supabase/functions/_shared/sync_ops.ts:461-502 | so one patch that lands last and too late leaves the in-order row exactly when each of its columns was rewritten by the newer patches or already held its value |
| ArrivalOrder.LatePatchLoses | supabase/functions/_shared/sync_ops.ts:461-502 | a concrete field that an out-of-order patch loses |
| ArrivalOrder.LateCreationTells | supabase/functions/_shared/sync_ops.ts:310-379 | a CREATE that arrives after an edit of its row never leaves the in-order row, on any mirror |
| ArrivalOrder.MirrorIsFoldIff | supabase/functions/push-sync-ops/index.ts:344-412 | however the pushes of any number of writers, retries included, interleave their projections of a log, the mirror is the guard-free fold of the log exactly under that condition |
| ClaimSafety.AtMostOneOk | supabase/functions/claim-deep-link/index.ts:73-203 | over all interleavings of claims, expiry, supersede, revoke, seat writes and reverts, no token is granted twice |
| ClaimSafety.OkIsForEver | supabase/functions/claim-deep-link/index.ts:73-106 | once granted, a token stays claimed by that claimer whatever happens later |
| ClaimSafety.AskingAgain | supabase/functions/claim-deep-link/index.ts:206-223 | at any time after a grant, a further claim of that token changes nothing and is told "by you" exactly when it comes from the same claimer |
| ClaimSafety.UndoIsOwn | supabase/functions/claim-deep-link/index.ts:97-106 | the revert tests only the state, yet the claim it takes back is always its own |
| ClaimSafety.OnlyTheInvitee | supabase/functions/claim-deep-link/index.ts:120-165 | a worker invite is only ever granted to a signed-in caller with the invited address |
| ClaimSafety.GrantBindsSeatIff | supabase/functions/claim-deep-link/index.ts:133-203 | over every run: a claim that found its seat, spent its token and answers ok has the seat exactly when no deletion of the seat took effect between its look-up and its activation |
| ClaimSafety.OkWithoutSeat | supabase/functions/claim-deep-link/index.ts:180-194 | a revoke between the two writes leaves a granted claim without a seat |
| ClaimAnswers.GrantedInTime | supabase/functions/claim-deep-link/index.ts:286-302 | over all interleavings a claim is granted only if it read its token active and not past its time |
| ClaimAnswers.LoneClaimIs | supabase/functions/claim-deep-link/index.ts:108-302 | a claim that runs alone with all statements succeeding: its answer and the tables it leaves, for every state its token may be in, or none |
| ClaimAnswers.OneInviteAlways | supabase/migrations/20260706120000_deep_link_tokens_state_machine.sql:95-97 | over all interleavings no seat ever has two active invites, whatever is inserted, ended or given back |
| ClaimAnswers.AnonymousCannotTell | supabase/functions/_shared/deep_link_types.ts:115-122 | whoever is not signed in is answered alike for a revoked or superseded token and for one that never was |
| ClaimAnswers.FailedActivationGivesBack | supabase/functions/claim-deep-link/index.ts:180-194 | a claim whose activation alone fails leaves the tables as it found them |
| SeatConsistency.InviteConsistentIff | supabase/functions/invite-worker/index.ts:164-235 | an invite keeps tokens and seats consistent exactly unless its insert took effect while reporting an error and the rollback then removed the new seat |
| SeatConsistency.MisreportedInviteOrphans | supabase/functions/invite-worker/index.ts:164-235 | the input that shows it: a workspace with its owner alone, consistent before the invite and not after |
| SeatConsistency.RevokeKeepsConsistent | supabase/functions/revoke-worker-invite/index.ts:71-105 | a revoke keeps them consistent with any of its statements failing |
| SeatConsistency.ClaimKeepsConsistent | supabase/functions/claim-deep-link/index.ts:108-203 | a claim that runs alone keeps them consistent however its statements end and wherever it stops |
| SeatConsistency.AlwaysConsistentIff | supabase/functions/invite-worker/index.ts:164-235 | over any sequence of invites, revokes, claims and other links, with any write failing or misreported, after every request each active invite points at a seat of its workspace, each seat has at most one, and the caps hold, exactly as long as no invite orphans the token it inserted |
| SeatConsistency.CapsInNumbers | supabase/migrations/20260806121000_stage_8_8_atomic_rpcs.sql:145-273 | consistency bounds a workspace to two workers and two editors, the owner being one |
| SeatAnswers.InviteIs | supabase/functions/invite-worker/index.ts:164-235 | an invite whose statements succeed goes through exactly when the address has a pending seat or there is room; it leaves one active invite of the seat, for this address and time, the earlier ones superseded, the seat with the role the cap allows, and nothing else changed |
| SeatAnswers.RevokeIs | supabase/functions/revoke-worker-invite/index.ts:71-105 | a revoke answers ok exactly when the seat is pending and its statements succeed; then the seat is gone, no active invite of it is left, and nothing else has changed |
| DeepLinkServer.Server.Invite | supabase/functions/invite-worker/index.ts:164-235 | the handler's sequence of writes with its rollback equals the specified table change |
| DeepLinkServer.Server.Revoke | supabase/functions/revoke-worker-invite/index.ts:71-105 | token revoke first, pending-seat delete second, stopping at the first failure |
| DeepLinkServer.Server.ClaimDeepLink | supabase/functions/claim-deep-link/index.ts:264-330 | a claim run statement by statement to its answer, within five statements |
| Numerals.ReadsBack | agent/closing_agent/proposal.py:431-477 | the total/current accumulator reads every well-formed phrase of hundreds, scales and duals back to its value |
| SpokenEnglish.HandleToken | agent/closing_agent/proposal.py:441-475 | each branch of the English token loop does to the accumulator what the word means, articles looking one word ahead |
| SpokenEnglish.ParseEnglishWords | agent/closing_agent/proposal.py:431-477 | the index loop with lookahead equals the recursive fold of the words' meanings |
| SpokenEnglish.LexIff | agent/closing_agent/proposal.py:90-120 | a word is read with a meaning exactly when it is one of the written-out spellings of that meaning, plurals included |
| SpokenEnglish.NoiseMeansNothing | agent/closing_agent/proposal.py:431-477 | "and" and words that are no amount words, anywhere, plurals for singulars, and an article for a "one" right before a scale word, leave the meaning unchanged |
| SpokenEnglish.EnglishRoundTrip | agent/closing_agent/proposal.py:431-477 | for every n from 1 to 999,999,999 the English words for n, scale words singular or plural, "a" or "an" for "one" before them, and noise put in anywhere, parse to n |
| SpokenArabic.WawChangesNothing | agent/closing_agent/proposal.py:491-510 | gluing "و" onto any amount word never changes its value, although "و"+"احد" is itself a number word |
| SpokenArabic.HandleWord | agent/closing_agent/proposal.py:526-558 | each branch of the Arabic token loop does to the accumulator what the word means |
| SpokenArabic.ParseArabicWords | agent/closing_agent/proposal.py:513-559 | the loop over raw tokens equals the recursive fold of their meanings |
| SpokenArabic.LexIff | agent/closing_agent/proposal.py:121-189 | a word is read with a meaning exactly when it is one of the written-out spellings of that meaning: counts by gender and dialect, tens in both cases, hundreds, duals, scales, and every count with every glued hundred |
| SpokenArabic.CountBeforeDualIsLost | agent/closing_agent/proposal.py:535-556 | a count said right before a dual is lost: only the dual is heard |
| SpokenArabic.ReadIff | agent/closing_agent/proposal.py:491-510 | the parser passes over a token exactly when it is no such word, with "و" glued on or not |
| SpokenArabic.ArabicRoundTrip | agent/closing_agent/proposal.py:480-559 | for every n from 1 to 999,999,999 the Arabic words for n, hundreds glued or split, duals, in any of the written-out spellings, "و" glued onto any word and unread words anywhere, parse to n |
| EverydayArabic.EverydayIsHeardIff | agent/closing_agent/proposal.py:121-146 | with any words for the two of twelve that the parser makes nothing of, one for each place: for every n from 1 to 999,999,999 what is heard is two less in each group of three digits that ends in twelve, so n itself is heard exactly when no group does |
| EverydayArabic.EverydayTwosAreUnheard | agent/closing_agent/proposal.py:121-146 | the four everyday twos of twelve, by gender and case, are such words, with "و" glued on or not |
| EverydayArabic.TwelveReadsAsTen | agent/closing_agent/proposal.py:121-146 | twelve itself is heard as ten with each of the four, among any unread words |
| SpokenMajor.EnglishAmountIsHeard | agent/closing_agent/proposal.py:562-578 | words for n are what `parse_spoken_major` answers, unless a digit with a scale word comes first |
| SpokenMajor.ArabicAmountIsHeard | agent/closing_agent/proposal.py:562-578 | the same for Arabic words among English words that mean nothing |
| SpokenMajor.SnapIsStable | agent/closing_agent/proposal.py:660-697 | snapping an amount to what was said yields the given or the spoken amount, keeps a right one, and a second pass changes nothing |
| SpokenMajor.SnapIs | agent/closing_agent/proposal.py:688-697 | the exact snap: the amount said, ten and a hundred times it, and in a currency with minor units the amount in major ones, become the amount said; every other is left alone |
| SpokenMajor.FirstHeard | agent/closing_agent/proposal.py:562-578 | what is heard is the first amount a recogniser finds, in their order |
| SpokenMajor.SaidIsSnapped | agent/closing_agent/proposal.py:365-369 | from the words of n to the amount proposed, in YER and in every other currency |
| GoalSlice.FindHintIndex | agent/closing_agent/proposal.py:594-618 | the search loop ends and returns exactly the first occurrence no longer name shadows, or -1 when there is none |
| GoalSlice.GoalSliceForHint | agent/closing_agent/proposal.py:621-657 | a slice starts at the name and ends at the first other listed name said after it, or at the end |
| GoalSlice.SliceUnique | agent/closing_agent/proposal.py:621-657 | a contact has one slice at most in a goal |
| GoalSlice.DifferentPlaces | agent/closing_agent/proposal.py:594-618 | two different listed names never start at the same place |
| GoalSlice.EarlierStops | agent/closing_agent/proposal.py:621-657 | an earlier contact's slice stops before a later contact's name |
| GoalSlice.SlicesDisjointIff | agent/closing_agent/proposal.py:621-657 | the slices of two contacts are disjoint exactly when the two occurrences do not overlap |
| RegionGate.YemenIff | agent/calls/j10.py:61-130 | the prefix search answers Yemen exactly for numbers that begin +967 |
| RegionGate.NeverYemen | agent/calls/j10.py:133-156 | nothing the region gate lets through is a +967 number or carries Yemen's region, whatever is configured |
| RegionGate.CallingRegionIff | agent/calls/j10.py:61-130 | a number carries a region exactly when it begins with a code of the written-out list of codes, whatever the order of the table; "+1" is the shared plan |
| RegionGate.RegionAllowedIff | agent/calls/j10.py:133-156 | the gate passes a number exactly when it begins with the code of its region, or with "+1" and the region is the configured one, and the region has a code other than Yemen's or is US or CA |
| Calls.KeysAreInjective | agent/calls/router.py:319-322 | different (batch, contact, attempt) triples never share an idempotency key |
| CallSafety.EveryCreateIsJustified | agent/calls/router.py:240-337 | over all interleavings at the await, each create presented the token of the pair's latest plan, not since rejected or used; passed the kill switch, allowlist, do-not-call and region gates; never +967; and a retry only after a first success |
| CallSafety.TwoKeysPerPair | agent/calls/router.py:319-337 | even then two creates share a key exactly when they are the same attempt of the same pair |
| CallSafety.RunSucceedsOnce | agent/calls/router.py:240-368 | as long as no two creates of one attempt are open at once, each attempt of a pair succeeds at most once |
| CallSafety.OverlapSucceedsTwice | agent/calls/router.py:323-359 | from any state with two such creates open, that attempt can succeed twice |
| CallSafety.RunningTwiceOverlaps | agent/calls/router.py:270-359 | and a row run twice before its first create answers gets there, for any recipient that passes the gates |
| CallSafety.OneStepSucceedsOnce | agent/calls/router.py:240-368 | with one-step handlers each attempt succeeds at most once, so a pair is called at most twice |
| CallSafety.CallsAreOnRecord | agent/calls/router.py:353-359 | over all interleavings exactly the created calls have a mask and a context on record, and these are of a number that was dialled and of its batch |
| CallHonour.DialsIff | agent/calls/router.py:250-311 | in every reachable state a run row dials exactly when its attempt is due and it presents the token of the pair's open plan, which passes all gates |
| CallHonour.TokenHonouredIff | agent/calls/router.py:216-368 | over all interleavings a token that a plan handed out is honoured exactly while its pair has since had no started call, rejection or new plan, the attempt is due, dialling is allowed and what was planned passes the gates of the moment |
| CallHonour.PlanInFlightIsVoid | agent/calls/router.py:216-229 | so a plan made while a create of its pair is in flight hands out a token that is void once that create succeeds |
| CallRules.PlanRowIs | agent/calls/router.py:163-237 | a plan row hands out its token exactly when the gates pass, it is no dry run and dialling is allowed; it is a dry run that changes nothing exactly when the gates pass and it is one; otherwise it is rejected with the first reason and the pair has no plan |
| CallRules.PlanBatchIs | agent/calls/router.py:371-408 | row i of a plan batch is decided by recipient i and answered with the i-th token |
| CallRules.CallGoesBackToItsPlan | agent/calls/router.py:204-337 | over all interleavings every call that is started goes back to a plan of its pair that handed out the very token, was no dry run, passed all gates when it was made, and was not ended since |
| CallRules.RunRowIs | agent/calls/router.py:250-311 | in every reachable state what a run row is answered at once follows from the trace: duplicate with the call started, invalid handle, the first gate that stops the plan, or it dials the open plan |
| CallRules.DialledRowIs | agent/calls/router.py:323-368 | after the create an id that is not empty is answered, kept and uses up the plan; anything else has failed and changes nothing |
| CallRules.AttemptsStayApart | agent/calls/router.py:411-465 | a first attempt never counts as a retry, nor a retry as a first attempt |
| CallRules.MaskShowsFour | agent/calls/masking.py:6-12 | a mask shows the last four digits of a number and nothing else |
| CallServer.InMemoryConfirmHandleStore.PlanOne | agent/calls/router.py:163-237 | one plan row over the five dictionaries: a rejection deletes the old plan, a dry run keeps it |
| CallServer.InMemoryConfirmHandleStore.RunRow | agent/calls/router.py:240-368 | one run row over the dictionaries, create answer given |
| CallServer.InMemoryConfirmHandleStore.PlanBatch | agent/calls/router.py:371-408 | one answer per recipient in order; a batch of zero or more than five is refused unchanged |
| CallServer.InMemoryConfirmHandleStore.RunBatch | agent/calls/router.py:411-465 | the same for runs; attempt 2 and the kill switch change nothing; a human is needed exactly when some create failed |
| CallServer.InMemoryConfirmHandleStore.Put | agent/calls/handles.py:80-82 | from then on the pair is answered with this plan, whatever it had before, and every other pair as before |
| CallServer.InMemoryConfirmHandleStore.Delete | agent/calls/handles.py:88-90 | from then on the pair has no plan, whether or not it had one, and every other pair is answered as before |
| CallServer.RequestsCallOnce | agent/calls/router.py:371-465 | any sequence of plan and run requests served one after another is a one-step run: every create is justified and each attempt succeeds at most once |
| EmailBatch.InMemoryEmailIdempotencyStore.SendBatch | agent/email_send/router.py:144-362 | rows, sends, sleeps, `needsHuman` and the store after the batch loop; over the cap nothing happens |
| EmailBatch.InMemoryEmailIdempotencyStore.Put | agent/email_send/idempotency.py:28-37 | from then on every spelling of the address that folds alike is answered with this id in this batch, and every other address and batch as before |
| EmailBatch.BatchIsOrderly | agent/email_send/router.py:187-361 | one row per recipient in order; no send after a rejected one; a human exactly when halted; with positive stagger one sleep fewer than sends, otherwise none |
| EmailBatch.SentOnce | agent/email_send/router.py:193-361 | over any sequence of completed requests each batch sends successfully to each folded address at most once |
| EmailBatch.RowMeansWhatItSays | agent/email_send/router.py:193-352 | a row is a duplicate exactly when its address was already sent to, makes a send exactly when nothing stands in the way, and says "sent" exactly when that send succeeded |
| EmailAnswers.RowIs | agent/email_send/router.py:187-352 | every row in full, status, id, code and message: a duplicate, the reason the batch has stopped for, a bad address, a file over five mebibytes, or what SMTP's answer makes of it |
| EmailAnswers.RowSendsIff | agent/email_send/router.py:193-283 | a row sends exactly when none of these stands in the way |
| EmailRace.RowIsBeginFinish | agent/email_send/router.py:193-335 | a row of the loop is its two halves, before and after the await, run at once |
| EmailRace.SentOnceWhileApart | agent/email_send/router.py:193-335 | however requests interleave at the await, each folded address of a batch is sent to successfully at most once as long as no two sends to it are open at once |
| EmailRace.OverlapSendsTwice | agent/email_send/router.py:282-318 | from any state with two such sends open, both can succeed |
| EmailRace.TwoRequestsOverlap | agent/email_send/router.py:193-283 | and two requests with the same mail to send get there |
| Base64Url.Base64UrlEncode | supabase/functions/verify-google-token/index.ts:196-205 | the character loop computes the encoding, all in the URL alphabet |
| Base64Url.Base64UrlDecode | supabase/functions/_shared/verify_sync_jwt.ts:47-56 | the byte loop computes the decoding, and fails exactly on text that is no base64 |
| Base64Url.EncodeIs | supabase/functions/verify-google-token/index.ts:196-205 | encoded text is the sextets in the URL alphabet of section 5 of RFC 4648, with no padding |
| Base64Text.ThreeBytes | supabase/functions/verify-google-token/index.ts:196-205 | three bytes make one number of 24 bits and its four sextets four letters of the written-out alphabet of section 5 of RFC 4648 |
| Base64Text.LastBytes | supabase/functions/verify-google-token/index.ts:196-205 | one byte at the end makes two letters and two make three, with zero bits after them |
| Base64Url.RepaddedIsBtoa | supabase/functions/_shared/verify_sync_jwt.ts:48-49 | the padding put back before decoding is exactly the padding that was stripped |
| Base64Url.DecodeUndoesEncode | supabase/functions/_shared/verify_sync_jwt.ts:47-56 | decoding undoes encoding for every byte string |
| Base64Url.EncodeIsInjective | supabase/functions/verify-google-token/index.ts:196-205 | different byte strings have different texts |
| SyncJwt.SignedSplits | supabase/functions/verify-google-token/index.ts:370-402 | a signed token splits at its dots into the three segments it was made of |
| SyncJwt.SignedVerifies | supabase/functions/_shared/verify_sync_jwt.ts:91-195 | verified with the key it was signed with, only the payload checks are left to decide |
| SyncJwt.MintedIsAcceptedIff | supabase/functions/_shared/verify_sync_jwt.ts:139-194 | a minted token is accepted with exactly its own claims if and only if iat-30 <= now <= iat+3630 and its claims are non-empty with a known role; outside it is expired or from the future |
| SyncJwt.SubjectIsEnough | supabase/functions/_shared/verify_sync_jwt.ts:160-175 | the subject of a minted token alone identifies its bearer |
| SyncJwt.UnsignedSaysNothing | supabase/functions/_shared/verify_sync_jwt.ts:6-11 | without a matching signature two tokens that differ only in their payload are answered alike, at any two times, with an error that names neither a claim nor a time |
| SyncJwt.AcceptedIff | supabase/functions/_shared/verify_sync_jwt.ts:91-195 | a token is accepted with given claims exactly when it is three segments whose header says HS256 and, where it says a type, JWT, whose last is the MAC of the first two, and whose payload vouches for the workspace, role and identity (own field, or subject when missing or null), issuer, audience, role, exp, iat and nbf at this time |
| SessionSecrets.MintSecretIff | supabase/functions/verify-google-token/index.ts:345-368 | the minting side signs with the first setting that is long enough, whatever missing, empty or short ones come before it |
| SessionSecrets.SameSecretIff | supabase/functions/_shared/verify_sync_jwt.ts:201-216 | the verifying side finds a secret exactly when the first setting that is there is long enough, and then it is the one tokens are minted with |
| SessionSecrets.OwnTokenIsServedIff | supabase/functions/_shared/verify_sync_jwt.ts:238-252 | a token is accepted by the deployment that minted it exactly when the first setting that is there is long enough, the time is in the window and the claims are good; with a short first setting every request is answered "unavailable" |
| SessionSecrets.EmptySettingShutsOut | supabase/functions/_shared/verify_sync_jwt.ts:201-216 | the input that shows it: an empty first setting before a good one |

## Left out

- CrashRetry.CrashRetryEquivalence: one writer while the batch is retried; with other writers `RePush.RePushHarmlessIff` is the exact condition on a log projected in full, and `ArrivalOrder.MirrorIsFoldIff` the one for projections and retries in any order.
- Drain.DrainAll: requires every row stamped, because an unstamped full page stops the reader (`PullPages.PageStuckIff`); the append stamps every row it writes. Merge failures that end a cycle early are not modelled.
- Quota.QuotaConserved: one month; month roll-over between reserve and release is not part of this model.
- Deltas.PreflightExactIff: the clock is the same at pre-flight and projection; date parsing is a parameter.
- DeltaMerge.EditIsCreateIff: `String()` and `Number()` of a value that is not already text or an integer are parameters.
- ClaimSafety.GrantBindsSeatIff: seat ids are drawn once, and no seat changes its workspace.
- EmailBatch.SentOnce: requests one after another; `EmailRace.SentOnceWhileApart` has them interleave.
- CallHonour.TokenHonouredIff: no later plan of the pair draws the same 32 random bytes again.
- CallSafety.TwoKeysPerPair: ids without a colon, which UUIDs are.
- SyncJwt.MintedIsAcceptedIff: the MAC is any function, and the JSON codec any that reads back the header and this payload.
- SpokenMajor.EnglishAmountIsHeard: the mixed digit-and-scale, currency-anchored and last-integer recognisers are given by their results.
- SessionSecrets.OwnTokenIsServedIff: reading the bearer token off the request's header.
- ClaimAnswers.LoneClaimIs: the form of the token and the trimming of the request's fields; a token of the wrong form is answered as one that is not there.
- CallRules.DialledRowIs: the masked number in each answered row, and the locale and metadata of the create.
- Push.SyncServer.Handle: what registering a device writes; only whether it succeeds matters to the rest.
- Unicode: case folding, alef and tashkeel folding, word splitting and regular expressions; texts, names, addresses and regions come folded and stripped, and a phone's digits are ASCII.
- E-mail addresses: the folding and the address pattern are parameters of `EmailBatch`; message bodies, masking for logs and attachment names are not modelled.
- Rate limits and audit events.
- The clock, drawn tokens, generated ids and the answers of SMTP, the call provider and the database are parameters.
- HTTP, CORS, JSON transport, log output and error texts beyond the kinds of error.
- Reading a call back, its outcome mapping, locale choice for a call, and the terminal log line.
- HMAC, RSA, the JWKS cache and the verification of Google's token.
- Process restarts, which drop the in-memory call and mail stores.

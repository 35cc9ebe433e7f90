/** Planning and running confirmed calls: handles, gates, one retry, idempotency keys. */
module Calls {
  import opened Common
  import opened RegionGate

  datatype Pair = Pair(batchId: string, contactId: string)

  datatype PlanSnapshot = PlanSnapshot(token: string, phone: string, region: string, locale: string, task: string,
                                       doNotCall: bool, trigger: string)

  datatype RunContext = RunContext(batchId: string, correlationId: string)

  datatype Settings = Settings(allowDial: bool, allowlist: set<string>, allowlistRegion: string)

  datatype Reason = NotAllowlisted | UnsupportedRegion | KillSwitch | Dnc | InvalidPhone | InvalidHandle

  /** The five dictionaries of the store, as one value. */
  datatype Store = Store(
    snapshots: map<Pair, PlanSnapshot>,
    runIds: map<Pair, string>,
    retryRunIds: map<Pair, string>,
    runMasks: map<string, string>,
    runContexts: map<string, RunContext>)

  function Lookup<K, V>(m: map<K, V>, k: K): Option<V> {
    if k in m then Some(m[k]) else None
  }

  function MaskE164(phone: string): string {
    "+…" + if |phone| >= 4 then phone[|phone| - 4..] else "????"
  }

  // ---- gates ---------------------------------------------------------------

  function Gate(phone: string, region: string, doNotCall: bool, s: Settings): Option<Reason> {
    if !IsValidE164(phone) then Some(InvalidPhone)
    else if !RegionAllowed(phone, region, s.allowlistRegion) then Some(UnsupportedRegion)
    else if doNotCall then Some(Dnc)
    else if phone !in s.allowlist then Some(NotAllowlisted)
    else None
  }

  function SnapshotGate(snap: PlanSnapshot, s: Settings): Option<Reason> {
    Gate(snap.phone, snap.region, snap.doNotCall, s)
  }

  predicate TokenMatches(stored: string, presented: string) {
    stored != "" && presented != "" && |stored| == |presented| && stored == presented
  }

  // ---- planning ------------------------------------------------------------

  datatype CallRecipient = CallRecipient(contactId: string, phone: string, region: string, locale: string,
                                         task: string, doNotCall: bool)

  datatype PlanResult = Rejected(reason: Reason) | DryRun | Planned(confirmHandle: string)

  function SnapshotOf(r: CallRecipient, trigger: string, token: string): PlanSnapshot {
    PlanSnapshot(token, r.phone, r.region, r.locale, r.task, r.doNotCall, trigger)
  }

  /** A rejection forgets any earlier plan; a dry run leaves it. */
  function PlanRow(st: Store, batchId: string, r: CallRecipient, s: Settings, dryRun: bool, trigger: string,
                   freshToken: string)
    : (Store, PlanResult)
  {
    var pair := Pair(batchId, r.contactId);
    var forgotten := st.(snapshots := st.snapshots - {pair});
    match Gate(r.phone, r.region, r.doNotCall, s)
    case Some(reason) => (forgotten, Rejected(reason))
    case None =>
      if dryRun then (st, DryRun)
      else if !s.allowDial then (forgotten, Rejected(KillSwitch))
      else (st.(snapshots := st.snapshots[pair := SnapshotOf(r, trigger, freshToken)]), Planned(freshToken))
  }

  // ---- running -------------------------------------------------------------

  datatype RunResult =
    | Queued(runId: string)
    | RunRejected(reason: Reason)
    | Failed
    | SkippedDuplicate(runId: string)

  datatype Check = Answer(result: RunResult) | Dial(snapshot: PlanSnapshot)

  /** Everything a run row decides before it awaits the create. An empty stored id counts as none. */
  function BeginRun(st: Store, pair: Pair, handle: string, s: Settings, retry: bool): Check {
    var earlier := Lookup(if retry then st.retryRunIds else st.runIds, pair);
    if earlier.Some? && earlier.value != "" then Answer(SkippedDuplicate(earlier.value))
    else if retry && pair !in st.runIds then Answer(RunRejected(InvalidHandle))
    else if pair !in st.snapshots || !TokenMatches(st.snapshots[pair].token, handle)
      then Answer(RunRejected(InvalidHandle))
    else
      match SnapshotGate(st.snapshots[pair], s)
      case Some(reason) => Answer(RunRejected(reason))
      case None => Dial(st.snapshots[pair])
  }

  /** The creator refuses to return a blank id: that is a failed create. */
  predicate Created(raw: Option<string>) {
    raw.Some? && raw.value != ""
  }

  /** Everything a run row does after the create has answered. */
  function FinishRun(st: Store, pair: Pair, retry: bool, snap: PlanSnapshot, correlationId: string,
                     raw: Option<string>): (Store, RunResult) {
    if !Created(raw) then (st, Failed)
    else
      var st1 := if retry then st.(retryRunIds := st.retryRunIds[pair := raw.value])
                 else st.(runIds := st.runIds[pair := raw.value]);
      (st1.(runMasks := st1.runMasks[raw.value := MaskE164(snap.phone)],
            runContexts := st1.runContexts[raw.value := RunContext(pair.batchId, correlationId)],
            snapshots := st1.snapshots - {pair}),
       Queued(raw.value))
  }

  // ---- idempotency keys ----------------------------------------------------

  function IdempotencyKey(pair: Pair, retry: bool): string {
    pair.batchId + ":" + pair.contactId + if retry then ":retry1" else ""
  }

  /** Ids are UUID strings: no colon in them. */
  predicate ColonFree(s: string) {
    forall i :: 0 <= i < |s| ==> s[i] != ':'
  }

  lemma FirstColon(a: string, x: string, b: string, y: string)
    requires ColonFree(a) && ColonFree(b) && a + ":" + x == b + ":" + y
    ensures a == b && x == y
  {
    var (s, t) := (a + ":" + x, b + ":" + y);
    assert s[|a|] == ':' && t[|b|] == ':';
    assert forall i :: 0 <= i < |a| ==> s[i] == a[i];
    assert forall i :: 0 <= i < |b| ==> t[i] == b[i];
    assert |a| == |b|;
    assert a == s[..|a|] && b == t[..|b|];
    assert x == s[|a| + 1..] && y == t[|b| + 1..];
  }

  lemma ColonShows(a: string, b: string)
    requires ColonFree(b)
    ensures a + ":retry1" != b
  {
    assert (a + ":retry1")[|a|] == ':';
  }

  /** Different attempts never share a key. */
  lemma KeysAreInjective(p: Pair, r: bool, q: Pair, t: bool)
    requires ColonFree(p.batchId) && ColonFree(p.contactId) && ColonFree(q.batchId) && ColonFree(q.contactId)
    requires IdempotencyKey(p, r) == IdempotencyKey(q, t)
    ensures p == q && r == t
  {
    var (x, y) := (p.contactId + if r then ":retry1" else "", q.contactId + if t then ":retry1" else "");
    assert IdempotencyKey(p, r) == p.batchId + ":" + x && IdempotencyKey(q, t) == q.batchId + ":" + y;
    FirstColon(p.batchId, x, q.batchId, y);
    ColonShows(p.contactId, q.contactId);
    ColonShows(q.contactId, p.contactId);
    if r && t {
      assert x == p.contactId + ":" + "retry1" && y == q.contactId + ":" + "retry1";
      FirstColon(p.contactId, "retry1", q.contactId, "retry1");
    } else {
      assert p.contactId + "" == p.contactId && q.contactId + "" == q.contactId;
    }
  }
}

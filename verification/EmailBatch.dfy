/** The batch mail handler: duplicates, the halt after an auth rejection, stagger, and its idempotency store. */
module EmailBatch {
  import opened Common

  const MAX_RECIPIENTS := 20
  const MAX_PDF_BYTES := 5 * 1024 * 1024

  /** How addresses are folded to lower case and which of them are addresses at all. */
  datatype Rules = Rules(fold: string -> string, isEmail: string -> bool)

  datatype Settings = Settings(fromEqualsUser: bool, password: Option<string>, stagger: real)

  /** Addresses arrive stripped. */
  datatype Recipient = Recipient(contactId: string, to: string)

  /** `pdfs` gives the size of each attachment, by contact. */
  datatype Batch = Batch(batchId: string, recipients: seq<Recipient>, pdfs: map<string, nat>, settings: Settings)

  datatype Reply = Reply(ok: bool, code: Option<int>, message: string, messageId: Option<string>, authRejected: bool)

  datatype Status = Sent | NotSent | SkippedDuplicate

  /** The fixed answers, and SMTP's own words. */
  datatype Message =
    | FromUserMismatch | SecretUnavailable | AuthRejected | InvalidTo | PdfTooLarge | DuplicateSkipped | SendFailed
    | Smtp(text: string)

  datatype Row = Row(contactId: string, status: Status, messageId: Option<string>, code: Option<int>, message: Message)

  datatype Key = Key(batchId: string, address: string)

  datatype Send = Send(key: Key, reply: Reply)

  /** The variables of one request's loop, and the SMTP sends it has made. */
  datatype Progress = Progress(data: map<Key, string>, rows: seq<Row>, needsHuman: bool, halt: Option<Message>,
                               attempted: bool, sends: seq<Send>, sleeps: nat)

  function Or(text: string, other: Message): Message {
    if text == "" then other else Smtp(text)
  }

  function Code535(code: Option<int>): int {
    if code.None? || code.value == 0 then 535 else code.value
  }

  /** The reply that makes a row "sent" and is remembered. */
  predicate Success(r: Reply) {
    !r.authRejected && r.ok && r.messageId.Some? && r.messageId.value != ""
  }

  function InitialHalt(s: Settings): Option<Message> {
    if !s.fromEqualsUser then Some(FromUserMismatch)
    else if s.password.None? || s.password.value == "" then Some(SecretUnavailable)
    else None
  }

  predicate TooLarge(b: Batch, contactId: string) {
    contactId in b.pdfs && b.pdfs[contactId] > MAX_PDF_BYTES
  }

  predicate Known(data: map<Key, string>, key: Key) {
    key in data && data[key] != ""
  }

  function Start(b: Batch, data: map<Key, string>): Progress {
    var halt := InitialHalt(b.settings);
    Progress(data, [], halt.Some?, halt, false, [], 0)
  }

  function Answered(p: Progress, row: Row): Progress {
    Progress(p.data, p.rows + [row], p.needsHuman, p.halt, p.attempted, p.sends, p.sleeps)
  }

  /** The row for a mail that was handed to SMTP. */
  function RowFor(r: Recipient, reply: Reply): Row {
    if reply.authRejected
      then Row(r.contactId, NotSent, None, Some(Code535(reply.code)), Or(reply.message, AuthRejected))
    else if Success(reply) then Row(r.contactId, Sent, reply.messageId, reply.code, Smtp(reply.message))
    else Row(r.contactId, NotSent, None, reply.code, Or(reply.message, SendFailed))
  }

  function Remembered(data: map<Key, string>, key: Key, reply: Reply): map<Key, string> {
    if Success(reply) then data[key := reply.messageId.value] else data
  }

  /** The send itself: the sleep before it, and what its reply changes. */
  function Attempt(b: Batch, r: Recipient, key: Key, reply: Reply, p: Progress): Progress {
    var sleeps := if p.attempted && b.settings.stagger > 0.0 then p.sleeps + 1 else p.sleeps;
    var rejected := reply.authRejected;
    Progress(Remembered(p.data, key, reply), p.rows + [RowFor(r, reply)], p.needsHuman || rejected,
             if rejected then Some(AuthRejected) else p.halt, true, p.sends + [Send(key, reply)], sleeps)
  }

  function KeyOf(rules: Rules, b: Batch, r: Recipient): Key {
    Key(b.batchId, rules.fold(r.to))
  }

  /** One recipient. `reply` is what SMTP would answer if asked. */
  function OneRow(rules: Rules, b: Batch, r: Recipient, reply: Reply, p: Progress): Progress {
    var key := KeyOf(rules, b, r);
    if r.to != "" && Known(p.data, key) then
      Answered(p, Row(r.contactId, SkippedDuplicate, None, None, DuplicateSkipped))
    else if p.halt.Some? then Answered(p, Row(r.contactId, NotSent, None, None, p.halt.value))
    else if r.to == "" || !rules.isEmail(r.to) then Answered(p, Row(r.contactId, NotSent, None, None, InvalidTo))
    else if TooLarge(b, r.contactId) then Answered(p, Row(r.contactId, NotSent, None, None, PdfTooLarge))
    else Attempt(b, r, key, reply, p)
  }

  /** The loop after its first k recipients. */
  function Loop(rules: Rules, b: Batch, data: map<Key, string>, replies: seq<Reply>, k: nat): Progress
    requires k <= |b.recipients| == |replies|
  {
    if k == 0 then Start(b, data)
    else OneRow(rules, b, b.recipients[k - 1], replies[k - 1], Loop(rules, b, data, replies, k - 1))
  }

  lemma LoopNext(rules: Rules, b: Batch, data: map<Key, string>, replies: seq<Reply>, k: nat)
    requires k < |b.recipients| == |replies|
    ensures Loop(rules, b, data, replies, k + 1)
            == OneRow(rules, b, b.recipients[k], replies[k], Loop(rules, b, data, replies, k))
  {
    hide OneRow;
  }

  // ---- the handler ---------------------------------------------------------

  class InMemoryEmailIdempotencyStore {
    var data: map<Key, string>

    constructor ()
      ensures data == map[]
    {
      data := map[];
    }

    /** What the store answers for an address, however it is written. */
    ghost function Recall(rules: Rules, batchId: string, to: string): Option<string>
      reads this
    {
      var key := Key(batchId, rules.fold(to));
      if key in data then Some(data[key]) else None
    }

    method Get(rules: Rules, batchId: string, to: string) returns (id: Option<string>)
      ensures id == Recall(rules, batchId, to)
    {
      var key := Key(batchId, rules.fold(to));
      id := if key in data then Some(data[key]) else None;
    }

    /** From now on every spelling that folds alike is answered with this id, in this batch only. */
    method Put(rules: Rules, batchId: string, to: string, messageId: string)
      modifies this
      ensures forall other :: rules.fold(other) == rules.fold(to) ==> Recall(rules, batchId, other) == Some(messageId)
      ensures forall b, other :: b != batchId || rules.fold(other) != rules.fold(to)
                ==> Recall(rules, b, other) == old(Recall(rules, b, other))
      ensures data == old(data)[Key(batchId, rules.fold(to)) := messageId]
    {
      data := data[Key(batchId, rules.fold(to)) := messageId];
    }

    /** What a reply changes in the store, and the row it makes. */
    method HandleReply(rules: Rules, b: Batch, r: Recipient, reply: Reply) returns (row: Row, rejected: bool)
      modifies this
      ensures data == Remembered(old(data), KeyOf(rules, b, r), reply)
      ensures row == RowFor(r, reply) && rejected == reply.authRejected
    {
      if reply.authRejected {
        row := Row(r.contactId, NotSent, None, Some(Code535(reply.code)), Or(reply.message, AuthRejected));
        return row, true;
      }
      if Success(reply) {
        Put(rules, b.batchId, r.to, reply.messageId.value);
        return Row(r.contactId, Sent, reply.messageId, reply.code, Smtp(reply.message)), false;
      }
      row := Row(r.contactId, NotSent, None, reply.code, Or(reply.message, SendFailed));
      return row, false;
    }

    /** Answers nothing when the batch is over the cap; otherwise one row per recipient. */
    method SendBatch(rules: Rules, b: Batch, replies: seq<Reply>)
      returns (rows: Option<seq<Row>>, needsHuman: bool, sends: seq<Send>, sleeps: nat)
      requires |replies| == |b.recipients|
      modifies this
      ensures |b.recipients| > 20 ==> rows.None? && sends == [] && data == old(data)
      ensures |b.recipients| <= 20 ==>
                var p := Loop(rules, b, old(data), replies, |b.recipients|);
                rows == Some(p.rows) && needsHuman == p.needsHuman && sends == p.sends && sleeps == p.sleeps
                  && data == p.data
    {
      rows, needsHuman, sends, sleeps := None, false, [], 0;
      if |b.recipients| > MAX_RECIPIENTS {
        return;
      }
      var results: seq<Row> := [];
      var haltAuth, haltMessage, smtpAttempted := false, AuthRejected, false;
      if !b.settings.fromEqualsUser {
        needsHuman, haltAuth, haltMessage := true, true, FromUserMismatch;
      } else if b.settings.password.None? || b.settings.password.value == "" {
        needsHuman, haltAuth, haltMessage := true, true, SecretUnavailable;
      }
      for k := 0 to |b.recipients|
        invariant Progress(data, results, needsHuman, if haltAuth then Some(haltMessage) else None, smtpAttempted,
                           sends, sleeps)
               == Loop(rules, b, old(data), replies, k)
      {
        hide Loop, Known, TooLarge, RowFor, Remembered, InitialHalt;
        LoopNext(rules, b, old(data), replies, k);
        var r, reply := b.recipients[k], replies[k];
        var key := KeyOf(rules, b, r);
        var existing := Get(rules, b.batchId, r.to);
        assert Known(data, key) <==> existing.Some? && existing.value != "";
        if r.to != "" && existing.Some? && existing.value != "" {
          results := results + [Row(r.contactId, SkippedDuplicate, None, None, DuplicateSkipped)];
          continue;
        }
        if haltAuth {
          results := results + [Row(r.contactId, NotSent, None, None, haltMessage)];
          continue;
        }
        if r.to == "" || !rules.isEmail(r.to) {
          results := results + [Row(r.contactId, NotSent, None, None, InvalidTo)];
          continue;
        }
        if TooLarge(b, r.contactId) {
          results := results + [Row(r.contactId, NotSent, None, None, PdfTooLarge)];
          continue;
        }
        if smtpAttempted && b.settings.stagger > 0.0 {
          sleeps := sleeps + 1;
        }
        smtpAttempted := true;
        sends := sends + [Send(key, reply)];
        var row, rejected := HandleReply(rules, b, r, reply);
        if rejected {
          needsHuman, haltAuth, haltMessage := true, true, AuthRejected;
        }
        results := results + [row];
      }
      rows := Some(results);
    }
  }

  // ---- what one request does -----------------------------------------------

  predicate Rejected(s: Send) {
    s.reply.authRejected
  }

  /**
   * No send after a rejected one, a human exactly then or when nothing can be sent, and a sleep
   * between each two sends.
   */
  predicate SendsInOrder(b: Batch, p: Progress) {
    && (forall i :: 0 <= i < |p.sends| - 1 ==> !Rejected(p.sends[i]))
    && (InitialHalt(b.settings).Some? ==> p.sends == [])
    && (p.needsHuman <==> InitialHalt(b.settings).Some? || (p.sends != [] && Rejected(p.sends[|p.sends| - 1])))
    && p.sleeps == (if b.settings.stagger > 0.0 && p.sends != [] then |p.sends| - 1 else 0)
    && (p.halt.Some? <==> p.needsHuman) && (p.attempted <==> p.sends != [])
  }

  /** One answer per recipient, in the recipients' order. */
  predicate Orderly(b: Batch, p: Progress, k: nat)
    requires k <= |b.recipients|
  {
    |p.rows| == k && (forall i :: 0 <= i < k ==> p.rows[i].contactId == b.recipients[i].contactId) && SendsInOrder(b, p)
  }

  lemma RowKeepsSends(rules: Rules, b: Batch, r: Recipient, reply: Reply, p: Progress)
    requires SendsInOrder(b, p)
    ensures SendsInOrder(b, OneRow(rules, b, r, reply, p))
  {
    hide Known, TooLarge, Or, Code535, KeyOf, InitialHalt, Success;
    var p' := OneRow(rules, b, r, reply, p);
    if p'.sends != p.sends {
      assert p'.sends == p.sends + [Send(KeyOf(rules, b, r), reply)] && p'.attempted && !p.halt.Some?;
      assert forall i :: 0 <= i < |p.sends| ==> p'.sends[i] == p.sends[i];
    }
  }

  lemma RowIsOrderly(rules: Rules, b: Batch, k: nat, reply: Reply, p: Progress)
    requires k < |b.recipients| && Orderly(b, p, k)
    ensures Orderly(b, OneRow(rules, b, b.recipients[k], reply, p), k + 1)
  {
    RowKeepsSends(rules, b, b.recipients[k], reply, p);
    hide Known, TooLarge, Or, Code535, KeyOf, SendsInOrder, Success;
    var p' := OneRow(rules, b, b.recipients[k], reply, p);
    assert p'.rows == p.rows + [p'.rows[k]];
  }

  lemma {:induction false} BatchIsOrderly(rules: Rules, b: Batch, data: map<Key, string>, replies: seq<Reply>, k: nat)
    requires k <= |b.recipients| == |replies|
    ensures Orderly(b, Loop(rules, b, data, replies, k), k)
  {
    hide OneRow;
    if k > 0 {
      BatchIsOrderly(rules, b, data, replies, k - 1);
      RowIsOrderly(rules, b, k - 1, replies[k - 1], Loop(rules, b, data, replies, k - 1));
    }
  }

  // ---- any sequence of requests --------------------------------------------

  /** The store, and every send the process has made. */
  datatype World = World(data: map<Key, string>, sends: seq<Send>)

  datatype Request = Request(batch: Batch, replies: seq<Reply>)

  predicate Ready(q: Request) {
    |q.replies| == |q.batch.recipients|
  }

  function Serve(rules: Rules, w: World, q: Request): World
    requires Ready(q)
  {
    if |q.batch.recipients| > MAX_RECIPIENTS then w
    else
      var p := Loop(rules, q.batch, w.data, q.replies, |q.batch.recipients|);
      World(p.data, w.sends + p.sends)
  }

  function ServeAll(rules: Rules, w: World, qs: seq<Request>): World
    requires forall q <- qs :: Ready(q)
    decreases |qs|
  {
    if qs == [] then w else ServeAll(rules, Serve(rules, w, qs[0]), qs[1..])
  }

  predicate HasSent(sends: seq<Send>, key: Key) {
    exists i :: 0 <= i < |sends| && sends[i].key == key && Success(sends[i].reply)
  }

  predicate OnceEach(sends: seq<Send>) {
    forall i, j :: 0 <= i < j < |sends| && Success(sends[i].reply) && Success(sends[j].reply)
      ==> sends[i].key != sends[j].key
  }

  /** The store remembers exactly the addresses that were sent to. */
  ghost predicate Faithful(data: map<Key, string>, sends: seq<Send>) {
    && (forall key :: Known(data, key) <==> HasSent(sends, key))
    && OnceEach(sends)
  }

  lemma OneMoreSend(sends: seq<Send>, s: Send)
    ensures forall key :: HasSent(sends + [s], key) <==> HasSent(sends, key) || (s.key == key && Success(s.reply))
    ensures OnceEach(sends) && (Success(s.reply) ==> !HasSent(sends, s.key)) ==> OnceEach(sends + [s])
  {
    assert (sends + [s])[|sends|] == s;
    assert forall i :: 0 <= i < |sends| ==> (sends + [s])[i] == sends[i];
  }

  lemma RowIsFaithful(rules: Rules, b: Batch, r: Recipient, reply: Reply, p: Progress, past: seq<Send>)
    requires Faithful(p.data, past + p.sends)
    ensures var p' := OneRow(rules, b, r, reply, p); Faithful(p'.data, past + p'.sends)
  {
    hide HasSent, OnceEach, TooLarge, Or, Code535, KeyOf, InitialHalt;
    var p' := OneRow(rules, b, r, reply, p);
    if p'.sends != p.sends {
      var s := Send(KeyOf(rules, b, r), reply);
      assert past + p'.sends == past + p.sends + [s];
      OneMoreSend(past + p.sends, s);
    }
  }

  /** Faithfulness is kept row by row, whatever earlier requests have sent. */
  lemma {:induction false} RowsAreFaithful(rules: Rules, w: World, q: Request, k: nat)
    requires Ready(q) && Faithful(w.data, w.sends) && k <= |q.batch.recipients|
    ensures var p := Loop(rules, q.batch, w.data, q.replies, k);
            Faithful(p.data, w.sends + p.sends)
  {
    hide OneRow, Faithful;
    if k == 0 {
      assert w.sends + [] == w.sends;
    } else {
      RowsAreFaithful(rules, w, q, k - 1);
      RowIsFaithful(rules, q.batch, q.batch.recipients[k - 1], q.replies[k - 1],
                    Loop(rules, q.batch, w.data, q.replies, k - 1), w.sends);
    }
  }

  lemma {:induction false} WorldStaysFaithful(rules: Rules, w: World, qs: seq<Request>)
    requires (forall q <- qs :: Ready(q)) && Faithful(w.data, w.sends)
    ensures var w' := ServeAll(rules, w, qs); Faithful(w'.data, w'.sends)
    decreases |qs|
  {
    hide Faithful, Loop;
    if qs != [] {
      RowsAreFaithful(rules, w, qs[0], |qs[0].batch.recipients|);
      WorldStaysFaithful(rules, Serve(rules, w, qs[0]), qs[1..]);
    }
  }

  /** Over any sequence of requests, each batch sends successfully to each folded address once at most. */
  lemma SentOnce(rules: Rules, qs: seq<Request>)
    requires forall q <- qs :: Ready(q)
    ensures OnceEach(ServeAll(rules, World(map[], []), qs).sends)
  {
    WorldStaysFaithful(rules, World(map[], []), qs);
  }

  /** What a row answers, given what has been sent before it. */
  predicate RowSays(rules: Rules, b: Batch, r: Recipient, reply: Reply, past: seq<Send>, before: Progress,
                    after: Progress)
  {
    var (key, sentBefore) := (KeyOf(rules, b, r), HasSent(past + before.sends, KeyOf(rules, b, r)));
    && |after.rows| == |before.rows| + 1
    && var row := after.rows[|before.rows|];
    && (row.status.SkippedDuplicate? <==> r.to != "" && sentBefore)
    && (if r.to != "" && !sentBefore && !before.needsHuman && rules.isEmail(r.to) && !TooLarge(b, r.contactId)
        then after.sends == before.sends + [Send(key, reply)] && (row.status.Sent? <==> Success(reply))
        else after.sends == before.sends && !row.status.Sent?)
    && (row.messageId.Some? ==> row.status.Sent?)
  }

  lemma OneRowSays(rules: Rules, b: Batch, r: Recipient, reply: Reply, past: seq<Send>, before: Progress)
    requires (Known(before.data, KeyOf(rules, b, r)) <==> HasSent(past + before.sends, KeyOf(rules, b, r)))
             && (before.halt.Some? <==> before.needsHuman)
    ensures RowSays(rules, b, r, reply, past, before, OneRow(rules, b, r, reply, before))
  {
    hide HasSent, Known, TooLarge, Or, Code535, KeyOf;
  }

  /**
   * A row is a duplicate exactly when its address was already sent to; it makes a
   * send exactly when nothing stands in the way, and is "sent" exactly when that succeeds.
   */
  lemma RowMeansWhatItSays(rules: Rules, w: World, q: Request, k: nat)
    requires Ready(q) && Faithful(w.data, w.sends) && k < |q.batch.recipients|
    ensures RowSays(rules, q.batch, q.batch.recipients[k], q.replies[k], w.sends,
                    Loop(rules, q.batch, w.data, q.replies, k), Loop(rules, q.batch, w.data, q.replies, k + 1))
  {
    RowsAreFaithful(rules, w, q, k);
    BatchIsOrderly(rules, q.batch, w.data, q.replies, k);
    LoopNext(rules, q.batch, w.data, q.replies, k);
    hide HasSent, OnceEach, Loop, OneRow, KeyOf, InitialHalt, RowSays, Known;
    OneRowSays(rules, q.batch, q.batch.recipients[k], q.replies[k], w.sends,
               Loop(rules, q.batch, w.data, q.replies, k));
  }
}

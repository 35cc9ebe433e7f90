/** What each row of a mail batch is answered, from what has been sent and what SMTP said. */
module EmailAnswers {
  import opened Common
  import opened EmailBatch

  /** Some send of this request was refused for its credentials. */
  predicate AnyRejected(sends: seq<Send>) {
    exists i :: 0 <= i < |sends| && sends[i].reply.authRejected
  }

  /** Why nothing is sent any more, if so: the sender, the secret, or a refusal earlier in the batch. */
  function Stopped(s: Settings, sends: seq<Send>): Option<Message> {
    if !s.fromEqualsUser then Some(FromUserMismatch)
    else if s.password in {None, Some("")} then Some(SecretUnavailable)
    else if AnyRejected(sends) then Some(AuthRejected) else None
  }

  lemma OneMoreRejected(sends: seq<Send>, s: Send)
    ensures AnyRejected(sends + [s]) <==> AnyRejected(sends) || s.reply.authRejected
  {
    assert (sends + [s])[|sends|] == s;
    assert forall i :: 0 <= i < |sends| ==> (sends + [s])[i] == sends[i];
  }

  lemma RowKeepsHalt(rules: Rules, b: Batch, r: Recipient, reply: Reply, p: Progress)
    requires p.halt == Stopped(b.settings, p.sends)
    ensures var p' := OneRow(rules, b, r, reply, p); p'.halt == Stopped(b.settings, p'.sends)
  {
    hide AnyRejected, Known, TooLarge, RowFor, Remembered, KeyOf;
    OneMoreRejected(p.sends, Send(KeyOf(rules, b, r), reply));
  }

  lemma {:induction false} HaltIs(rules: Rules, b: Batch, data: map<Key, string>, replies: seq<Reply>, k: nat)
    requires k <= |b.recipients| == |replies|
    ensures var p := Loop(rules, b, data, replies, k); p.halt == Stopped(b.settings, p.sends)
  {
    hide OneRow;
    if k > 0 {
      HaltIs(rules, b, data, replies, k - 1);
      RowKeepsHalt(rules, b, b.recipients[k - 1], replies[k - 1], Loop(rules, b, data, replies, k - 1));
    }
  }

  /** SMTP's own words, or these where it says nothing. */
  function Words(text: string, otherwise: Message): Message {
    match text
    case "" => otherwise
    case _ => Smtp(text)
  }

  /** The row of a mail that was handed to SMTP. */
  function Handed(contactId: string, reply: Reply): Row {
    if reply.authRejected then
      Row(contactId, NotSent, None, if reply.code in {None, Some(0)} then Some(535) else reply.code,
          Words(reply.message, AuthRejected))
    else if reply.ok && reply.messageId !in {None, Some("")} then
      Row(contactId, Sent, reply.messageId, reply.code, Smtp(reply.message))
    else Row(contactId, NotSent, None, reply.code, Words(reply.message, SendFailed))
  }

  /** The answer to a recipient, given the sends of earlier requests and of this one so far. */
  function RowOf(rules: Rules, b: Batch, r: Recipient, reply: Reply, past: seq<Send>, sends: seq<Send>): Row {
    var stopped := Stopped(b.settings, sends);
    if r.to != "" && HasSent(past + sends, Key(b.batchId, rules.fold(r.to))) then
      Row(r.contactId, SkippedDuplicate, None, None, DuplicateSkipped)
    else if stopped.Some? then Row(r.contactId, NotSent, None, None, stopped.value)
    else if r.to == "" || !rules.isEmail(r.to) then Row(r.contactId, NotSent, None, None, InvalidTo)
    else if r.contactId in b.pdfs && b.pdfs[r.contactId] > 5_242_880 then
      Row(r.contactId, NotSent, None, None, PdfTooLarge)
    else Handed(r.contactId, reply)
  }

  lemma HandedIs(r: Recipient, reply: Reply)
    ensures RowFor(r, reply) == Handed(r.contactId, reply)
  {
    assert reply.messageId in {None, Some("")} <==> reply.messageId.None? || reply.messageId.value == "";
    assert reply.code in {None, Some(0)} <==> reply.code.None? || reply.code.value == 0;
  }

  lemma OneRowIs(rules: Rules, b: Batch, r: Recipient, reply: Reply, past: seq<Send>, p: Progress)
    requires Known(p.data, KeyOf(rules, b, r)) <==> HasSent(past + p.sends, KeyOf(rules, b, r))
    requires p.halt == Stopped(b.settings, p.sends)
    ensures OneRow(rules, b, r, reply, p).rows == p.rows + [RowOf(rules, b, r, reply, past, p.sends)]
  {
    HandedIs(r, reply);
    hide HasSent, Known, AnyRejected, RowFor, Handed, Stopped;
  }

  /**
   * Every row of a batch, in full: a duplicate where its address was sent to before; the reason
   * for which the batch has stopped; a bad address; a file over five mebibytes; or what SMTP's
   * answer makes of it.
   */
  lemma RowIs(rules: Rules, w: World, q: Request, k: nat)
    requires Ready(q) && Faithful(w.data, w.sends) && k < |q.batch.recipients|
    ensures var before := Loop(rules, q.batch, w.data, q.replies, k);
            Loop(rules, q.batch, w.data, q.replies, k + 1).rows
            == before.rows + [RowOf(rules, q.batch, q.batch.recipients[k], q.replies[k], w.sends, before.sends)]
  {
    RowsAreFaithful(rules, w, q, k);
    HaltIs(rules, q.batch, w.data, q.replies, k);
    LoopNext(rules, q.batch, w.data, q.replies, k);
    hide HasSent, OnceEach, Loop, OneRow, InitialHalt, Known, RowOf, Stopped;
    OneRowIs(rules, q.batch, q.batch.recipients[k], q.replies[k], w.sends, Loop(rules, q.batch, w.data, q.replies, k));
  }

  /** What is remembered after a row, and what it has sent. */
  lemma RowSendsIff(rules: Rules, w: World, q: Request, k: nat)
    requires Ready(q) && Faithful(w.data, w.sends) && k < |q.batch.recipients|
    ensures var (before, after) := (Loop(rules, q.batch, w.data, q.replies, k),
                                    Loop(rules, q.batch, w.data, q.replies, k + 1));
            var (b, r) := (q.batch, q.batch.recipients[k]);
            var key := Key(b.batchId, rules.fold(r.to));
            after.sends == before.sends
              + if r.to != "" && !HasSent(w.sends + before.sends, key) && Stopped(b.settings, before.sends).None?
                   && rules.isEmail(r.to) && !(r.contactId in b.pdfs && b.pdfs[r.contactId] > 5_242_880)
                then [Send(key, q.replies[k])] else []
  {
    RowMeansWhatItSays(rules, w, q, k);
    HaltIs(rules, q.batch, w.data, q.replies, k);
    BatchIsOrderly(rules, q.batch, w.data, q.replies, k);
    hide HasSent, OnceEach, Loop, Known, Stopped, InitialHalt;
  }
}

/** Batch mail requests that interleave wherever a row awaits SMTP. */
module EmailRace {
  import opened EmailBatch

  /** A row waiting for SMTP to answer is known by its address. */
  datatype System = System(data: map<Key, string>, open: map<nat, Key>, sends: seq<Send>)

  datatype Event =
    | Begin(ticket: nat, batch: Batch, recipient: Recipient, halted: bool)
    | Finish(ticket: nat, reply: Reply)

  const INITIAL := System(map[], map[], [])

  /** What a row checks before it sends. `halted` is its request's own flag. */
  predicate WouldSend(rules: Rules, data: map<Key, string>, b: Batch, r: Recipient, halted: bool) {
    && r.to != "" && !Known(data, KeyOf(rules, b, r)) && !halted && rules.isEmail(r.to) && !TooLarge(b, r.contactId)
  }

  function Step(rules: Rules, s: System, e: Event): System {
    match e
    case Begin(t, b, r, halted) =>
      if t in s.open || !WouldSend(rules, s.data, b, r, halted) then s
      else s.(open := s.open[t := KeyOf(rules, b, r)])
    case Finish(t, reply) =>
      if t !in s.open then s
      else
        System(if Success(reply) then s.data[s.open[t] := reply.messageId.value] else s.data, s.open - {t},
               s.sends + [Send(s.open[t], reply)])
  }

  function Run(rules: Rules, s: System, events: seq<Event>): System
    decreases |events|
  {
    if events == [] then s else Run(rules, Step(rules, s, events[0]), events[1..])
  }

  /** A row of the loop is its two halves run at once. */
  lemma RowIsBeginFinish(rules: Rules, b: Batch, r: Recipient, reply: Reply, p: Progress, s: System, ticket: nat)
    requires s.data == p.data && ticket !in s.open
    ensures var halves := [Begin(ticket, b, r, p.halt.Some?), Finish(ticket, reply)];
            var (p', s') := (OneRow(rules, b, r, reply, p), Run(rules, s, halves));
            && s'.data == p'.data && s'.open == s.open
            && s'.sends == s.sends + p'.sends[|p.sends|..] && p.sends <= p'.sends
  {
    var halves := [Begin(ticket, b, r, p.halt.Some?), Finish(ticket, reply)];
    hide Known, TooLarge, Or, Code535, KeyOf;
    var s1 := Step(rules, s, halves[0]);
    var s2 := Step(rules, s1, halves[1]);
    assert halves[1..] == [halves[1]] && [halves[1]][1..] == [];
    assert Run(rules, s, halves) == Run(rules, s1, [halves[1]]) == Run(rules, s2, []) == s2;
    var p' := OneRow(rules, b, r, reply, p);
    if WouldSend(rules, s.data, b, r, p.halt.Some?) {
      var sent := [Send(KeyOf(rules, b, r), reply)];
      assert p'.sends == p.sends + sent && p'.sends[|p.sends|..] == sent;
      assert s2.open == s.open;
    } else {
      assert p'.sends == p.sends && p'.sends[|p.sends|..] == [];
      assert s.sends + [] == s.sends;
    }
  }

  // ---- at most one success per address --------------------------------------

  /** No two sends to the same address of a batch are open at once. */
  predicate Apart(s: System) {
    forall t, u :: t in s.open && u in s.open && t != u ==> s.open[t] != s.open[u]
  }

  predicate StaysApart(rules: Rules, s: System, events: seq<Event>)
    decreases |events|
  {
    Apart(s) && (events != [] ==> StaysApart(rules, Step(rules, s, events[0]), events[1..]))
  }

  /** An open send is to an address that nothing was sent to yet. */
  predicate OpenAreNew(s: System) {
    forall t :: t in s.open ==> !HasSent(s.sends, s.open[t])
  }

  lemma StepSendsOnce(rules: Rules, s: System, e: Event)
    requires Apart(s) && Faithful(s.data, s.sends) && OpenAreNew(s)
    ensures var s' := Step(rules, s, e); Faithful(s'.data, s'.sends) && OpenAreNew(s')
  {
    hide HasSent, OnceEach, KeyOf, TooLarge;
    if e.Finish? && e.ticket in s.open {
      OneMoreSend(s.sends, Send(s.open[e.ticket], e.reply));
    }
  }

  lemma {:induction false} RunSendsOnce(rules: Rules, s: System, events: seq<Event>)
    requires StaysApart(rules, s, events) && Faithful(s.data, s.sends) && OpenAreNew(s)
    ensures var s' := Run(rules, s, events); Faithful(s'.data, s'.sends)
    decreases |events|
  {
    hide Faithful, OpenAreNew, Step;
    if events != [] {
      StepSendsOnce(rules, s, events[0]);
      RunSendsOnce(rules, Step(rules, s, events[0]), events[1..]);
    }
  }

  /**
   * However requests interleave, each address of a batch is sent to successfully once at most,
   * as long as no two sends to it overlap.
   */
  lemma SentOnceWhileApart(rules: Rules, events: seq<Event>)
    requires StaysApart(rules, INITIAL, events)
    ensures OnceEach(Run(rules, INITIAL, events).sends)
  {
    RunSendsOnce(rules, INITIAL, events);
  }

  lemma RunTwo(rules: Rules, s: System, a: Event, b: Event)
    ensures Run(rules, s, [a, b]) == Step(rules, Step(rules, s, a), b)
  {
    assert [a, b][1..] == [b] && [b][1..] == [];
    assert Run(rules, Step(rules, s, a), [b]) == Run(rules, Step(rules, Step(rules, s, a), b), []);
  }

  /** From any state with two open sends to one address, both can succeed. */
  lemma OverlapSendsTwice(rules: Rules, s: System, t: nat, u: nat, first: Reply, second: Reply)
    requires t in s.open && u in s.open && t != u && s.open[t] == s.open[u] && Success(first) && Success(second)
    ensures !OnceEach(Run(rules, s, [Finish(t, first), Finish(u, second)]).sends)
  {
    RunTwo(rules, s, Finish(t, first), Finish(u, second));
    var end := Step(rules, Step(rules, s, Finish(t, first)), Finish(u, second));
    var n := |s.sends|;
    assert end.sends[n] == Send(s.open[t], first) && end.sends[n + 1] == Send(s.open[u], second);
  }

  /** Two requests with the same mail to send get there, whatever the address and its spelling. */
  lemma TwoRequestsOverlap(rules: Rules, a: Batch, b: Batch, r: Recipient, q: Recipient, first: Reply, second: Reply)
    requires KeyOf(rules, a, r) == KeyOf(rules, b, q) && Success(first) && Success(second)
    requires WouldSend(rules, map[], a, r, false) && WouldSend(rules, map[], b, q, false)
    ensures var s := Run(rules, INITIAL, [Begin(0, a, r, false), Begin(1, b, q, false)]);
            !OnceEach(Run(rules, s, [Finish(0, first), Finish(1, second)]).sends)
  {
    RunTwo(rules, INITIAL, Begin(0, a, r, false), Begin(1, b, q, false));
    var s := Run(rules, INITIAL, [Begin(0, a, r, false), Begin(1, b, q, false)]);
    assert 0 in s.open && 1 in s.open && s.open[0] == s.open[1] by { hide WouldSend, KeyOf; }
    OverlapSendsTwice(rules, s, 0, 1, first, second);
  }
}

/** What the expense page does with each click and each answer, and what comes of a command that fails any
    number of times and is sent again. */
module ExpenseOutcomes {
  import D = Delivery
  import opened AttemptKeys
  import opened ExpensePage
  import S = SenderOutcomes

  /** A click sends one request, under the remembered key or a fresh one, exactly if the page is there and not
      busy; otherwise it does nothing. */
  lemma ClickSendsIff(p: Page, cmd: Command)
    ensures var p' := Step(p, Click(cmd));
      if p.alive && !p.busy then p'.alive && p'.busy && S.HasSent(p.client, p'.client, cmd, 1) else p' == p
  {
    S.ClickSends(p.client, cmd);
  }

  /** A failure keeps the keys and frees the page; a page that is gone hears of nothing. */
  lemma FailureFreesThePage(p: Page, ticket: nat)
    requires ticket in p.client.awaiting
    ensures var p' := Step(p, Reject(ticket));
      if p.alive then p' == p.(busy := false, client := p.client.(awaiting := p.client.awaiting - {ticket})) else p' == p
  {
  }

  /** A success is reported, with the key of its request, frees the page, and forgets the command's key unless
      that is one to be kept; a page that is gone does nothing. */
  lemma SuccessFreesThePage(p: Page, ticket: nat)
    requires ticket in p.client.awaiting && D.Answered(p.client.net, ticket, D.Done)
    ensures var c, p', cmd := p.client, Step(p, Resolve(ticket)), p.client.awaiting[ticket];
      if p.alive then
        && p'.alive && !p'.busy && p'.client.net == c.net && p'.client.nextKey == c.nextKey && p'.client.owner == c.owner
        && p'.client.awaiting == c.awaiting - {ticket} && p'.client.reported == c.reported + [c.net.requests[ticket].key]
        && p'.client.attempts == if cmd.kept then c.attempts else c.attempts - {cmd}
      else p' == p
  {
  }

  /** The next mount remembers no key, awaits nothing and is idle; what was sent stays on the way. */
  lemma NextMountStartsEmpty(p: Page)
    requires p.alive
    ensures Step(p, Unmount) == p.(alive := false)
    ensures Step(Step(p, Unmount), Remount) == Page(p.client.(attempts := map[], awaiting := map[]), false, true)
  {
  }

  function Tries(first: nat, cmd: Command, failures: nat): seq<Event> {
    if failures == 0 then [Click(cmd)] else Tries(first, cmd, failures - 1) + [Reject(first + failures - 1), Click(cmd)]
  }

  ghost predicate Idle(p: Page) {
    p.alive && !p.busy && forall t | t in p.client.awaiting :: t < |p.client.net.requests|
  }

  lemma {:induction false} RunConcat(p: Page, events: seq<Event>, more: seq<Event>)
    ensures Run(p, events + more) == Run(Run(p, events), more)
    decreases events
  {
    hide Step;
    if events == [] {
      assert events + more == more;
    } else {
      assert (events + more)[1..] == events[1..] + more;
      RunConcat(Step(p, events[0]), events[1..], more);
    }
  }

  lemma RunTwo(p: Page, first: Event, second: Event)
    ensures Run(p, [first, second]) == Step(Step(p, first), second)
  {
    assert [first, second][1..] == [second] && [second][1..] == [];
    assert Run(p, [first, second]) == Run(Step(p, first), [second]) == Run(Step(Step(p, first), second), []);
  }

  lemma RetryOnThePage(p: Page, p': Page, cmd: Command, sent: nat)
    requires Idle(p) && p'.alive && p'.busy && S.HasSent(p.client, p'.client, cmd, sent)
    ensures var p'' := Step(Step(p', Reject(|p.client.net.requests| + sent - 1)), Click(cmd));
      p''.alive && p''.busy && S.HasSent(p.client, p''.client, cmd, sent + 1)
  {
    var last := |p.client.net.requests| + sent - 1;
    assert last in p'.client.awaiting;
    S.RetrySendsTheSameKey(p.client, p'.client, cmd, sent);
  }

  lemma {:induction false} TriesSend(p: Page, cmd: Command, failures: nat)
    requires Idle(p)
    ensures var p' := Run(p, Tries(|p.client.net.requests|, cmd, failures));
      p'.alive && p'.busy && S.HasSent(p.client, p'.client, cmd, failures + 1)
    decreases failures
  {
    hide S.HasSent, Step;
    var first := |p.client.net.requests|;
    if failures == 0 {
      ClickSendsIff(p, cmd);
      assert [Click(cmd)][1..] == [];
    } else {
      var before, last := Tries(first, cmd, failures - 1), Reject(first + failures - 1);
      TriesSend(p, cmd, failures - 1);
      RetryOnThePage(p, Run(p, before), cmd, failures);
      RunConcat(p, before, [last, Click(cmd)]);
      RunTwo(Run(p, before), last, Click(cmd));
    }
  }

  lemma LastIsCarriedOut(p: Page, p': Page, cmd: Command, sent: nat)
    requires Idle(p) && p'.alive && p'.busy && S.HasSent(p.client, p'.client, cmd, sent)
    ensures var last := |p.client.net.requests| + sent - 1;
      var done := Run(p', [Network(D.Serve(last, true)), Resolve(last)]);
      done.alive && !done.busy && S.Succeeded(p.client, done.client, cmd)
  {
    var last, key := |p.client.net.requests| + sent - 1, S.Key(p.client, cmd);
    var served := Step(p', Network(D.Serve(last, true)));
    assert p'.client.net.requests[last] == D.Request(key, D.OnTheWay);
    assert served.client.net.requests[last] == D.Request(key, D.Done) && served.client.awaiting == p'.client.awaiting;
    RunTwo(p', Network(D.Serve(last, true)), Resolve(last));
    assert p'.client.awaiting - {last} == p.client.awaiting;
    assert p.client.attempts[cmd := key] - {cmd} == p.client.attempts - {cmd};
  }

  /** From any idle page: a command that is sent, fails any number of times, is sent again each time and is then
      carried out, takes effect once, under one key, the kept one of a claim version included; its success is
      reported once, and the page is idle again. */
  lemma RetriedCommandTakesEffectOnce(p: Page, cmd: Command, failures: nat)
    requires Idle(p)
    ensures var last := |p.client.net.requests| + failures;
      var done := Run(p, Tries(|p.client.net.requests|, cmd, failures) + [Network(D.Serve(last, true)), Resolve(last)]);
      done.alive && !done.busy && S.Succeeded(p.client, done.client, cmd)
  {
    hide *;
    var last := |p.client.net.requests| + failures;
    var tries := Tries(|p.client.net.requests|, cmd, failures);
    TriesSend(p, cmd, failures);
    LastIsCarriedOut(p, Run(p, tries), cmd, failures + 1);
    RunConcat(p, tries, [Network(D.Serve(last, true)), Resolve(last)]);
  }
}

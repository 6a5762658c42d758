/** What the payroll page does with each click and each answer, and what comes of a command that is retried
    until it is answered. */
module PayrollOutcomes {
  import opened Common
  import D = Delivery
  import opened PayrollCommands

  /** An inconclusive failure keeps the pending command, key and all, and lets the user retry it; every other
      error is a refusal of the request, and drops the command. */
  lemma FailureKeepsOrDrops(p: Page, cause: Cause)
    requires Inv(p) && p.alive && p.waiting.Some?
    ensures p.pending.Some?
    ensures Step(p, Reject(cause)) ==
      if Inconclusive(cause) then p.(busy := false, waiting := None)
      else if D.Answered(p.net, p.waiting.value, D.Refused)
      then p.(busy := false, waiting := None, pending := None, refused := p.refused + [p.pending.value.key])
      else p
  {
    hide Inconclusive;
  }

  /** Statuses of both kinds, whatever the texts say of anything but a request in progress. */
  lemma StatusesOfBothKinds(status: int, code: string, reason: string)
    ensures status in {0, 200, 301, 399, 408, 425, 429, 500, 502, 503, 504} ==> Inconclusive(Api(status, code, reason))
    ensures status in {400, 401, 403, 404, 409, 410, 412, 422, 499} ==>
      (Inconclusive(Api(status, code, reason)) <==> OccursIn("IN_PROGRESS", code) || OccursIn("IN_PROGRESS", reason))
  {
    hide OccursIn;
  }

  /** A click sends one request, under a key never used before, exactly if the page is there, idle, and has nothing
      pending; otherwise it does nothing that anyone could see. */
  lemma ClickSendsIff(p: Page, text: string)
    requires Inv(p)
    ensures var p' := Step(p, Click(text));
      if p.alive && !p.busy && p.pending.None? then
        && !D.Used(p.net, p.nextKey)
        && p' == p.(pending := Some(Command(text, p.nextKey)), busy := true, waiting := Some(|p.net.requests|),
                    nextKey := p.nextKey + 1,
                    net := D.Net(p.net.requests + [D.Request(p.nextKey, D.OnTheWay)], p.net.applied))
      else p' == p.(nextKey := p'.nextKey) && p'.nextKey >= p.nextKey
  {
  }

  /** A retry sends the pending command again, under its own key. */
  lemma RetryResends(p: Page)
    requires Inv(p)
    ensures Step(p, Retry) ==
      if p.pending.Some? && !p.busy
      then p.(busy := true, waiting := Some(|p.net.requests|),
              net := D.Net(p.net.requests + [D.Request(p.pending.value.key, D.OnTheWay)], p.net.applied))
      else p
  {
  }

  /** The answer that the awaited request was done reports the command and frees the page. */
  lemma SuccessIsReported(p: Page)
    requires Inv(p) && p.alive && p.waiting.Some? && D.Answered(p.net, p.waiting.value, D.Done)
    ensures p.pending.Some?
    ensures Step(p, Resolve)
      == p.(pending := None, busy := false, waiting := None, reported := p.reported + [p.pending.value.key])
  {
  }

  /** Leaving drops the pending command and hears of nothing any more; the next mount starts idle, with what was
      sent still on the way. */
  lemma NextMountStartsIdle(p: Page, e: Event)
    requires Inv(p) && p.alive
    ensures var left := Step(p, Unmount);
      && left == p.(alive := false, pending := None,
                    abandoned := p.abandoned + if p.pending.Some? then [p.pending.value.key] else [])
      && (!e.Network? && !e.Remount? && !e.Click? ==>
            Step(left, e).(abandoned := left.abandoned) == left.(net := Step(left, e).net))
      && Step(left, Remount) == left.(alive := true, busy := false, waiting := None)
  {
    hide Inconclusive;
  }

  /** Failing and retrying, once for each of the causes. */
  function Tries(causes: seq<Cause>): seq<Event> {
    if causes == [] then [] else [Reject(causes[0]), Retry] + Tries(causes[1..])
  }

  function Again(key: D.Key, n: nat): seq<D.Request> {
    seq(n, i => D.Request(key, D.OnTheWay))
  }

  /** The page awaits the newest of all requests, for the pending command. */
  ghost predicate AwaitsLast(p: Page) {
    p.alive && p.busy && p.pending.Some? && |p.net.requests| > 0 && p.waiting == Some(|p.net.requests| - 1)
  }

  lemma OneTry(p: Page, cause: Cause)
    requires AwaitsLast(p) && Inconclusive(cause)
    ensures Step(Step(p, Reject(cause)), Retry)
      == p.(waiting := Some(|p.net.requests|),
            net := D.Net(p.net.requests + [D.Request(p.pending.value.key, D.OnTheWay)], p.net.applied))
  {
    hide Inconclusive;
  }

  lemma {:induction false} TriesResend(p: Page, causes: seq<Cause>)
    requires AwaitsLast(p) && forall c | c in causes :: Inconclusive(c)
    ensures Run(p, Tries(causes))
      == p.(waiting := Some(|p.net.requests| + |causes| - 1),
            net := D.Net(p.net.requests + Again(p.pending.value.key, |causes|), p.net.applied))
    decreases causes
  {
    hide Inconclusive;
    var key := if AwaitsLast(p) then p.pending.value.key else 0;
    if causes == [] {
      assert p.net.requests + Again(key, 0) == p.net.requests;
    } else {
      var p1 := Step(Step(p, Reject(causes[0])), Retry);
      OneTry(p, causes[0]);
      hide Step;
      var events, rest := Tries(causes), Tries(causes[1..]);
      assert events[0] == Reject(causes[0]) && events[1..][0] == Retry && events[1..][1..] == rest;
      assert Run(p, events) == Run(Step(p, events[0]), events[1..]) == Run(p1, rest);
      TriesResend(p1, causes[1..]);
      assert p.net.requests + Again(key, |causes|)
        == p.net.requests + [D.Request(key, D.OnTheWay)] + Again(key, |causes| - 1);
    }
  }

  lemma {:induction false} RunConcat(p: Page, events: seq<Event>, more: seq<Event>)
    ensures Run(p, events + more) == Run(Run(p, events), more)
    decreases events
  {
    hide Step;
    if events == [] {
      assert events + more == more;
    } else {
      assert (events + more)[1..] == events[1..] + more;
      RunConcat(Step(p, events[0]), events[1..], more);
    }
  }

  /** The request with this ticket is carried out, and its answer arrives. */
  function Success(ticket: nat): seq<Event> {
    [Network(D.Serve(ticket, true)), Resolve]
  }

  /** The server takes up the last request, and the page hears of it. */
  lemma LastIsCarriedOut(p: Page)
    requires AwaitsLast(p) && p.net.requests[|p.net.requests| - 1] == D.Request(p.pending.value.key, D.OnTheWay)
    requires p.pending.value.key !in p.net.applied
    ensures var last, key := |p.net.requests| - 1, p.pending.value.key;
      Run(p, Success(last))
      == p.(pending := None, busy := false, waiting := None, reported := p.reported + [key],
            net := D.Net(p.net.requests[last := D.Request(key, D.Done)], p.net.applied + [key]))
  {
    var last, key := |p.net.requests| - 1, p.pending.value.key;
    var events := Success(last);
    var p1 := p.(net := D.Net(p.net.requests[last := D.Request(key, D.Done)], p.net.applied + [key]));
    assert Step(p, events[0]) == p1;
    assert Step(p1, Resolve) == p1.(pending := None, busy := false, waiting := None, reported := p.reported + [key]);
    hide Step;
    assert events[1..] == [Resolve] && [Resolve][1..] == [];
    assert Run(p, events) == Run(p1, [Resolve]) == Run(Step(p1, Resolve), []);
  }

  /** What was sent before, the command's requests that came to nothing, and the one that was done. */
  function SentInAll(before: seq<D.Request>, key: D.Key, failed: nat): seq<D.Request> {
    before + Again(key, failed) + [D.Request(key, D.Done)]
  }

  lemma TriesThenSuccess(p: Page, causes: seq<Cause>, before: seq<D.Request>)
    requires AwaitsLast(p) && forall c | c in causes :: Inconclusive(c)
    requires p.net.requests == before + [D.Request(p.pending.value.key, D.OnTheWay)] && p.pending.value.key !in p.net.applied
    ensures var key := p.pending.value.key;
      Run(p, Tries(causes) + Success(|before| + |causes|))
      == p.(pending := None, busy := false, waiting := None, reported := p.reported + [key],
            net := D.Net(SentInAll(before, key, |causes|), p.net.applied + [key]))
  {
    hide Step, Run, Inconclusive, Tries;
    var last, key := |before| + |causes|, p.pending.value.key;
    TriesResend(p, causes);
    var p2 := Run(p, Tries(causes));
    AgainAfter(before, key, |causes|);
    hide Again;
    LastIsCarriedOut(p2);
    RunConcat(p, Tries(causes), Success(last));
  }

  lemma AgainAfter(before: seq<D.Request>, key: D.Key, n: nat)
    ensures var sent := before + [D.Request(key, D.OnTheWay)] + Again(key, n);
      && |sent| == |before| + n + 1 && sent[|before| + n] == D.Request(key, D.OnTheWay)
      && sent[|before| + n := D.Request(key, D.Done)] == SentInAll(before, key, n)
  {
  }

  lemma ClickFromIdle(p: Page, text: string)
    requires Inv(p) && p.alive && !p.busy && p.pending.None?
    ensures p.waiting.None? && p.nextKey !in p.net.applied && AwaitsLast(Step(p, Click(text)))
    ensures Step(p, Click(text))
      == Page(Some(Command(text, p.nextKey)), true, true, Some(|p.net.requests|), p.nextKey + 1,
              D.Net(p.net.requests + [D.Request(p.nextKey, D.OnTheWay)], p.net.applied), p.reported, p.refused, p.abandoned)
  {
    ClickSendsIff(p, text);
    D.AppliedIsUsed(p.net);
  }

  lemma RunFirst(p: Page, e: Event, events: seq<Event>)
    ensures Run(p, [e] + events) == Run(Step(p, e), events)
  {
    assert ([e] + events)[1..] == events;
  }

  /** From any idle page: a command that fails inconclusively any number of times, is retried each time, and is
      then carried out, has been sent as often under one key, takes effect once, is reported once, and leaves the
      page idle with nothing pending. */
  lemma RetriedCommandTakesEffectOnce(p: Page, text: string, causes: seq<Cause>)
    requires Inv(p) && p.alive && !p.busy && p.pending.None?
    requires forall c | c in causes :: Inconclusive(c)
    ensures Run(p, [Click(text)] + (Tries(causes) + Success(|p.net.requests| + |causes|)))
      == p.(nextKey := p.nextKey + 1, reported := p.reported + [p.nextKey],
            net := D.Net(SentInAll(p.net.requests, p.nextKey, |causes|), p.net.applied + [p.nextKey]))
  {
    hide *;
    ClickFromIdle(p, text);
    TriesThenSuccess(Step(p, Click(text)), causes, p.net.requests);
    RunFirst(p, Click(text), Tries(causes) + Success(|p.net.requests| + |causes|));
  }
}

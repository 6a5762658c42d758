/** What comes of a command of the project page that is sent, fails any number of times, is sent again each
    time, and is then carried out. */
module SenderOutcomes {
  import D = Delivery
  import opened AttemptKeys
  import opened ProjectSender

  /** The key a send uses: the one remembered for the command, or a fresh one. */
  function Key(c: Client, cmd: Command): D.Key {
    if cmd in c.attempts then c.attempts[cmd] else c.nextKey
  }

  function Again(key: D.Key, n: nat): seq<D.Request> {
    seq(n, i => D.Request(key, D.OnTheWay))
  }

  /** Sending `sent` times, all but the last of which have failed. */
  ghost predicate HasSent(c: Client, c': Client, cmd: Command, sent: nat) {
    var key, last := Key(c, cmd), |c.net.requests| + sent - 1;
    && sent > 0
    && c'.attempts == c.attempts[cmd := key] && c'.awaiting == c.awaiting[last := cmd] && c'.owner == c.owner[key := cmd]
    && c'.nextKey == c.nextKey + sent && c'.reported == c.reported
    && c'.net == D.Net(c.net.requests + Again(key, sent), c.net.applied)
  }

  /** A click sends one request, under the remembered key or a fresh one. */
  lemma ClickSends(c: Client, cmd: Command)
    ensures HasSent(c, Step(c, Click(cmd)), cmd, 1)
  {
    assert Again(Key(c, cmd), 1) == [D.Request(Key(c, cmd), D.OnTheWay)];
  }

  /** A failure keeps the key, and the next click of the command sends it again under that key. */
  lemma RetrySendsTheSameKey(c: Client, c': Client, cmd: Command, sent: nat)
    requires HasSent(c, c', cmd, sent) && forall t | t in c.awaiting :: t < |c.net.requests|
    ensures HasSent(c, Step(Step(c', Reject(|c.net.requests| + sent - 1)), Click(cmd)), cmd, sent + 1)
  {
    var last, key := |c.net.requests| + sent - 1, Key(c, cmd);
    var failed := Step(c', Reject(last));
    assert failed.awaiting == c.awaiting;
    assert c.net.requests + Again(key, sent) + [D.Request(key, D.OnTheWay)] == c.net.requests + Again(key, sent + 1);
    assert c'.attempts[cmd := key] == c'.attempts && c'.owner[key := cmd] == c'.owner;
  }

  /** The click, and as many failures and clicks again. */
  function Tries(first: nat, cmd: Command, failures: nat): seq<Event> {
    if failures == 0 then [Click(cmd)] else Tries(first, cmd, failures - 1) + [Reject(first + failures - 1), Click(cmd)]
  }

  lemma RunTwo(c: Client, first: Event, second: Event)
    ensures Run(c, [first, second]) == Step(Step(c, first), second)
  {
    assert [first, second][1..] == [second] && [second][1..] == [];
    assert Run(c, [first, second]) == Run(Step(c, first), [second]) == Run(Step(Step(c, first), second), []);
  }

  lemma {:induction false} TriesSend(c: Client, cmd: Command, failures: nat)
    requires forall t | t in c.awaiting :: t < |c.net.requests|
    ensures HasSent(c, Run(c, Tries(|c.net.requests|, cmd, failures)), cmd, failures + 1)
    decreases failures
  {
    hide HasSent, Step;
    if failures == 0 {
      ClickSends(c, cmd);
      assert [Click(cmd)][1..] == [];
    } else {
      var before, last := Tries(|c.net.requests|, cmd, failures - 1), Reject(|c.net.requests| + failures - 1);
      TriesSend(c, cmd, failures - 1);
      RetrySendsTheSameKey(c, Run(c, before), cmd, failures);
      RunConcat(c, before, [last, Click(cmd)]);
      RunTwo(Run(c, before), last, Click(cmd));
    }
  }

  /** The command is over: its effect has happened once, its success is reported, nothing more is awaited, and
      its key is forgotten, unless it is one to be kept. */
  ghost predicate Succeeded(c: Client, c': Client, cmd: Command) {
    var key := Key(c, cmd);
    && c'.net.applied == (if key in c.net.applied then c.net.applied else c.net.applied + [key])
    && c'.reported == c.reported + [key] && c'.awaiting == c.awaiting
    && c'.attempts == if cmd.kept then c.attempts[cmd := key] else c.attempts - {cmd}
  }

  lemma LastIsCarriedOut(c: Client, c': Client, cmd: Command, sent: nat)
    requires HasSent(c, c', cmd, sent) && forall t | t in c.awaiting :: t < |c.net.requests|
    ensures var last := |c.net.requests| + sent - 1;
      Succeeded(c, Run(c', [Network(D.Serve(last, true)), Resolve(last)]), cmd)
  {
    var last, key := |c.net.requests| + sent - 1, Key(c, cmd);
    var served := Step(c', Network(D.Serve(last, true)));
    assert c'.net.requests[last] == D.Request(key, D.OnTheWay);
    assert served.net.requests[last] == D.Request(key, D.Done) && served.awaiting == c'.awaiting;
    RunTwo(c', Network(D.Serve(last, true)), Resolve(last));
    assert c'.awaiting - {last} == c.awaiting;
    assert c.attempts[cmd := key] - {cmd} == c.attempts - {cmd};
  }

  /** From any state: a command that is sent, fails any number of times, is sent again each time and is then
      carried out, takes effect once, under one key, which is the one it already had if an earlier attempt was
      left open; its success is reported once. */
  lemma RetriedCommandTakesEffectOnce(c: Client, cmd: Command, failures: nat)
    requires forall t | t in c.awaiting :: t < |c.net.requests|
    ensures var last := |c.net.requests| + failures;
      Succeeded(c, Run(c, Tries(|c.net.requests|, cmd, failures) + [Network(D.Serve(last, true)), Resolve(last)]), cmd)
  {
    hide *;
    var last := |c.net.requests| + failures;
    var tries := Tries(|c.net.requests|, cmd, failures);
    TriesSend(c, cmd, failures);
    LastIsCarriedOut(c, Run(c, tries), cmd, failures + 1);
    RunConcat(c, tries, [Network(D.Serve(last, true)), Resolve(last)]);
  }
}

/** The project page's request sender: a retry of an uncertain write replays the original key, and
    the key is forgotten when the write succeeds. */
module ProjectSender {
  import opened Delivery
  import opened AttemptKeys

  datatype Event = Click(cmd: Command) | Resolve(ticket: nat) | Reject(ticket: nat) | Network(e: Delivery.Event)

  /** A send begins, one of the awaited sends returns or throws (a late answer may be given up on at
      any time), or the network moves. */
  function Step(c: Client, e: Event): Client {
    match e
    case Click(cmd) => Begin(c, cmd)
    case Resolve(t) => if t in c.awaiting && Answered(c.net, t, Done) then Succeed(c, t) else c
    case Reject(t) => Fail(c, t)
    case Network(e) => c.(net := Delivery.Step(c.net, e))
  }

  function Run(c: Client, events: seq<Event>): Client
    decreases events
  {
    if events == [] then c else Run(Step(c, events[0]), events[1..])
  }

  /** No command is sent while an awaited send of the same command can still succeed. The page's buttons
      are disabled while it works, so that no send of it is awaited at all. */
  ghost predicate NeverOverlaps(c: Client, events: seq<Event>)
    decreases events
  {
    events == [] || ((events[0].Click? ==> !Overlaps(c, events[0].cmd)) && NeverOverlaps(Step(c, events[0]), events[1..]))
  }

  lemma {:induction false} RunKeepsInv(c: Client, events: seq<Event>, cmd: Command)
    requires Inv(c, cmd) && NeverOverlaps(c, events)
    ensures Inv(Run(c, events), cmd)
    decreases events
  {
    if events != [] {
      match events[0] {
        case Click(x) => BeginKeepsInv(c, x, cmd);
        case Resolve(t) => if t in c.awaiting && Answered(c.net, t, Done) { SucceedKeepsInv(c, t, cmd); }
        case Reject(t) => FailKeepsInv(c, t, cmd);
        case Network(e) => NetworkKeepsInv(c, e, cmd);
      }
      RunKeepsInv(Step(c, events[0]), events[1..], cmd);
    }
  }

  /** After any run, with any number of retries, lost and late answers: each command has taken effect
      exactly as often as its success was reported, or once more for the attempt still open. */
  lemma ExactlyOncePerIntent(events: seq<Event>, cmd: Command)
    requires NeverOverlaps(FRESH, events) && !cmd.kept
    ensures var c := Run(FRESH, events); CountHolds(c, cmd) && |OpenEffect(c, cmd)| <= 1
  {
    RunKeepsInv(FRESH, events, cmd);
    EffectsMatchReports(Run(FRESH, events), cmd);
  }

  // ---- Overlapping sends of one command break the promise ----

  /** The server takes up a request, if it is still on the way, and its send returns. */
  function Return(ticket: nat): seq<Event> {
    [Network(Serve(ticket, true)), Resolve(ticket)]
  }

  const SAVE := Command("save", false)

  lemma {:induction false} RunConcat(c: Client, events: seq<Event>, more: seq<Event>)
    ensures Run(c, events + more) == Run(Run(c, events), more)
    decreases events
  {
    hide Step;
    if events == [] {
      assert events + more == more;
    } else {
      assert (events + more)[1..] == events[1..] + more;
      RunConcat(Step(c, events[0]), events[1..], more);
    }
  }

  lemma Then(events: seq<Event>, c: Client, e: Event) returns (longer: seq<Event>)
    requires Run(FRESH, events) == c
    ensures Run(FRESH, longer) == Step(c, e)
  {
    RunConcat(FRESH, events, [e]);
    assert [e][1..] == [];
    longer := events + [e];
  }

  lemma ReturnReports(c: Client, ticket: nat)
    requires Sound(c.net) && MaySucceed(c, ticket)
    ensures var cmd, key, c' := c.awaiting[ticket], c.net.requests[ticket].key, Run(c, Return(ticket));
      && c'.reported == c.reported + [key] && c'.owner == c.owner && c'.nextKey == c.nextKey
      && c'.awaiting == c.awaiting - {ticket} && c'.attempts == (if cmd.kept then c.attempts else c.attempts - {cmd})
      && c'.net.applied == (if key in c.net.applied then c.net.applied else c.net.applied + [key])
      && Sound(c'.net) && |c'.net.requests| == |c.net.requests|
      && forall t | 0 <= t < |c.net.requests| && t != ticket :: c'.net.requests[t] == c.net.requests[t]
  {
    var c1 := Step(c, Network(Serve(ticket, true)));
    StepIsSound(c.net, Serve(ticket, true));
    assert Return(ticket)[1..] == [Resolve(ticket)] && [Resolve(ticket)][1..] == [];
    assert Run(c, Return(ticket)) == Run(c1, [Resolve(ticket)]) == Run(Step(c1, Resolve(ticket)), []);
  }

  lemma AwaitedKey(c: Client, cmd: Command, ticket: nat)
    requires Owned(c) && InStep(c) && MaySucceed(c, ticket) && c.awaiting[ticket] == cmd
    ensures cmd in c.attempts && ticket < |c.net.requests| && c.attempts[cmd] == c.net.requests[ticket].key
    ensures c.attempts[cmd] in c.owner && c.owner[c.attempts[cmd]] == cmd
    ensures |c.net.requests| !in c.awaiting
  {
  }

  /** The second click shares the key of the first. */
  lemma SecondClickSharesTheKey(c: Client, cmd: Command, ticket: nat)
    requires Inv(c, cmd) && MaySucceed(c, ticket) && c.awaiting[ticket] == cmd
    ensures cmd in c.attempts && ticket < |c.net.requests| && c.attempts[cmd] == c.net.requests[ticket].key
    ensures c.attempts[cmd] in c.owner && c.owner[c.attempts[cmd]] == cmd
    ensures var c', late := Step(c, Click(cmd)), |c.net.requests|;
      && Sound(c'.net) && c'.owner == c.owner && c'.attempts == c.attempts && c'.reported == c.reported
      && c'.net.applied == c.net.applied && late !in c.awaiting
      && c'.awaiting == c.awaiting[late := cmd] && c'.net.requests == c.net.requests + [Request(c.attempts[cmd], OnTheWay)]
  {
    AwaitedKey(c, cmd, ticket);
    SendIsSound(c.net, c.attempts[cmd]);
    hide Sound, Owned, Accounted, InStep;
    var key := c.attempts[cmd];
    assert c.attempts[cmd := key] == c.attempts && c.owner[key := cmd] == c.owner;
  }

  lemma BothReturn(c: Client, cmd: Command, ticket: nat)
    requires Inv(c, cmd) && !cmd.kept && MaySucceed(c, ticket) && c.awaiting[ticket] == cmd
    ensures cmd in c.attempts
    ensures var key, c' := c.attempts[cmd], Run(Run(Step(c, Click(cmd)), Return(ticket)), Return(|c.net.requests|));
      && c'.reported == c.reported + [key] + [key] && c'.owner == c.owner && cmd !in c'.attempts
      && c'.net.applied == if key in c.net.applied then c.net.applied else c.net.applied + [key]
  {
    SecondClickSharesTheKey(c, cmd, ticket);
    hide Sound, Inv, Run, Return;
    var late, c1 := |c.net.requests|, Step(c, Click(cmd));
    ReturnReports(c1, ticket);
    ReturnReports(Run(c1, Return(ticket)), late);
  }

  /** One overlapping click is enough: while a send of the command can still succeed, clicking again and
      letting both return reports two successes for one effect, with nothing open any more. */
  lemma OneOverlapBreaksTheCount(c: Client, cmd: Command, ticket: nat)
    requires Inv(c, cmd) && !cmd.kept && MaySucceed(c, ticket) && c.awaiting[ticket] == cmd
    ensures CountHolds(c, cmd)
    ensures var c' := Run(Run(Step(c, Click(cmd)), Return(ticket)), Return(|c.net.requests|));
      cmd !in c'.attempts && Successes(c'.reported, c'.owner, cmd) == |Effects(c', cmd)| + 1
  {
    EffectsMatchReports(c, cmd);
    SecondClickSharesTheKey(c, cmd, ticket);
    BothReturn(c, cmd, ticket);
    var key, c' := c.attempts[cmd], Run(Run(Step(c, Click(cmd)), Return(ticket)), Return(|c.net.requests|));
    hide Run, Return, Step, Inv, Effects, Successes, OpenEffect;
    TwoMoreSuccesses(c.reported, c.owner, cmd, key);
    EffectsGrowByOne(c, c', cmd, key);
  }

  lemma OverlapCanBreakTheCount(c: Client, cmd: Command) returns (more: seq<Event>)
    requires Inv(c, cmd) && Overlaps(c, cmd) && !cmd.kept
    ensures NeverOverlaps(Step(c, Click(cmd)), more) && !CountHolds(Run(Step(c, Click(cmd)), more), cmd)
  {
    hide Inv, Run, Step, NeverOverlaps, Effects, Successes, CountHolds;
    var c1 := Step(c, Click(cmd));
    var ticket: nat :| MaySucceed(c, ticket) && c.awaiting[ticket] == cmd;
    var first, second := Return(ticket), Return(|c.net.requests|);
    more := first + second;
    OneOverlapBreaksTheCount(c, cmd, ticket);
    WithoutClicks(c1, more);
    RunConcat(c1, first, second);
    TooManySuccesses(Run(Run(c1, first), second), cmd);
  }

  lemma TooManySuccesses(c: Client, cmd: Command)
    requires cmd !in c.attempts && Successes(c.reported, c.owner, cmd) == |Effects(c, cmd)| + 1
    ensures !CountHolds(c, cmd)
  {
    hide Effects, Successes;
    assert OpenEffect(c, cmd) == {};
  }

  lemma NoOverlapKeepsTheCount(c: Client, cmd: Command, more: seq<Event>)
    requires Inv(c, cmd) && !Overlaps(c, cmd) && !cmd.kept && NeverOverlaps(Step(c, Click(cmd)), more)
    ensures CountHolds(Run(Step(c, Click(cmd)), more), cmd)
  {
    BeginKeepsInv(c, cmd, cmd);
    hide Inv, Run, Effects, Successes, OpenEffect, NeverOverlaps, Overlaps;
    RunKeepsInv(Step(c, Click(cmd)), more, cmd);
    EffectsMatchReports(Run(Step(c, Click(cmd)), more), cmd);
  }

  /** A click of a command breaks the promise, by a continuation that overlaps no more, exactly if an
      awaited send of the command can still succeed. */
  lemma ClickBreaksTheCountIff(events: seq<Event>, cmd: Command)
    requires NeverOverlaps(FRESH, events) && !cmd.kept
    ensures var c := Run(FRESH, events);
      Overlaps(c, cmd) <==>
        exists more :: NeverOverlaps(Step(c, Click(cmd)), more) && !CountHolds(Run(Step(c, Click(cmd)), more), cmd)
  {
    var c := Run(FRESH, events);
    RunKeepsInv(FRESH, events, cmd);
    hide Inv, Run, Step, CountHolds, NeverOverlaps, Overlaps;
    if Overlaps(c, cmd) {
      var more := OverlapCanBreakTheCount(c, cmd);
    } else {
      forall more | NeverOverlaps(Step(c, Click(cmd)), more) ensures CountHolds(Run(Step(c, Click(cmd)), more), cmd) {
        NoOverlapKeepsTheCount(c, cmd, more);
      }
    }
  }

  lemma {:induction false} WithoutClicks(c: Client, events: seq<Event>)
    requires forall e | e in events :: !e.Click?
    ensures NeverOverlaps(c, events)
    decreases events
  {
    if events != [] {
      WithoutClicks(Step(c, events[0]), events[1..]);
    }
  }

  lemma TwoMoreSuccesses(reported: seq<Key>, owner: map<Key, Command>, cmd: Command, key: Key)
    requires key in owner && owner[key] == cmd
    ensures Successes(reported + [key] + [key], owner, cmd) == Successes(reported, owner, cmd) + 2
  {
    var one := reported + [key];
    assert one[..|reported|] == reported && (one + [key])[..|one|] == one;
  }

  /** What was open has taken effect, and nothing else has. */
  lemma EffectsGrowByOne(c: Client, c': Client, cmd: Command, key: Key)
    requires cmd in c.attempts && c.attempts[cmd] == key && key in c.owner && c.owner[key] == cmd && c'.owner == c.owner
    requires c'.net.applied == if key in c.net.applied then c.net.applied else c.net.applied + [key]
    ensures |Effects(c', cmd)| == |Effects(c, cmd)| + 1 - |OpenEffect(c, cmd)|
  {
    assert Effects(c', cmd) == Effects(c, cmd) + {key};
    if key in c.net.applied {
      assert key in Effects(c, cmd) && OpenEffect(c, cmd) == {key};
    }
  }

  /** Two sends of one command overlap and share a key; the first of them succeeds, so the key is
      forgotten while the second still awaits. */
  lemma SharedKey() returns (events: seq<Event>)
    ensures Run(FRESH, events)
      == Client(map[], map[1 := SAVE], 2, Net([Request(0, Done), Request(0, OnTheWay)], [0]), [0], map[0 := SAVE])
  {
    var c1 := Client(map[SAVE := 0], map[0 := SAVE], 1, Net([Request(0, OnTheWay)], []), [], map[0 := SAVE]);
    var c2 := Client(map[SAVE := 0], map[0 := SAVE, 1 := SAVE], 2, Net([Request(0, OnTheWay), Request(0, OnTheWay)], []), [], map[0 := SAVE]);
    var c3 := c2.(net := Net([Request(0, Done), Request(0, OnTheWay)], [0]));
    events := Then([], FRESH, Click(SAVE));
    assert Step(FRESH, Click(SAVE)) == c1;
    events := Then(events, c1, Click(SAVE));
    assert Step(c1, Click(SAVE)) == c2;
    events := Then(events, c2, Network(Serve(0, true)));
    assert Step(c2, Network(Serve(0, true))) == c3;
    events := Then(events, c3, Resolve(0));
    assert map[0 := SAVE, 1 := SAVE] - {0} == map[1 := SAVE];
  }

  /** The next intent begins with a new key while the old second send is served. */
  lemma NextIntent() returns (events: seq<Event>)
    ensures Run(FRESH, events) == Client(map[SAVE := 2], map[1 := SAVE, 2 := SAVE], 3,
      Net([Request(0, Done), Request(0, Done), Request(2, OnTheWay)], [0]), [0], map[0 := SAVE, 2 := SAVE])
  {
    var c4 := Client(map[], map[1 := SAVE], 2, Net([Request(0, Done), Request(0, OnTheWay)], [0]), [0], map[0 := SAVE]);
    var c5 := Client(map[SAVE := 2], map[1 := SAVE, 2 := SAVE], 3, Net([Request(0, Done), Request(0, OnTheWay), Request(2, OnTheWay)], [0]), [0], map[0 := SAVE, 2 := SAVE]);
    events := SharedKey();
    events := Then(events, c4, Click(SAVE));
    assert Step(c4, Click(SAVE)) == c5;
    events := Then(events, c5, Network(Serve(1, true)));
  }

  /** The answer to the old second send deletes the new key. */
  lemma DeletedKey() returns (events: seq<Event>)
    ensures Run(FRESH, events)
      == Client(map[], map[2 := SAVE], 3, Net([Request(0, Done), Request(0, Done), Request(2, OnTheWay)], [0]), [0, 0], map[0 := SAVE, 2 := SAVE])
  {
    var c6 := Client(map[SAVE := 2], map[1 := SAVE, 2 := SAVE], 3,
      Net([Request(0, Done), Request(0, Done), Request(2, OnTheWay)], [0]), [0], map[0 := SAVE, 2 := SAVE]);
    events := NextIntent();
    events := Then(events, c6, Resolve(1));
    assert map[1 := SAVE, 2 := SAVE] - {1} == map[2 := SAVE];
  }

  /** Its first answer is lost, its retry uses a third key: the second intent takes effect twice,
      under the keys 2 and 3, with nothing open any more. */
  lemma OverlapRepeatsAnEffect()
    ensures exists events :: var c := Run(FRESH, events);
      c.net.applied == [0, 2, 3] && c.reported == [0, 0, 3] && c.attempts == map[] && c.awaiting == map[]
  {
    var owner := map[0 := SAVE, 2 := SAVE];
    var c7 := Client(map[], map[2 := SAVE], 3, Net([Request(0, Done), Request(0, Done), Request(2, OnTheWay)], [0]), [0, 0], owner);
    var c8 := c7.(net := Net([Request(0, Done), Request(0, Done), Request(2, Done)], [0, 2]));
    var c9 := c8.(awaiting := map[]);
    var c10 := Client(map[SAVE := 3], map[3 := SAVE], 4, Send(c9.net, 3), [0, 0], owner[3 := SAVE]);
    var events := DeletedKey();
    events := Then(events, c7, Network(Serve(2, true)));
    assert Step(c7, Network(Serve(2, true))) == c8;
    events := Then(events, c8, Reject(2));
    assert Step(c8, Reject(2)) == c9;
    events := Then(events, c9, Click(SAVE));
    assert Step(c9, Click(SAVE)) == c10;
    events := Then(events, c10, Network(Serve(3, true)));
    var c11 := Step(c10, Network(Serve(3, true)));
    assert Answered(c11.net, 3, Done);
    events := Then(events, c11, Resolve(3));
    assert Run(FRESH, events).net.applied == [0, 2, 3];
  }

  // ---- The code ----

  class RequestSender {
    var attempts: map<Command, Key>

    constructor ()
      ensures attempts == map[]
    {
      attempts := map[];
    }

    /** Before the await: the remembered key, or the caller's. */
    method Prepare(cmd: Command, idempotencyKey: Key) returns (key: Key)
      modifies this
      ensures forall c: Client | c.attempts == old(attempts) && c.nextKey == idempotencyKey ::
        key == KeyFor(c, cmd) && attempts == Begin(c, cmd).attempts
    {
      key := if cmd in attempts then attempts[cmd] else idempotencyKey;
      attempts := attempts[cmd := key];
    }

    /** After the await returned; when it throws, nothing runs. */
    method Forget(cmd: Command)
      requires !cmd.kept
      modifies this
      ensures forall c: Client, t | c.attempts == old(attempts) && t in c.awaiting && c.awaiting[t] == cmd && Answered(c.net, t, Done) ::
        attempts == Succeed(c, t).attempts
    {
      attempts := attempts - {cmd};
    }
  }
}

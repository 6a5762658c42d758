/** The project page's sender, as far as the page can know: when a click is safe. */
module SenderViews {
  import opened Delivery
  import opened AttemptKeys
  import opened KeyViews
  import P = ProjectSender

  /** An event the page takes part in, and what it sees after it. */
  datatype Sight = Sight(e: P.Event, client: Client)

  function Seen(c: Client, events: seq<P.Event>): seq<Sight>
    decreases events
  {
    if events == [] then []
    else
      var c' := P.Step(c, events[0]);
      if events[0].Network? then Seen(c', events[1..]) else [Sight(events[0], Blind(c'))] + Seen(c', events[1..])
  }

  /** Two runs the page cannot tell apart at any of its events. */
  ghost predicate LooksAlike(events: seq<P.Event>, other: seq<P.Event>) {
    Seen(FRESH, events) == Seen(FRESH, other)
  }

  ghost predicate Awaits(c: Client, cmd: Command) {
    exists t :: t in c.awaiting && c.awaiting[t] == cmd
  }

  /** No command is sent while a send of it is awaited. */
  ghost predicate SendsApart(c: Client, events: seq<P.Event>)
    decreases events
  {
    events == [] || ((events[0].Click? ==> !Awaits(c, events[0].cmd)) && SendsApart(P.Step(c, events[0]), events[1..]))
  }

  lemma {:induction false} SendsApartNeverOverlap(c: Client, events: seq<P.Event>)
    requires SendsApart(c, events)
    ensures P.NeverOverlaps(c, events)
    decreases events
  {
    if events != [] {
      SendsApartNeverOverlap(P.Step(c, events[0]), events[1..]);
    }
  }

  /** Runs that look alike end alike, and keep sends apart alike. */
  lemma {:induction false} SeenAlike(c: Client, events: seq<P.Event>, d: Client, other: seq<P.Event>)
    requires Blind(c) == Blind(d) && Seen(c, events) == Seen(d, other)
    ensures Blind(P.Run(c, events)) == Blind(P.Run(d, other))
    ensures SendsApart(c, events) ==> SendsApart(d, other)
    decreases |events| + |other|
  {
    hide Blind;
    if events != [] && events[0].Network? {
      NetworkIsUnseen(c, events[0].e);
      SeenAlike(P.Step(c, events[0]), events[1..], d, other);
    } else if other != [] && other[0].Network? {
      NetworkIsUnseen(d, other[0].e);
      SeenAlike(c, events, P.Step(d, other[0]), other[1..]);
    } else if events != [] && other != [] {
      var c', d' := P.Step(c, events[0]), P.Step(d, other[0]);
      hide P.Step;
      assert Seen(c, events)[0] == Seen(d, other)[0];
      assert Seen(c, events)[1..] == Seen(c', events[1..]) && Seen(d, other)[1..] == Seen(d', other[1..]);
      SeenAlike(c', events[1..], d', other[1..]);
      AwaitsAlike(c, d);
    } else {
      assert events == [] && other == [];
    }
  }

  lemma AwaitsAlike(c: Client, d: Client)
    requires Blind(c) == Blind(d)
    ensures forall cmd :: Awaits(c, cmd) <==> Awaits(d, cmd)
    ensures c.attempts == d.attempts && c.awaiting == d.awaiting
  {
    BlindIsAllButTheNet(c, d);
  }

  /** Each awaited send carries the key its command remembers. */
  ghost predicate AwaitedKeys(c: Client) {
    forall t | t in c.awaiting :: t < |c.net.requests| && c.awaiting[t] in c.attempts && c.attempts[c.awaiting[t]] == c.net.requests[t].key
  }

  ghost predicate OneEach(c: Client) {
    AwaitedKeys(c) && forall t, u | t in c.awaiting && u in c.awaiting && t != u :: c.awaiting[t] != c.awaiting[u]
  }

  lemma StepKeepsOneEach(c: Client, e: P.Event)
    requires OneEach(c) && (e.Click? ==> !Awaits(c, e.cmd))
    ensures OneEach(P.Step(c, e))
  {
    if e.Click? {
      forall t | t in c.awaiting ensures c.awaiting[t] != e.cmd && t != |c.net.requests| {
      }
    }
  }

  lemma {:induction false} RunKeepsOneEach(c: Client, events: seq<P.Event>)
    requires OneEach(c) && SendsApart(c, events)
    ensures OneEach(P.Run(c, events))
    decreases events
  {
    if events != [] {
      StepKeepsOneEach(c, events[0]);
      RunKeepsOneEach(P.Step(c, events[0]), events[1..]);
    }
  }

  /** The run without the network's events on requests of `key`. */
  function Quiet(c: Client, events: seq<P.Event>, key: Key): seq<P.Event>
    decreases events
  {
    if events == [] then []
    else
      var rest := Quiet(P.Step(c, events[0]), events[1..], key);
      if events[0].Network? && Silent(c, events[0].e, key) then rest else [events[0]] + rest
  }

  lemma {:induction false} ReportsStay(c: Client, events: seq<P.Event>, key: Key)
    requires key in c.reported
    ensures key in P.Run(c, events).reported
    decreases events
  {
    if events != [] {
      ReportsStay(P.Step(c, events[0]), events[1..], key);
    }
  }

  lemma HeldThroughStep(c: Client, d: Client, e: P.Event, key: Key)
    requires Held(c, d, key) && key !in P.Step(c, e).reported
    ensures Held(P.Step(c, e), if e.Network? && Silent(c, e.e, key) then d else P.Step(d, e), key)
  {
    match e
    case Click(cmd) => HeldThroughBegin(c, d, key, cmd);
    case Resolve(t) =>
      if t in c.awaiting && Answered(c.net, t, Done) {
        assert c.net.requests[t].key != key;
        HeldThroughSucceed(c, d, key, t);
      }
    case Reject(t) => HeldThroughFail(c, d, key, t);
    case Network(n) => HeldThroughNetwork(c, d, key, n);
  }

  /** As long as no success is reported for a key, its requests may all be still on the way. */
  lemma {:induction false} HeldThroughRun(c: Client, d: Client, events: seq<P.Event>, key: Key)
    requires Held(c, d, key) && key !in P.Run(c, events).reported
    ensures Held(P.Run(c, events), P.Run(d, Quiet(c, events, key)), key)
    ensures Seen(d, Quiet(c, events, key)) == Seen(c, events)
    decreases events
  {
    if events != [] {
      var e, c' := events[0], P.Step(c, events[0]);
      var silent := e.Network? && Silent(c, e.e, key);
      var d' := if silent then d else P.Step(d, e);
      if key in c'.reported {
        ReportsStay(c', events[1..], key);
      }
      HeldThroughStep(c, d, e, key);
      hide P.Step, Held, Blind;
      HeldThroughRun(c', d', events[1..], key);
      HeldLooksTheSame(c', d', key);
      var rest := Quiet(c', events[1..], key);
      assert ([e] + rest)[1..] == rest;
    }
  }

  /** An awaited command: in a run that looks the same its send can still succeed. */
  lemma AwaitedMaySucceed(events: seq<P.Event>, cmd: Command) returns (other: seq<P.Event>)
    requires SendsApart(FRESH, events) && !cmd.kept && Awaits(P.Run(FRESH, events), cmd)
    ensures LooksAlike(events, other) && Overlaps(P.Run(FRESH, other), cmd)
  {
    var c := P.Run(FRESH, events);
    SendsApartNeverOverlap(FRESH, events);
    P.RunKeepsInv(FRESH, events, cmd);
    RunKeepsOneEach(FRESH, events);
    var t: nat :| t in c.awaiting && c.awaiting[t] == cmd;
    var key := c.attempts[cmd];
    assert KeyAccounted(c, key);
    other := Quiet(FRESH, events, key);
    assert Held(FRESH, FRESH, key);
    HeldThroughRun(FRESH, FRESH, events, key);
    assert MaySucceed(P.Run(FRESH, other), t);
  }

  ghost predicate Breaks(other: seq<P.Event>, cmd: Command, more: seq<P.Event>) {
    var c := P.Step(P.Run(FRESH, other), P.Click(cmd));
    P.NeverOverlaps(c, more) && !CountHolds(P.Run(c, more), cmd)
  }

  /** What the page knows decides it: a click of a command is safe in every run the page cannot tell from its
      own, whatever follows without a further overlap, if and only if no send of the command is awaited. */
  lemma ClickIsSafeIffNotAwaited(events: seq<P.Event>, cmd: Command)
    requires SendsApart(FRESH, events) && !cmd.kept
    ensures !Awaits(P.Run(FRESH, events), cmd)
      <==> forall other, more | LooksAlike(events, other) :: !Breaks(other, cmd, more)
  {
    if Awaits(P.Run(FRESH, events), cmd) {
      var other := AwaitedMaySucceed(events, cmd);
      SeenAlike(FRESH, events, FRESH, other);
      SendsApartNeverOverlap(FRESH, other);
      P.RunKeepsInv(FRESH, other, cmd);
      var more := P.OverlapCanBreakTheCount(P.Run(FRESH, other), cmd);
      assert Breaks(other, cmd, more);
    } else {
      forall other, more | LooksAlike(events, other) ensures !Breaks(other, cmd, more) {
        NotAwaitedIsSafe(events, other, cmd, more);
      }
    }
  }

  lemma NotAwaitedIsSafe(events: seq<P.Event>, other: seq<P.Event>, cmd: Command, more: seq<P.Event>)
    requires SendsApart(FRESH, events) && !cmd.kept && !Awaits(P.Run(FRESH, events), cmd) && LooksAlike(events, other)
    ensures !Breaks(other, cmd, more)
  {
    var c, d := P.Run(FRESH, events), P.Run(FRESH, other);
    SeenAlike(FRESH, events, FRESH, other);
    SendsApartNeverOverlap(FRESH, other);
    P.RunKeepsInv(FRESH, other, cmd);
    AwaitsAlike(c, d);
    assert !Overlaps(d, cmd);
    if P.NeverOverlaps(P.Step(d, P.Click(cmd)), more) {
      P.NoOverlapKeepsTheCount(d, cmd, more);
    }
  }
}

/** The expense page over several mounts, as far as it can know: when a new mount is safe. */
module ExpenseViews {
  import opened Delivery
  import opened AttemptKeys
  import opened KeyViews
  import P = ExpensePage

  function BlindPage(p: P.Page): P.Page {
    p.(client := Blind(p.client))
  }

  /** An event the page takes part in, and what it sees after it. */
  datatype Sight = Sight(e: P.Event, page: P.Page)

  function Seen(p: P.Page, events: seq<P.Event>): seq<Sight>
    decreases events
  {
    if events == [] then []
    else
      var p' := P.Step(p, events[0]);
      if events[0].Network? then Seen(p', events[1..]) else [Sight(events[0], BlindPage(p'))] + Seen(p', events[1..])
  }

  /** Two runs the page cannot tell apart at any of its events. */
  ghost predicate LooksAlike(events: seq<P.Event>, other: seq<P.Event>) {
    Seen(P.MOUNTED, events) == Seen(P.MOUNTED, other)
  }

  lemma AttemptsAlike(p: P.Page, q: P.Page)
    requires BlindPage(p) == BlindPage(q)
    ensures p.alive == q.alive && p.client.attempts == q.client.attempts
  {
    assert BlindPage(p).alive == BlindPage(q).alive && Blind(p.client) == Blind(q.client);
    BlindIsAllButTheNet(p.client, q.client);
  }

  /** Runs that look alike end alike, and remount alike. */
  lemma {:induction false} SeenAlike(p: P.Page, events: seq<P.Event>, q: P.Page, other: seq<P.Event>, cmd: Command)
    requires BlindPage(p) == BlindPage(q) && Seen(p, events) == Seen(q, other)
    ensures BlindPage(P.Run(p, events)) == BlindPage(P.Run(q, other))
    ensures P.CarefulRemounts(p, events, cmd) ==> P.CarefulRemounts(q, other, cmd)
    decreases |events| + |other|
  {
    hide Blind;
    if events != [] && events[0].Network? {
      NetworkIsUnseen(p.client, events[0].e);
      SeenAlike(P.Step(p, events[0]), events[1..], q, other, cmd);
    } else if other != [] && other[0].Network? {
      NetworkIsUnseen(q.client, other[0].e);
      SeenAlike(p, events, P.Step(q, other[0]), other[1..], cmd);
    } else if events != [] && other != [] {
      var p', q' := P.Step(p, events[0]), P.Step(q, other[0]);
      hide P.Step, BlindPage;
      assert Seen(p, events)[0] == Seen(q, other)[0];
      assert Seen(p, events)[1..] == Seen(p', events[1..]) && Seen(q, other)[1..] == Seen(q', other[1..]);
      SeenAlike(p', events[1..], q', other[1..], cmd);
      AttemptsAlike(p, q);
    } else {
      assert events == [] && other == [];
    }
  }

  /** The run without the network's events on requests of `key`. */
  function Quiet(p: P.Page, events: seq<P.Event>, key: Key): seq<P.Event>
    decreases events
  {
    if events == [] then []
    else
      var rest := Quiet(P.Step(p, events[0]), events[1..], key);
      if events[0].Network? && Silent(p.client, events[0].e, key) then rest else [events[0]] + rest
  }

  lemma {:induction false} ReportsStay(p: P.Page, events: seq<P.Event>, key: Key)
    requires key in p.client.reported
    ensures key in P.Run(p, events).client.reported
    decreases events
  {
    if events != [] {
      ReportsStay(P.Step(p, events[0]), events[1..], key);
    }
  }

  ghost predicate HeldPage(p: P.Page, q: P.Page, key: Key) {
    q.busy == p.busy && q.alive == p.alive && Held(p.client, q.client, key)
  }

  lemma HeldThroughStep(p: P.Page, q: P.Page, e: P.Event, key: Key)
    requires HeldPage(p, q, key) && key !in P.Step(p, e).client.reported
    ensures HeldPage(P.Step(p, e), if e.Network? && Silent(p.client, e.e, key) then q else P.Step(q, e), key)
  {
    var c, d := p.client, q.client;
    match e
    case Click(cmd) => HeldThroughBegin(c, d, key, cmd);
    case Resolve(t) =>
      if p.alive && t in c.awaiting && Answered(c.net, t, Done) {
        assert c.net.requests[t].key != key;
        HeldThroughSucceed(c, d, key, t);
      }
    case Reject(t) => HeldThroughFail(c, d, key, t);
    case Unmount =>
    case Remount =>
    case Network(n) => HeldThroughNetwork(c, d, key, n);
  }

  /** As long as no success is reported for a key, its requests may all be still on the way. */
  lemma {:induction false} HeldThroughRun(p: P.Page, q: P.Page, events: seq<P.Event>, key: Key)
    requires HeldPage(p, q, key) && key !in P.Run(p, events).client.reported
    ensures HeldPage(P.Run(p, events), P.Run(q, Quiet(p, events, key)), key)
    ensures Seen(q, Quiet(p, events, key)) == Seen(p, events)
    decreases events
  {
    if events != [] {
      var e, p' := events[0], P.Step(p, events[0]);
      var q' := if e.Network? && Silent(p.client, e.e, key) then q else P.Step(q, e);
      if key in p'.client.reported {
        ReportsStay(p', events[1..], key);
      }
      HeldThroughStep(p, q, e, key);
      hide P.Step, Held, Blind;
      HeldThroughRun(p', q', events[1..], key);
      HeldLooksTheSame(p'.client, q'.client, key);
      var rest := Quiet(p', events[1..], key);
      assert ([e] + rest)[1..] == rest;
    }
  }

  // ---- A new mount ----

  /** A page mounted anew after `other`, and what follows. */
  function Again(other: seq<P.Event>, more: seq<P.Event>): Client {
    P.Run(P.Step(P.Run(P.MOUNTED, other), P.Remount), more).client
  }

  /** What follows breaks the promise, although later mounts leave nothing behind. */
  ghost predicate Breaks(other: seq<P.Event>, cmd: Command, more: seq<P.Event>) {
    P.CarefulRemounts(P.Step(P.Run(P.MOUNTED, other), P.Remount), more, cmd) && !P.OncePerIntent(Again(other, more), cmd)
  }

  /** The command again, under a fresh key, and served. */
  function Repeat(cmd: Command, ticket: nat): seq<P.Event> {
    [P.Click(cmd), P.Network(Serve(ticket, true))]
  }

  lemma RepeatTakesEffect(p: P.Page, cmd: Command)
    requires p.alive && !p.busy && cmd !in p.client.attempts && p.client.nextKey !in p.client.net.applied
    ensures var c, c' := p.client, P.Run(p, Repeat(cmd, |p.client.net.requests|)).client;
      && c'.net.applied == c.net.applied + [c.nextKey] && c'.owner == c.owner[c.nextKey := cmd]
  {
    var t := |p.client.net.requests|;
    var p1 := P.Step(p, P.Click(cmd));
    assert Repeat(cmd, t)[1..] == [P.Network(Serve(t, true))] && [P.Network(Serve(t, true))][1..] == [];
    assert P.Run(p, Repeat(cmd, t)) == P.Run(p1, [P.Network(Serve(t, true))]) == P.Run(P.Step(p1, P.Network(Serve(t, true))), []);
    assert p1.client.net.requests[t] == Request(p.client.nextKey, OnTheWay);
  }

  lemma TwoEffects(c: Client, cmd: Command, j: Key, k: Key)
    requires j != k && j in c.net.applied && k in c.net.applied && cmd.kept
    requires j in c.owner && k in c.owner && c.owner[j] == cmd && c.owner[k] == cmd
    ensures !P.OncePerIntent(c, cmd)
  {
    var two := {j, k};
    assert two <= Effects(c, cmd);
    var rest := Effects(c, cmd) - two;
    assert Effects(c, cmd) == two + rest && |Effects(c, cmd)| == |two| + |rest|;
  }

  lemma ServeFirst(p: P.Page, ticket: nat, rest: seq<P.Event>)
    requires Pending(p.client.net, ticket) && p.client.net.requests[ticket].key !in p.client.net.applied
    ensures var q := P.Step(p, P.Network(Serve(ticket, true)));
      && P.Run(p, [P.Network(Serve(ticket, true))] + rest) == P.Run(q, rest)
      && q.client.net.applied == p.client.net.applied + [p.client.net.requests[ticket].key]
      && q.(client := q.client.(net := p.client.net)) == p && |q.client.net.requests| == |p.client.net.requests|
  {
    assert ([P.Network(Serve(ticket, true))] + rest)[1..] == rest;
  }

  /** One effect nobody is told of is one too many. */
  lemma OneEffectTooMany(c: Client, c': Client, cmd: Command, key: Key)
    requires P.OncePerIntent(c, cmd) && !cmd.kept && OpenEffect(c, cmd) == {} && key !in c.net.applied
    requires key in c.owner && c.owner[key] == cmd && c'.owner == c.owner && c'.reported == c.reported && c'.attempts == map[]
    requires c'.net.applied == c.net.applied + [key]
    ensures !P.OncePerIntent(c', cmd)
  {
    assert Effects(c', cmd) == Effects(c, cmd) + {key} && key !in Effects(c, cmd);
    assert OpenEffect(c', cmd) == {};
  }

  /** A key left behind whose success was reported: it was kept, and its command is sent again under another. */
  lemma ReportedKeyBreaks(events: seq<P.Event>, cmd: Command) returns (more: seq<P.Event>)
    requires P.CarefulRemounts(P.MOUNTED, events, cmd)
    requires var p := P.Run(P.MOUNTED, events); !p.alive && cmd in p.client.attempts && p.client.attempts[cmd] in p.client.reported
    ensures Breaks(events, cmd, more)
  {
    P.RunKeepsInv(P.MOUNTED, events, cmd);
    var p := P.Run(P.MOUNTED, events);
    var c, key := p.client, p.client.attempts[cmd];
    assert KeyAccounted(c, key) && Open(c, key);
    var q := P.Step(p, P.Remount);
    more := Repeat(cmd, |c.net.requests|);
    P.OneMountIsCareful(q, more, cmd);
    FreshIsUnused(c, cmd);
    RepeatTakesEffect(q, cmd);
    TwoEffects(Again(events, more), cmd, key, c.nextKey);
  }

  lemma FreshIsUnused(c: Client, cmd: Command)
    requires Inv(c, cmd)
    ensures c.nextKey !in c.net.applied && c.nextKey !in c.owner
  {
    AppliedIsUsed(c.net);
  }

  /** A key left behind that was not reported: it may still take effect, unseen. */
  lemma OpenKeyBreaks(events: seq<P.Event>, cmd: Command) returns (other: seq<P.Event>, more: seq<P.Event>)
    requires P.CarefulRemounts(P.MOUNTED, events, cmd)
    requires var p := P.Run(P.MOUNTED, events); !p.alive && cmd in p.client.attempts && p.client.attempts[cmd] !in p.client.reported
    ensures LooksAlike(events, other) && Breaks(other, cmd, more)
  {
    hide P.Step, Inv, P.OncePerIntent, Held;
    var p := P.Run(P.MOUNTED, events);
    var key := p.client.attempts[cmd];
    HeldAtStart(key);
    other := Quiet(P.MOUNTED, events, key);
    HeldThroughRun(P.MOUNTED, P.MOUNTED, events, key);
    SeenAlike(P.MOUNTED, events, P.MOUNTED, other, cmd);
    P.RunKeepsInv(P.MOUNTED, other, cmd);
    HeldKeyIsOpen(p, P.Run(P.MOUNTED, other), key);
    more := HeldKeyBreaks(P.Run(P.MOUNTED, other), cmd);
  }

  lemma HeldAtStart(key: Key)
    ensures HeldPage(P.MOUNTED, P.MOUNTED, key)
    ensures forall cmd :: P.PageInv(P.MOUNTED, cmd)
  {
  }

  lemma HeldKeyIsOpen(p: P.Page, q: P.Page, key: Key)
    requires HeldPage(p, q, key)
    ensures q.alive == p.alive && q.client.attempts == p.client.attempts && key !in q.client.net.applied
    ensures forall t | 0 <= t < |q.client.net.requests| && q.client.net.requests[t].key == key :: q.client.net.requests[t].phase == OnTheWay
  {
  }

  lemma HeldKeyBreaks(q: P.Page, cmd: Command) returns (more: seq<P.Event>)
    requires P.PageInv(q, cmd) && !q.alive && cmd in q.client.attempts && q.client.attempts[cmd] !in q.client.net.applied
    requires forall t | 0 <= t < |q.client.net.requests| && q.client.net.requests[t].key == q.client.attempts[cmd] ::
      q.client.net.requests[t].phase == OnTheWay
    ensures P.CarefulRemounts(P.Step(q, P.Remount), more, cmd)
    ensures !P.OncePerIntent(P.Run(P.Step(q, P.Remount), more).client, cmd)
  {
    var c, key := q.client, q.client.attempts[cmd];
    assert key in c.owner && c.owner[key] == cmd && Used(c.net, key);
    var t: nat :| t < |c.net.requests| && c.net.requests[t].key == key;
    var q1 := P.Step(q, P.Remount);
    var rest := if cmd.kept then Repeat(cmd, |c.net.requests|) else [];
    more := [P.Network(Serve(t, true))] + rest;
    P.OneMountIsCareful(q1, more, cmd);
    ServeFirst(q1, t, rest);
    var q2 := P.Step(q1, P.Network(Serve(t, true)));
    FreshIsUnused(c, cmd);
    P.InvMeansOnce(c, cmd);
    if cmd.kept {
      RepeatTakesEffect(q2, cmd);
      TwoEffects(P.Run(q2, rest).client, cmd, key, c.nextKey);
    } else {
      OneEffectTooMany(c, q2.client, cmd, key);
    }
  }

  /** What the page knows decides it: a command takes effect once per intent on a new mount, in every run the
      page cannot tell from its own and whatever follows, if and only if the page that is gone held no key of it:
      nothing pending, and for a command whose key is kept nothing sent. */
  lemma RemountIsSafeIffNothingHeld(events: seq<P.Event>, cmd: Command)
    requires P.CarefulRemounts(P.MOUNTED, events, cmd) && !P.Run(P.MOUNTED, events).alive
    ensures cmd !in P.Run(P.MOUNTED, events).client.attempts
      <==> forall other, more | LooksAlike(events, other) :: !Breaks(other, cmd, more)
  {
    var p := P.Run(P.MOUNTED, events);
    if cmd !in p.client.attempts {
      forall other, more | LooksAlike(events, other) ensures !Breaks(other, cmd, more) {
        NothingHeldIsSafe(events, other, cmd, more);
      }
    } else if p.client.attempts[cmd] in p.client.reported {
      var more := ReportedKeyBreaks(events, cmd);
      assert LooksAlike(events, events) && Breaks(events, cmd, more);
    } else {
      var other, more := OpenKeyBreaks(events, cmd);
      assert Breaks(other, cmd, more);
    }
  }

  lemma NothingHeldIsSafe(events: seq<P.Event>, other: seq<P.Event>, cmd: Command, more: seq<P.Event>)
    requires P.CarefulRemounts(P.MOUNTED, events, cmd) && LooksAlike(events, other)
    requires var p := P.Run(P.MOUNTED, events); !p.alive && cmd !in p.client.attempts
    ensures !Breaks(other, cmd, more)
  {
    var p, q := P.Run(P.MOUNTED, events), P.Run(P.MOUNTED, other);
    SeenAlike(P.MOUNTED, events, P.MOUNTED, other, cmd);
    AttemptsAlike(p, q);
    P.RunKeepsInv(P.MOUNTED, other, cmd);
    P.StepKeepsInv(q, P.Remount, cmd);
    var q1 := P.Step(q, P.Remount);
    if P.CarefulRemounts(q1, more, cmd) {
      P.RunKeepsInv(q1, more, cmd);
      P.InvMeansOnce(P.Run(q1, more).client, cmd);
    }
  }
}

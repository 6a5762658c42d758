/** The expense page's two commands: creating a claim, whose key is forgotten on success, and
    submitting a claim version, whose key is kept. A busy flag lets one command out at a time. */
module ExpensePage {
  import opened Delivery
  import opened AttemptKeys

  datatype Page = Page(client: Client, busy: bool, alive: bool)

  datatype Event = Click(cmd: Command) | Resolve(ticket: nat) | Reject(ticket: nat) | Unmount | Remount | Network(e: Delivery.Event)

  function Start(p: Page, cmd: Command): Page {
    if !p.alive || p.busy then p else Page(Begin(p.client, cmd), true, true)
  }

  /** An unmounted page's continuation returns before it touches anything. */
  function Finish(p: Page, ticket: nat): Page
    requires ticket in p.client.awaiting && Answered(p.client.net, ticket, Done)
  {
    if p.alive then Page(Succeed(p.client, ticket), false, true) else p
  }

  function GiveUp(p: Page, ticket: nat): Page
    requires ticket in p.client.awaiting
  {
    if p.alive then Page(Fail(p.client, ticket), false, true) else p
  }

  function MountAgain(p: Page): Page {
    if p.alive then p else Page(Forget(p.client), false, true)
  }

  function Step(p: Page, e: Event): Page {
    match e
    case Click(cmd) => Start(p, cmd)
    case Resolve(t) => if t in p.client.awaiting && Answered(p.client.net, t, Done) then Finish(p, t) else p
    case Reject(t) => if t in p.client.awaiting then GiveUp(p, t) else p
    case Unmount => p.(alive := false)
    case Remount => MountAgain(p)
    case Network(e) => p.(client := p.client.(net := Delivery.Step(p.client.net, e)))
  }

  function Run(p: Page, events: seq<Event>): Page
    decreases events
  {
    if events == [] then p else Run(Step(p, events[0]), events[1..])
  }

  const MOUNTED := Page(FRESH, false, true)

  /** The busy flag is up exactly while the one command is out, so sends never overlap. */
  ghost predicate PageInv(p: Page, cmd: Command) {
    && Inv(p.client, cmd)
    && (forall t, u | t in p.client.awaiting && u in p.client.awaiting :: t == u)
    && (p.alive ==> (p.busy <==> exists t :: t in p.client.awaiting))
  }

  /** Each mount after the first begins with no key of the command left behind. */
  ghost predicate CarefulRemounts(p: Page, events: seq<Event>, cmd: Command)
    decreases events
  {
    events == []
    || ((events[0].Remount? && !p.alive ==> cmd !in p.client.attempts) && CarefulRemounts(Step(p, events[0]), events[1..], cmd))
  }

  lemma StartKeepsInv(p: Page, x: Command, cmd: Command)
    requires PageInv(p, cmd)
    ensures PageInv(Start(p, x), cmd)
  {
    if p.alive && !p.busy {
      BeginKeepsInv(p.client, x, cmd);
      hide Inv;
      assert |p.client.net.requests| in Start(p, x).client.awaiting;
    }
  }

  lemma FinishKeepsInv(p: Page, ticket: nat, cmd: Command)
    requires PageInv(p, cmd) && ticket in p.client.awaiting
    ensures PageInv(GiveUp(p, ticket), cmd)
    ensures Answered(p.client.net, ticket, Done) ==> PageInv(Finish(p, ticket), cmd)
  {
    FailKeepsInv(p.client, ticket, cmd);
    if Answered(p.client.net, ticket, Done) {
      SucceedKeepsInv(p.client, ticket, cmd);
    }
    hide Inv;
  }

  lemma StepKeepsInv(p: Page, e: Event, cmd: Command)
    requires PageInv(p, cmd) && (e.Remount? && !p.alive ==> cmd !in p.client.attempts)
    ensures PageInv(Step(p, e), cmd)
  {
    match e
    case Click(x) => StartKeepsInv(p, x, cmd);
    case Resolve(t) => if t in p.client.awaiting { FinishKeepsInv(p, t, cmd); }
    case Reject(t) => if t in p.client.awaiting { FinishKeepsInv(p, t, cmd); }
    case Unmount =>
    case Remount => if !p.alive { ForgetKeepsInv(p.client, cmd); }
    case Network(e) =>
      NetworkKeepsInv(p.client, e, cmd);
      hide Inv;
  }

  lemma {:induction false} RunKeepsInv(p: Page, events: seq<Event>, cmd: Command)
    requires PageInv(p, cmd) && CarefulRemounts(p, events, cmd)
    ensures PageInv(Run(p, events), cmd)
    decreases events
  {
    if events != [] {
      StepKeepsInv(p, events[0], cmd);
      RunKeepsInv(Step(p, events[0]), events[1..], cmd);
    }
  }

  /** A claim is created exactly as often as its creation was reported, or once more for an attempt still
      open; a claim version is submitted at most once, and was when that was reported. */
  ghost predicate OncePerIntent(c: Client, cmd: Command) {
    if cmd.kept then |Effects(c, cmd)| <= 1 && (Successes(c.reported, c.owner, cmd) > 0 ==> |Effects(c, cmd)| == 1)
    else CountHolds(c, cmd) && |OpenEffect(c, cmd)| <= 1
  }

  lemma InvMeansOnce(c: Client, cmd: Command)
    requires Inv(c, cmd)
    ensures OncePerIntent(c, cmd)
  {
    if cmd.kept {
      KeptCommandOnce(c, cmd);
    } else {
      EffectsMatchReports(c, cmd);
    }
  }

  /** Over every run, with any clicks, retries, losses and delays, and any number of mounts: each command takes
      effect once per intent, if no mount left a key of the command behind. */
  lemma ClaimsExactlyOnce(events: seq<Event>, cmd: Command)
    requires CarefulRemounts(MOUNTED, events, cmd)
    ensures OncePerIntent(Run(MOUNTED, events).client, cmd)
  {
    RunKeepsInv(MOUNTED, events, cmd);
    InvMeansOnce(Run(MOUNTED, events).client, cmd);
  }

  /** Of one mount nothing is asked. */
  lemma {:induction false} OneMountIsCareful(p: Page, events: seq<Event>, cmd: Command)
    requires forall e | e in events :: !e.Remount?
    ensures CarefulRemounts(p, events, cmd)
    decreases events
  {
    if events != [] {
      OneMountIsCareful(Step(p, events[0]), events[1..], cmd);
    }
  }

  // ---- The code ----

  class ExpenseJourney {
    var attempts: map<Command, Key>
    var busy: bool
    var alive: bool

    constructor ()
      ensures attempts == map[] && !busy && alive
    {
      attempts, busy, alive := map[], false, true;
    }

    /** The page agrees with the model's page. */
    ghost predicate Shows(p: Page)
      reads this
    {
      attempts == p.client.attempts && busy == p.busy && alive == p.alive
    }

    /** Up to the await. `sent` says whether a request went out, with the key it carries. */
    method Begin(cmd: Command, freshKey: Key) returns (sent: bool, key: Key)
      modifies this
      ensures forall p: Page | old(Shows(p)) && p.client.nextKey == freshKey ::
        && Shows(Start(p, cmd))
        && (sent <==> Start(p, cmd) != p)
        && (sent ==> key == KeyFor(p.client, cmd))
    {
      if !alive || busy {
        return false, freshKey;
      }
      busy := true;
      key := if cmd in attempts then attempts[cmd] else freshKey;
      attempts := attempts[cmd := key];
      sent := true;
    }

    /** After the await, when the request succeeded. */
    method Succeeded(cmd: Command)
      modifies this
      ensures forall p: Page, t | old(Shows(p)) && t in p.client.awaiting && p.client.awaiting[t] == cmd && Answered(p.client.net, t, Done) ::
        Shows(Finish(p, t))
    {
      if !alive {
        return;
      }
      if !cmd.kept {
        attempts := attempts - {cmd};
      }
      busy := false;
    }

    /** A mount begins with empty refs. */
    method Mount()
      modifies this
      ensures forall p: Page | old(Shows(p)) :: Shows(MountAgain(p))
    {
      if alive {
        return;
      }
      attempts, busy, alive := map[], false, true;
    }

    method Failed()
      modifies this
      ensures forall p: Page, t | old(Shows(p)) && t in p.client.awaiting :: Shows(GiveUp(p, t))
    {
      if alive {
        busy := false;
      }
    }
  }
}

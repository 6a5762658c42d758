/** The payroll page's write commands: one at a time, and an uncertain outcome keeps the exact
    command, key included, for an explicit retry. */
module PayrollCommands {
  import opened Common
  import opened Delivery

  datatype Command = Command(text: string, key: Key)

  /** Why a request threw: not an API answer at all, or an answer with status, code and reason. */
  datatype Cause = Transport | Api(status: int, code: string, reason: string)

  predicate Mentions(text: string, part: string) {
    |part| <= |text| && (text[..|part|] == part || (text != "" && Mentions(text[1..], part)))
  }

  predicate IsAt(part: string, text: string, i: nat) {
    i + |part| <= |text| && text[i..i + |part|] == part
  }

  /** The text occurs in the other, at some place. */
  predicate OccursIn(part: string, text: string) {
    exists i | 0 <= i <= |text| :: IsAt(part, text, i)
  }

  /** What can be thrown whatever became of the request: no answer of the API at all, an answer of another class
      than 4xx, one about timing (request timeout 408, too early 425, too many requests 429), and one that says
      that the request, or an earlier one, is still in progress. Every other answer of the class 4xx comes only
      from a server that refused the request. */
  predicate Inconclusive(cause: Cause) {
    || cause.Transport? || cause.status < 400 || cause.status > 499
    || cause.status == 408 || cause.status == 425 || cause.status == 429
    || OccursIn("IN_PROGRESS", cause.code) || OccursIn("IN_PROGRESS", cause.reason)
  }

  lemma OneFurther(part: string, text: string, i: nat)
    requires 0 < i <= |text|
    ensures IsAt(part, text, i) <==> IsAt(part, text[1..], i - 1)
  {
    if i + |part| <= |text| {
      assert text[i..i + |part|] == text[1..][i - 1..i - 1 + |part|];
    }
  }

  lemma {:induction false} MentionsIffOccurs(text: string, part: string)
    ensures Mentions(text, part) <==> OccursIn(part, text)
  {
    assert IsAt(part, text, 0) <==> |part| <= |text| && text[..|part|] == part;
    if text != "" {
      var rest := text[1..];
      MentionsIffOccurs(rest, part);
      forall i | 0 < i <= |text| ensures IsAt(part, text, i) <==> IsAt(part, rest, i - 1) {
        OneFurther(part, text, i);
      }
      assert forall i | 0 <= i <= |rest| && IsAt(part, rest, i) :: IsAt(part, text, i + 1);
    }
  }

  lemma CharacterAt(part: string, text: string, i: nat, k: nat)
    requires IsAt(part, text, i) && i <= k < i + |part|
    ensures part[k - i] == text[k]
  {
    assert text[i..i + |part|][k - i] == text[k];
  }

  /** A text without spaces that occurs in two texts with a space between occurs in one of them. */
  lemma OccursInOne(part: string, first: string, second: string)
    requires forall k | 0 <= k < |part| :: part[k] != ' '
    ensures OccursIn(part, first + " " + second) <==> OccursIn(part, first) || OccursIn(part, second)
  {
    var both, n := first + " " + second, |first| + 1;
    assert both[|first|] == ' ';
    forall i: nat | IsAt(part, both, i) ensures OccursIn(part, first) || OccursIn(part, second) {
      if i + |part| <= |first| {
        assert first[i..i + |part|] == part;
        assert IsAt(part, first, i);
      } else if i <= |first| {
        CharacterAt(part, both, i, |first|);
        assert false;
      } else {
        assert second[i - n..i - n + |part|] == part;
        assert IsAt(part, second, i - n);
      }
    }
    forall i: nat | IsAt(part, first, i) ensures IsAt(part, both, i) {
      assert both[i..i + |part|] == first[i..i + |part|];
    }
    forall i: nat | IsAt(part, second, i) ensures IsAt(part, both, n + i) {
      assert both[n + i..n + i + |part|] == second[i..i + |part|];
    }
  }

  lemma InProgressIsMentionedIff(code: string, reason: string)
    ensures Mentions(code + " " + reason, "IN_PROGRESS") <==> OccursIn("IN_PROGRESS", code) || OccursIn("IN_PROGRESS", reason)
  {
    MentionsIffOccurs(code + " " + reason, "IN_PROGRESS");
    OccursInOne("IN_PROGRESS", code, reason);
  }

  /** The page's test tells a refusal exactly from what is inconclusive. */
  function Definite(cause: Cause): (definite: bool)
    ensures definite <==> !Inconclusive(cause)
  {
    if cause.Transport? then false
    else
      InProgressIsMentionedIff(cause.code, cause.reason);
      400 <= cause.status < 500 && cause.status !in {408, 425, 429} && !Mentions(cause.code + " " + cause.reason, "IN_PROGRESS")
  }

  datatype Page = Page(
    pending: Option<Command>,
    busy: bool,
    alive: bool,
    waiting: Option<nat>,
    nextKey: Key,
    net: Net,
    reported: seq<Key>,
    refused: seq<Key>,
    abandoned: seq<Key>)

  const MOUNTED := Page(None, false, true, None, 0, QUIET, [], [], [])

  function Execute(p: Page, cmd: Command): Page {
    if !p.alive || p.busy then p
    else p.(busy := true, pending := Some(cmd), waiting := Some(|p.net.requests|), net := Send(p.net, cmd.key))
  }

  function Submit(p: Page, text: string): Page {
    if p.pending.Some? || p.busy then p
    else Execute(p, Command(text, p.nextKey)).(nextKey := p.nextKey + 1)
  }

  function Succeed(p: Page): Page
    requires p.waiting.Some? && Answered(p.net, p.waiting.value, Done)
  {
    if !p.alive then p
    else p.(pending := None, busy := false, waiting := None, reported := p.reported + [p.net.requests[p.waiting.value].key])
  }

  function Fail(p: Page, cause: Cause): Page
    requires p.waiting.Some? && p.waiting.value < |p.net.requests|
  {
    if !p.alive then p
    else if Definite(cause)
    then p.(pending := None, busy := false, waiting := None, refused := p.refused + [p.net.requests[p.waiting.value].key])
    else p.(busy := false, waiting := None)
  }

  /** Leaving drops a pending command, whatever becomes of it; a new mount knows nothing of the old one. */
  function Leave(p: Page): Page {
    p.(alive := false, pending := None, abandoned := if p.pending.Some? then p.abandoned + [p.pending.value.key] else p.abandoned)
  }

  function MountAgain(p: Page): Page {
    if p.alive then p else p.(alive := true, busy := false, pending := None, waiting := None)
  }

  datatype Event = Click(text: string) | Retry | Resolve | Reject(cause: Cause) | Unmount | Remount | Network(e: Delivery.Event)

  /** A request is resolved only if the server did it, and throws an error that is not inconclusive only if the
      server refused it; anything inconclusive can be thrown whatever became of the request. */
  function Step(p: Page, e: Event): Page {
    match e
    case Click(text) => Submit(p, text)
    case Retry => if p.pending.Some? then Execute(p, p.pending.value) else p
    case Resolve => if p.waiting.Some? && Answered(p.net, p.waiting.value, Done) then Succeed(p) else p
    case Reject(cause) =>
      if p.waiting.Some? && p.waiting.value < |p.net.requests|
         && (Inconclusive(cause) || Answered(p.net, p.waiting.value, Refused)) then Fail(p, cause) else p
    case Unmount => Leave(p)
    case Remount => MountAgain(p)
    case Network(e) => p.(net := Delivery.Step(p.net, e))
  }

  function Run(p: Page, events: seq<Event>): Page
    decreases events
  {
    if events == [] then p else Run(Step(p, events[0]), events[1..])
  }

  ghost predicate Inv(p: Page) {
    && Sound(p.net)
    && (forall k: Key | Used(p.net, k) :: k < p.nextKey)
    && (p.waiting.Some? ==> p.waiting.value < |p.net.requests|)
    && (p.pending.Some? ==> p.alive && Used(p.net, p.pending.value.key)
                            && p.pending.value.key !in p.reported && p.pending.value.key !in p.refused
                            && p.pending.value.key !in p.abandoned)
    && (p.alive ==> (p.busy <==> p.waiting.Some?)
                    && (p.busy ==> p.pending.Some? && p.pending.value.key == p.net.requests[p.waiting.value].key))
    && (forall k | k in p.reported :: k in p.net.applied)
    && (forall k | k in p.refused :: Used(p.net, k))
    && (forall k | k in p.abandoned :: Used(p.net, k) && k !in p.reported && k !in p.refused)
    && (forall i, j | 0 <= i < j < |p.reported| :: p.reported[i] != p.reported[j])
  }

  /** Whatever is neither pending, nor reported as done or refused, nor left behind by a mount, was never sent. */
  ghost predicate OneAtATime(p: Page) {
    forall k | Used(p.net, k) ::
      k in p.reported || k in p.refused || k in p.abandoned || (p.pending.Some? && p.pending.value.key == k)
  }

  /** A refused command was refused on the last of its requests; the page awaits the last request of all. */
  ghost predicate LastRefused(p: Page) {
    && (p.waiting.Some? ==> p.waiting.value == |p.net.requests| - 1)
    && (forall k | k in p.refused :: exists t: nat :: LastOf(p.net, k, t) && p.net.requests[t].phase == Refused)
  }

  ghost predicate LastOf(n: Net, key: Key, ticket: nat) {
    && ticket < |n.requests| && n.requests[ticket].key == key
    && forall t | ticket < t < |n.requests| :: n.requests[t].key != key
  }

  lemma ExecuteKeepsInv(p: Page, cmd: Command)
    requires Inv(p) && OneAtATime(p) && p.alive && !p.busy
    requires p.pending == Some(cmd) || (p.pending.None? && cmd.key == p.nextKey)
    ensures var p' := Execute(p, cmd).(nextKey := if p.pending.None? then p.nextKey + 1 else p.nextKey);
      Inv(p') && OneAtATime(p')
  {
    SendIsSound(p.net, cmd.key);
    AppliedIsUsed(p.net);
  }

  lemma StepKeepsInv(p: Page, e: Event)
    requires Inv(p) && OneAtATime(p)
    ensures Inv(Step(p, e)) && OneAtATime(Step(p, e))
  {
    match e
    case Click(text) => if p.pending.None? && !p.busy && p.alive { ExecuteKeepsInv(p, Command(text, p.nextKey)); }
    case Retry => if p.pending.Some? && !p.busy { ExecuteKeepsInv(p, p.pending.value); }
    case Resolve =>
    case Reject(cause) =>
    case Unmount =>
    case Remount =>
    case Network(e) => StepIsSound(p.net, e);
  }

  lemma {:induction false} RunKeepsInv(p: Page, events: seq<Event>)
    requires Inv(p) && OneAtATime(p)
    ensures Inv(Run(p, events)) && OneAtATime(Run(p, events))
    decreases events
  {
    if events != [] {
      StepKeepsInv(p, events[0]);
      RunKeepsInv(Step(p, events[0]), events[1..]);
    }
  }

  /** Whatever the step, a key that was refused before is not sent again, and its requests stay. */
  lemma RefusedStaysLast(p: Page, e: Event, key: Key, t: nat)
    requires Inv(p) && key in p.refused && LastOf(p.net, key, t) && p.net.requests[t].phase == Refused
    ensures LastOf(Step(p, e).net, key, t) && Step(p, e).net.requests[t].phase == Refused
  {
    assert Used(p.net, key);
    hide Sound;
  }

  lemma StepKeepsWaiting(p: Page, e: Event)
    requires Inv(p) && LastRefused(p)
    ensures var p' := Step(p, e);
      && (p'.waiting.Some? ==> p'.waiting.value == |p'.net.requests| - 1)
      && forall k | k in p'.refused && k !in p.refused ::
           p.waiting.Some? && LastOf(p'.net, k, p.waiting.value) && p'.net.requests[p.waiting.value].phase == Refused
  {
    hide Sound;
  }

  lemma StepKeepsLastRefused(p: Page, e: Event)
    requires Inv(p) && LastRefused(p)
    ensures LastRefused(Step(p, e))
  {
    StepKeepsWaiting(p, e);
    hide Inv, Step, LastOf;
    var p' := Step(p, e);
    forall k | k in p'.refused ensures exists t: nat :: LastOf(p'.net, k, t) && p'.net.requests[t].phase == Refused {
      if k in p.refused {
        var t: nat :| LastOf(p.net, k, t) && p.net.requests[t].phase == Refused;
        RefusedStaysLast(p, e, k, t);
      }
    }
  }

  lemma {:induction false} RunKeepsLastRefused(p: Page, events: seq<Event>)
    requires Inv(p) && OneAtATime(p) && LastRefused(p)
    ensures LastRefused(Run(p, events))
    decreases events
  {
    if events != [] {
      StepKeepsInv(p, events[0]);
      StepKeepsLastRefused(p, events[0]);
      RunKeepsLastRefused(Step(p, events[0]), events[1..]);
    }
  }

  // ---- Main results ----

  /** Over every run of any number of mounts: no command takes effect twice, each reported success is of a
      different command that took effect, and a second command is sent only once the first was reported done
      or refused, or left behind by its mount. */
  lemma CommandsAtMostOnce(events: seq<Event>)
    ensures var p := Run(MOUNTED, events);
      && (forall i, j | 0 <= i < j < |p.net.applied| :: p.net.applied[i] != p.net.applied[j])
      && (forall i, j | 0 <= i < j < |p.reported| :: p.reported[i] != p.reported[j])
      && (forall k | k in p.reported :: k in p.net.applied)
      && OneAtATime(p)
  {
    RunKeepsInv(MOUNTED, events);
  }

  /** While an outcome is uncertain the only thing a click or retry can send is the same command. */
  lemma OnlyTheSameCommand(p: Page, e: Event)
    requires Inv(p) && p.pending.Some? && |Step(p, e).net.requests| > |p.net.requests|
    ensures Step(p, e).net.requests == p.net.requests + [Request(p.pending.value.key, OnTheWay)]
    ensures Step(p, e).pending == p.pending
  {
    match e
    case Click(text) =>
    case Retry =>
    case Resolve =>
    case Reject(cause) =>
    case Unmount =>
    case Remount =>
    case Network(e) => StepIsSound(p.net, e);
  }

  lemma StepKeepsDead(p: Page, key: Key, e: Event)
    requires Inv(p) && Dead(p.net, key) && key < p.nextKey && (p.pending.Some? ==> p.pending.value.key != key)
    ensures var p' := Step(p, e);
      Dead(p'.net, key) && key < p'.nextKey && (p'.pending.Some? ==> p'.pending.value.key != key)
  {
    SendIsSound(p.net, p.nextKey);
    if p.pending.Some? {
      SendIsSound(p.net, p.pending.value.key);
    }
    if e.Network? {
      StepIsSound(p.net, e.e);
    }
    hide Sound, Dead, Used, Later;
    assert e.Network? ==> Later(p.net, Delivery.Step(p.net, e.e));
  }

  lemma {:induction false} RefusedStaysDead(p: Page, key: Key, events: seq<Event>)
    requires Inv(p) && OneAtATime(p) && Dead(p.net, key) && key < p.nextKey
    requires p.pending.Some? ==> p.pending.value.key != key
    ensures Dead(Run(p, events).net, key)
    decreases events
  {
    hide Step, Inv, Dead;
    if events != [] {
      StepKeepsInv(p, events[0]);
      StepKeepsDead(p, key, events[0]);
      RefusedStaysDead(Step(p, events[0]), key, events[1..]);
    }
  }

  /** A command that was dropped, refused or left behind by its mount, never takes effect exactly when it has
      not and no request of it can still arrive. A command refused on a retry may have an earlier request
      under way, and then may still take effect: unlike the subscription page, this page drops it all the same. */
  lemma DroppedIsFinalIffNothingOnTheWay(p: Page, key: Key)
    requires Inv(p) && OneAtATime(p) && (key in p.refused || key in p.abandoned)
    ensures (forall events :: key !in Run(p, events).net.applied) <==> Dead(p.net, key)
  {
    if Dead(p.net, key) {
      forall events ensures key !in Run(p, events).net.applied { RefusedStaysDead(p, key, events); }
    } else {
      if key in p.net.applied {
        assert key in Run(p, []).net.applied;
      } else {
        var t :| 0 <= t < |p.net.requests| && p.net.requests[t].key == key && p.net.requests[t].phase == OnTheWay;
        var events := [Network(Serve(t, true))];
        assert events[1..] == [];
        assert Run(p, events) == Run(Step(p, events[0]), []) == Step(p, events[0]);
        assert key in Run(p, events).net.applied;
      }
    }
  }

  // ---- The code ----

  class PayrollWorkspace {
    var pending: Option<Command>
    var busy: bool
    var alive: bool

    ghost predicate Shows(p: Page)
      reads this
    {
      pending == p.pending && busy == p.busy && alive == p.alive
    }

    constructor ()
      ensures Shows(MOUNTED)
    {
      pending, busy, alive := None, false, true;
    }

    /** execute, up to its await; `sent` says whether the request went out. */
    method StartExecute(cmd: Command) returns (sent: bool)
      modifies this
      ensures sent <==> old(alive) && !old(busy)
      ensures forall p: Page | old(Shows(p)) :: Shows(Execute(p, cmd))
    {
      if !alive || busy {
        return false;
      }
      busy := true;
      pending := Some(cmd);
      sent := true;
    }

    method SendNew(text: string, freshKey: Key) returns (sent: bool)
      modifies this
      ensures sent <==> old(alive) && !old(busy) && old(pending).None?
      ensures forall p: Page | old(Shows(p)) && p.nextKey == freshKey :: Shows(Submit(p, text))
    {
      if pending.Some? || busy {
        return false;
      }
      sent := StartExecute(Command(text, freshKey));
    }

    method CleanUp()
      modifies this
      ensures forall p: Page | old(Shows(p)) :: Shows(Leave(p))
    {
      alive := false;
      pending := None;
    }

    method Mount()
      modifies this
      ensures forall p: Page | old(Shows(p)) :: Shows(MountAgain(p))
    {
      if !alive {
        alive, busy, pending := true, false, None;
      }
    }

    method Succeeded()
      modifies this
      ensures forall p: Page | old(Shows(p)) && p.waiting.Some? && Answered(p.net, p.waiting.value, Done) :: Shows(Succeed(p))
    {
      if !alive {
        return;
      }
      pending := None;
      busy := false;
    }

    method Failed(cause: Cause)
      modifies this
      ensures forall p: Page | old(Shows(p)) && p.waiting.Some? && p.waiting.value < |p.net.requests| :: Shows(Fail(p, cause))
    {
      if !alive {
        return;
      }
      if Definite(cause) {
        pending := None;
      }
      busy := false;
    }
  }
}

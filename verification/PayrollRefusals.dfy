/** A command the payroll page drops, as refused or by being left: when that is final, as far as the page can
    know. */
module PayrollRefusals {
  import opened Common
  import D = Delivery
  import opened PayrollCommands

  /** The events the page takes part in, without those of the network. */
  function Seen(events: seq<Event>): seq<Event> {
    if events == [] then []
    else if events[0].Network? then Seen(events[1..])
    else [events[0]] + Seen(events[1..])
  }

  /** The page stands alike, with the same keys sent in the same order, whatever became of them. */
  ghost predicate SamePage(p: Page, q: Page) {
    && q.(net := p.net) == p
    && |q.net.requests| == |p.net.requests|
    && forall t | 0 <= t < |p.net.requests| :: q.net.requests[t].key == p.net.requests[t].key
  }

  /** Two runs the page cannot tell apart. */
  ghost predicate LooksAlike(events: seq<Event>, other: seq<Event>) {
    Seen(other) == Seen(events) && SamePage(Run(MOUNTED, events), Run(MOUNTED, other))
  }

  /** The command was never retried. */
  ghost predicate SentOnce(p: Page, key: D.Key) {
    forall t, u | 0 <= t < u < |p.net.requests| && p.net.requests[t].key == key :: p.net.requests[u].key != key
  }

  /** The run in which no request of `key` but the one with the ticket `last` ever arrives. */
  function Quiet(p: Page, events: seq<Event>, key: D.Key, last: nat): seq<Event>
    decreases events
  {
    if events == [] then []
    else
      var rest := Quiet(Step(p, events[0]), events[1..], key, last);
      if Silent(p, events[0], key, last) then rest else [events[0]] + rest
  }

  predicate Silent(p: Page, e: Event, key: D.Key, last: nat) {
    e.Network? && e.e.ticket != last && e.e.ticket < |p.net.requests| && p.net.requests[e.e.ticket].key == key
  }

  lemma {:induction false} QuietLooksTheSame(p: Page, events: seq<Event>, key: D.Key, last: nat)
    ensures Seen(Quiet(p, events, key, last)) == Seen(events)
    decreases events
  {
    if events != [] {
      QuietLooksTheSame(Step(p, events[0]), events[1..], key, last);
      var rest := Quiet(Step(p, events[0]), events[1..], key, last);
      assert ([events[0]] + rest)[1..] == rest;
    }
  }

  /** `q` is `p` with every request of `key` but `last` still on the way, and no effect of `key`. */
  ghost predicate Held(p: Page, q: Page, key: D.Key, last: nat) {
    && SamePage(p, q) && key !in q.net.applied
    && (forall k | k != key :: k in p.net.applied <==> k in q.net.applied)
    && forall t | 0 <= t < |p.net.requests| ::
         if p.net.requests[t].key != key || t == last then q.net.requests[t] == p.net.requests[t]
         else q.net.requests[t].phase == D.OnTheWay
  }

  /** The run ends with `key` refused on the last of its requests. */
  ghost predicate EndsRefused(p: Page, events: seq<Event>, key: D.Key, last: nat) {
    var n := Run(p, events).net; LastOf(n, key, last) && n.requests[last].phase == D.Refused
  }

  /** Served or lost, a request stays as it is; and what was sent keeps its key. */
  lemma {:induction false} PhasesStay(p: Page, events: seq<Event>, t: nat)
    requires t < |p.net.requests|
    ensures var n := Run(p, events).net;
      && |n.requests| >= |p.net.requests| && n.requests[t].key == p.net.requests[t].key
      && (p.net.requests[t].phase != D.OnTheWay ==> n.requests[t] == p.net.requests[t])
    decreases events
  {
    if events != [] {
      PhasesStay(Step(p, events[0]), events[1..], t);
    }
  }

  /** A key that has taken effect is never refused any more. */
  lemma {:induction false} AppliedIsNotRefused(p: Page, events: seq<Event>, key: D.Key, last: nat)
    requires key in p.net.applied && !(last < |p.net.requests| && p.net.requests[last] == D.Request(key, D.Refused))
    ensures !EndsRefused(p, events, key, last)
    decreases events
  {
    if events != [] {
      AppliedIsNotRefused(Step(p, events[0]), events[1..], key, last);
    }
  }

  /** A command that is over is never sent again. */
  lemma {:induction false} NotSentAgain(p: Page, events: seq<Event>, key: D.Key, t: nat)
    requires key < p.nextKey && (p.pending.Some? ==> p.pending.value.key != key)
    requires |p.net.requests| <= t < |Run(p, events).net.requests|
    ensures Run(p, events).net.requests[t].key != key
    decreases events
  {
    if events != [] {
      var p' := Step(p, events[0]);
      if t < |p'.net.requests| {
        assert p'.net.requests[t].key != key;
        PhasesStay(p', events[1..], t);
      } else {
        NotSentAgain(p', events[1..], key, t);
      }
    }
  }

  /** If the awaited request is an earlier one of `key`, the last is not yet sent, so the command goes on. */
  lemma EarlierIsNotSettled(p: Page, events: seq<Event>, key: D.Key, last: nat)
    requires Inv(p) && LastRefused(p) && EndsRefused(p, events, key, last)
    requires events != [] && p.waiting.Some? && p.waiting.value != last && p.net.requests[p.waiting.value].key == key
    ensures p.net.requests[p.waiting.value].phase != D.Done
    ensures events[0].Reject? && Definite(events[0].cause) ==> p.net.requests[p.waiting.value].phase != D.Refused
  {
    var w, p' := p.waiting.value, Step(p, events[0]);
    assert D.Used(p.net, key);
    PhasesStay(p, events, w);
    assert last >= |p.net.requests|;
    if p.net.requests[w].phase == D.Done {
      AppliedIsNotRefused(p, events, key, last);
    }
    if events[0].Reject? && Definite(events[0].cause) && p.net.requests[w].phase == D.Refused {
      NotSentAgain(p', events[1..], key, last);
    }
  }

  lemma AwaitsASentRequest(p: Page)
    requires Inv(p)
    ensures p.waiting.Some? ==> p.waiting.value < |p.net.requests|
  {
  }

  lemma HeldThroughPage(p: Page, q: Page, events: seq<Event>, key: D.Key, last: nat)
    requires Inv(p) && LastRefused(p) && Held(p, q, key, last) && EndsRefused(p, events, key, last)
    requires events != [] && !events[0].Network?
    ensures Held(Step(p, events[0]), Step(q, events[0]), key, last)
  {
    hide Inv, LastRefused, EndsRefused;
    if events[0].Resolve? || events[0].Reject? {
      AwaitsASentRequest(p);
      if p.waiting.Some? && p.waiting.value != last && p.net.requests[p.waiting.value].key == key {
        EarlierIsNotSettled(p, events, key, last);
      }
    }
  }

  lemma HeldThroughNetwork(p: Page, q: Page, events: seq<Event>, key: D.Key, last: nat)
    requires Held(p, q, key, last) && EndsRefused(p, events, key, last)
    requires events != [] && events[0].Network?
    ensures Held(Step(p, events[0]), if Silent(p, events[0], key, last) then q else Step(q, events[0]), key, last)
  {
    if last < |p.net.requests| {
      PhasesStay(p, events, last);
      PhasesStay(Step(p, events[0]), events[1..], last);
    }
  }

  lemma {:induction false} HeldThroughRun(p: Page, q: Page, events: seq<Event>, key: D.Key, last: nat)
    requires Inv(p) && OneAtATime(p) && LastRefused(p)
    requires Held(p, q, key, last) && EndsRefused(p, events, key, last)
    ensures Held(Run(p, events), Run(q, Quiet(p, events, key, last)), key, last)
    decreases events
  {
    if events != [] {
      var e, p' := events[0], Step(p, events[0]);
      var q' := if Silent(p, e, key, last) then q else Step(q, e);
      if e.Network? {
        HeldThroughNetwork(p, q, events, key, last);
      } else {
        HeldThroughPage(p, q, events, key, last);
      }
      StepKeepsInv(p, e);
      StepKeepsLastRefused(p, e);
      HeldThroughRun(p', q', events[1..], key, last);
      var rest := Quiet(p', events[1..], key, last);
      assert ([e] + rest)[1..] == rest;
    }
  }

  lemma {:induction false} RunConcat(p: Page, events: seq<Event>, more: seq<Event>)
    ensures Run(p, events + more) == Run(Run(p, events), more)
    decreases events
  {
    if events == [] {
      assert events + more == more;
    } else {
      assert (events + more)[1..] == events[1..] + more;
      RunConcat(Step(p, events[0]), events[1..], more);
    }
  }

  lemma RunAppend(p: Page, events: seq<Event>, e: Event)
    ensures Run(p, events + [e]) == Step(Run(p, events), e)
  {
    RunConcat(p, events, [e]);
    assert [e][1..] == [];
  }

  /** A retried command that was refused: in a run the page cannot tell from its own, the first request
      is still on the way, and it takes effect as soon as the server takes it up. */
  lemma RetriedRefusal(events: seq<Event>, key: D.Key) returns (other: seq<Event>, late: nat)
    requires key in Run(MOUNTED, events).refused && !SentOnce(Run(MOUNTED, events), key)
    ensures LooksAlike(events, other)
    ensures var q := Run(MOUNTED, other + [Network(D.Serve(late, true))]); key in q.refused && key in q.net.applied
  {
    hide Run, Quiet, Held, Step;
    var p := Run(MOUNTED, events);
    HeldAtStart(key, 0);
    RunKeepsLastRefused(MOUNTED, events);
    var last: nat :| LastOf(p.net, key, last) && p.net.requests[last].phase == D.Refused;
    other := Quiet(MOUNTED, events, key, last);
    QuietLooksTheSame(MOUNTED, events, key, last);
    HeldAtStart(key, last);
    HeldThroughRun(MOUNTED, MOUNTED, events, key, last);
    HeldLooksTheSame(p, Run(MOUNTED, other), key, last);
    late := EarlierRequest(p, key, last);
    RunAppend(MOUNTED, other, Network(D.Serve(late, true)));
    ServedLate(p, Run(MOUNTED, other), key, last, late);
  }

  lemma HeldAtStart(key: D.Key, last: nat)
    ensures Held(MOUNTED, MOUNTED, key, last) && Inv(MOUNTED) && OneAtATime(MOUNTED) && LastRefused(MOUNTED)
  {
  }

  lemma HeldLooksTheSame(p: Page, q: Page, key: D.Key, last: nat)
    requires Held(p, q, key, last)
    ensures SamePage(p, q)
  {
  }

  lemma EarlierRequest(p: Page, key: D.Key, last: nat) returns (late: nat)
    requires !SentOnce(p, key) && LastOf(p.net, key, last)
    ensures late < |p.net.requests| && late != last && p.net.requests[late].key == key
  {
    var t, u :| 0 <= t < u < |p.net.requests| && p.net.requests[t].key == key && p.net.requests[u].key == key;
    late := t;
  }

  lemma ServedLate(p: Page, q: Page, key: D.Key, last: nat, late: nat)
    requires Held(p, q, key, last) && late < |p.net.requests| && late != last && p.net.requests[late].key == key
    ensures Step(q, Network(D.Serve(late, true))).refused == p.refused
    ensures Step(q, Network(D.Serve(late, true))).abandoned == p.abandoned
    ensures key in Step(q, Network(D.Serve(late, true))).net.applied
  {
  }

  /** What the page knows decides it: a refusal is final in every run the page cannot tell from its own,
      whatever comes after, if and only if the command was sent once. A page that retried a command and
      then drops it as refused cannot know that it will have no effect. */
  lemma RefusalIsFinalIffSentOnce(events: seq<Event>, key: D.Key)
    requires key in Run(MOUNTED, events).refused
    ensures SentOnce(Run(MOUNTED, events), key)
      <==> forall other, more | LooksAlike(events, other) :: key !in Run(MOUNTED, other + more).net.applied
  {
    if SentOnce(Run(MOUNTED, events), key) {
      forall other, more | LooksAlike(events, other) ensures key !in Run(MOUNTED, other + more).net.applied {
        OnlyRequestRefusedIsFinal(other, more, key);
      }
    } else {
      var other, late := RetriedRefusal(events, key);
      assert key in Run(MOUNTED, other + [Network(D.Serve(late, true))]).net.applied;
    }
  }

  /** A command refused on its only request is never carried out. */
  lemma OnlyRequestRefusedIsFinal(events: seq<Event>, more: seq<Event>, key: D.Key)
    requires var p := Run(MOUNTED, events); key in p.refused && SentOnce(p, key)
    ensures key !in Run(MOUNTED, events + more).net.applied
  {
    var p := Run(MOUNTED, events);
    RunKeepsInv(MOUNTED, events);
    RunKeepsLastRefused(MOUNTED, events);
    var last: nat :| LastOf(p.net, key, last) && p.net.requests[last].phase == D.Refused;
    assert forall t | 0 <= t < |p.net.requests| && p.net.requests[t].key == key :: t == last;
    assert key in p.net.applied ==> D.ServedAsDone(p.net, key);
    DroppedIsFinalIffNothingOnTheWay(p, key);
    RunConcat(MOUNTED, events, more);
  }

  const CONFLICT := Api(409, "VERSION_CONFLICT", "")

  lemma ConflictIsDefinite()
    ensures Definite(CONFLICT)
  {
    var text := CONFLICT.code + " " + CONFLICT.reason;
    forall i | 0 <= i <= |text| ensures !Mentions(text[i..], "IN_PROGRESS") {
      NeverMentioned(text, i);
    }
    assert text[0..] == text;
  }

  lemma {:induction false} NeverMentioned(text: string, i: nat)
    requires i <= |text| && forall k | 0 <= k < |text| :: text[k] != 'P'
    ensures !Mentions(text[i..], "IN_PROGRESS")
    decreases |text| - i
  {
    if i < |text| {
      NeverMentioned(text, i + 1);
      assert text[i..][1..] == text[i + 1..];
      assert |text[i..]| >= 11 ==> text[i..][..11][3] != "IN_PROGRESS"[3];
    }
  }

  /** The run: the first request is given up on, its retry is refused. */
  lemma RefusedOnRetry() returns (events: seq<Event>)
    ensures 0 in Run(MOUNTED, events).refused && !SentOnce(Run(MOUNTED, events), 0)
  {
    var cmd := Command("approve", 0);
    var p1 := Page(Some(cmd), true, true, Some(0), 1, D.Net([D.Request(0, D.OnTheWay)], []), [], [], []);
    var p2 := p1.(busy := false, waiting := None);
    var p3 := Page(Some(cmd), true, true, Some(1), 1, D.Net([D.Request(0, D.OnTheWay), D.Request(0, D.OnTheWay)], []), [], [], []);
    var p4 := p3.(net := D.Net([D.Request(0, D.OnTheWay), D.Request(0, D.Refused)], []));
    ConflictIsDefinite();
    RunAppend(MOUNTED, [], Click("approve"));
    RunAppend(MOUNTED, [Click("approve")], Reject(Transport));
    events := [Click("approve")] + [Reject(Transport)];
    assert Run(MOUNTED, events) == p2;
    RunAppend(MOUNTED, events, Retry);
    events := events + [Retry];
    assert Run(MOUNTED, events) == p3;
    RunAppend(MOUNTED, events, Network(D.Serve(1, false)));
    events := events + [Network(D.Serve(1, false))];
    assert Run(MOUNTED, events) == p4;
    RunAppend(MOUNTED, events, Reject(CONFLICT));
    events := events + [Reject(CONFLICT)];
    assert Run(MOUNTED, events).refused == [0] && Run(MOUNTED, events).net == p4.net;
    assert p4.net.requests[0].key == 0 && p4.net.requests[1].key == 0;
  }

  /** So it happens that a command refused on a retry takes effect. */
  lemma RefusedYetApplied()
    ensures exists events :: var p := Run(MOUNTED, events); 0 in p.refused && 0 in p.net.applied
  {
    var events := RefusedOnRetry();
    var other, late := RetriedRefusal(events, 0);
    var q := Run(MOUNTED, other + [Network(D.Serve(late, true))]);
  }

  // ---- Commands left behind by a mount ----

  lemma {:induction false} ToldStays(p: Page, events: seq<Event>, key: D.Key)
    ensures key in p.reported ==> key in Run(p, events).reported
    ensures key in p.refused ==> key in Run(p, events).refused
    ensures |Run(p, events).net.requests| >= |p.net.requests|
    decreases events
  {
    if events != [] {
      ToldStays(Step(p, events[0]), events[1..], key);
    }
  }

  /** The run ends with no outcome of `key` told, and no ticket as high as `last`. */
  ghost predicate EndsUntold(p: Page, events: seq<Event>, key: D.Key, last: nat) {
    var p' := Run(p, events); key !in p'.reported && key !in p'.refused && |p'.net.requests| <= last
  }

  lemma UntoldPageStep(p: Page, q: Page, e: Event, key: D.Key, last: nat)
    requires Inv(p) && Held(p, q, key, last) && |p.net.requests| <= last && !e.Network?
    requires |Step(p, e).net.requests| <= last && key !in Step(p, e).reported && key !in Step(p, e).refused
    ensures Held(Step(p, e), Step(q, e), key, last)
  {
    AwaitsASentRequest(p);
    hide Inv, Mentions;
    if (e.Resolve? || e.Reject?) && p.alive && p.waiting.Some? && p.net.requests[p.waiting.value].key == key {
      var w := p.waiting.value;
      assert e.Resolve? ==> p.net.requests[w].phase != D.Done;
      assert e.Reject? && Definite(e.cause) ==> p.net.requests[w].phase != D.Refused;
    }
  }

  lemma UntoldNetworkStep(p: Page, q: Page, e: Event, key: D.Key, last: nat)
    requires Held(p, q, key, last) && |p.net.requests| <= last && e.Network?
    ensures Held(Step(p, e), if Silent(p, e, key, last) then q else Step(q, e), key, last)
  {
  }

  lemma {:induction false} HeldThroughUntoldRun(p: Page, q: Page, events: seq<Event>, key: D.Key, last: nat)
    requires Inv(p) && OneAtATime(p) && Held(p, q, key, last) && EndsUntold(p, events, key, last)
    ensures Held(Run(p, events), Run(q, Quiet(p, events, key, last)), key, last)
    decreases events
  {
    if events != [] {
      var e, p' := events[0], Step(p, events[0]);
      var q' := if Silent(p, e, key, last) then q else Step(q, e);
      ToldStays(p, events, key);
      ToldStays(p', events[1..], key);
      if e.Network? { UntoldNetworkStep(p, q, e, key, last); } else { UntoldPageStep(p, q, e, key, last); }
      StepKeepsInv(p, e);
      HeldThroughUntoldRun(p', q', events[1..], key, last);
      var rest := Quiet(p', events[1..], key, last);
      assert ([e] + rest)[1..] == rest;
    }
  }

  /** A command left behind by its mount is never known to be over: in a run the page cannot tell from its own
      it takes effect later. So an intent entered again on a new mount is carried out at most once, for all the
      page knows, only if nothing was pending when the old mount was left. */
  lemma AbandonedMayTakeEffect(events: seq<Event>, key: D.Key) returns (other: seq<Event>, late: nat)
    requires key in Run(MOUNTED, events).abandoned
    ensures LooksAlike(events, other)
    ensures var q := Run(MOUNTED, other + [Network(D.Serve(late, true))]); key in q.abandoned && key in q.net.applied
  {
    hide Run, Quiet, Held, Step;
    var p := Run(MOUNTED, events);
    var last := |p.net.requests|;
    HeldAtStart(key, last);
    RunKeepsInv(MOUNTED, events);
    other := Quiet(MOUNTED, events, key, last);
    QuietLooksTheSame(MOUNTED, events, key, last);
    HeldThroughUntoldRun(MOUNTED, MOUNTED, events, key, last);
    HeldLooksTheSame(p, Run(MOUNTED, other), key, last);
    assert D.Used(p.net, key);
    late :| 0 <= late < |p.net.requests| && p.net.requests[late].key == key;
    RunAppend(MOUNTED, other, Network(D.Serve(late, true)));
    ServedLate(p, Run(MOUNTED, other), key, last, late);
  }

  /** Leaving the page leaves no command behind that may still take effect, in every run the page cannot tell
      from its own, if and only if nothing is pending. */
  lemma LeavingIsSafeIffNothingPending(events: seq<Event>)
    ensures var p := Run(MOUNTED, events);
      p.pending.None? <==>
        forall other, more, k | LooksAlike(events + [Unmount], other)
                                && k in Run(MOUNTED, other).abandoned && k !in p.abandoned ::
          k !in Run(MOUNTED, other + more).net.applied
  {
    var p := Run(MOUNTED, events);
    RunKeepsInv(MOUNTED, events);
    RunAppend(MOUNTED, events, Unmount);
    if p.pending.Some? {
      var k := p.pending.value.key;
      var other, late := AbandonedMayTakeEffect(events + [Unmount], k);
      assert k in Run(MOUNTED, other).abandoned && k !in p.abandoned;
      assert k in Run(MOUNTED, other + [Network(D.Serve(late, true))]).net.applied;
    }
  }
}

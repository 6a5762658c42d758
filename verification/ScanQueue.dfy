/** What the barcode scanner does, seen from outside: the worker with its epochs and stale answers behaves,
    over every run, as one plain queue of values. */
module ScanQueue {
  import opened Common
  import opened BarcodeScanner

  // ---- One step, in terms of what was accepted, answered and applied ----

  /** The answer to the request for the head of the queue: the head is applied exactly if it was resolved while
      the scanner is enabled and not blocked, leaves the queue either way, and the next scan is requested. */
  lemma CurrentAnswer(s: State, resolved: bool)
    requires Reachable(s) && Current(s)
    ensures s.queue != []
    ensures var s' := Step(s, Answer(resolved));
      && AllApplied(s'.history) == AllApplied(s.history) + (if resolved && s.enabled && !s.blocked then [s.queue[0].id] else [])
      && AnsweredSince(s'.history) == AnsweredSince(s.history) + [s.queue[0].id]
      && AcceptedSince(s'.history) == AcceptedSince(s.history)
      && s' == s.(queue := s.queue[1..], history := s'.history, running := |s.queue| > 1,
                  inFlight := if |s.queue| > 1 then Some(s.queue[1]) else None)
  {
    hide AcceptedSince, RequestedSince, AnsweredSince, Fresh, Timely, AllApplied, AllRequested;
    ReachableInv(s);
    PopInv(s);
    hide Ordered, Conserved, Punctual, Numbered;
    var head := s.queue[0];
    var seen := Answered(head.id, resolved && s.enabled && !s.blocked);
    Appended(s.history, seen);
    if |s.queue| > 1 {
      Appended(s.history + [seen], Requested(s.queue[1].id));
    }
  }

  /** A scan is accepted exactly if the scanner is enabled and not blocked, the text is not blank and fewer than
      20 scans wait: its trimmed text joins the queue, and is requested at once if nothing is on the way.
      Otherwise nothing happens at all. */
  lemma ScanIsAdmittedIff(s: State, raw: string)
    requires Reachable(s)
    ensures var s' := Step(s, Enqueue(raw));
      if s.enabled && !s.blocked && Trim(raw) != "" && |s.queue| < 20 then
        var scan := Scan(s.nextId, Trim(raw), s.epoch);
        && AcceptedSince(s'.history) == AcceptedSince(s.history) + [s.nextId]
        && AllApplied(s'.history) == AllApplied(s.history)
        && s' == s.(queue := s.queue + [scan], nextId := s.nextId + 1, history := s'.history, running := true,
                    inFlight := if s.inFlight.None? then Some(scan) else s.inFlight)
      else s' == s
  {
    hide AcceptedSince, RequestedSince, AnsweredSince, Fresh, Timely, AllApplied, AllRequested, Trim;
    ReachableInv(s);
    hide Ordered, Conserved, Punctual, Numbered;
    Appended(s.history, Accepted(s.nextId));
    Appended(s.history + [Accepted(s.nextId)], Requested(s.nextId));
  }

  /** A reset, and an unmount, empties the queue and makes a request on the way stale; nothing is applied. */
  lemma ResetForgets(s: State, e: Event)
    requires e.Reset? || e.Unmount?
    ensures var s' := Step(s, e);
      && s'.queue == [] && s'.epoch == s.epoch + 1 && AcceptedSince(s'.history) == []
      && AllApplied(s'.history) == AllApplied(s.history)
      && s' == s.(queue := [], epoch := s.epoch + 1, history := s'.history, mounted := s.mounted && e.Reset?)
  {
    hide AcceptedSince, AllApplied;
    Appended(s.history, WasReset);
  }

  // ---- The plain queue ----

  datatype Waiting = Waiting(id: nat, value: string)

  /** `stale` says that the next answer belongs to a scan given up before; `due`, that a disabled scanner is
      still to be emptied. */
  datatype Plain = Plain(accepted: nat, waiting: seq<Waiting>, applied: seq<nat>, stale: bool,
                         enabled: bool, blocked: bool, due: bool)

  function Emptied(q: Plain): Plain {
    q.(waiting := [], stale := q.stale || q.waiting != [])
  }

  function Settled(q: Plain): Plain {
    if q.due then Emptied(q).(due := false) else q
  }

  function PlainStep(q: Plain, e: Event): Plain {
    match e
    case Enqueue(raw) =>
      if q.enabled && !q.blocked && Trim(raw) != "" && |q.waiting| < 20
      then q.(accepted := q.accepted + 1, waiting := q.waiting + [Waiting(q.accepted, Trim(raw))])
      else q
    case Answer(resolved) =>
      if q.stale then q.(stale := false)
      else if q.waiting == [] then q
      else q.(waiting := q.waiting[1..],
              applied := q.applied + if resolved && q.enabled && !q.blocked then [q.waiting[0].id] else [])
    case Reset => Emptied(q)
    case Unmount => Emptied(q)
    case FlushEffects => Settled(q)
    case Render(enabled, blocked) =>
      Settled(q).(enabled := enabled, blocked := blocked, due := q.enabled && !enabled)
    case Mount => q
  }

  function PlainRun(q: Plain, events: seq<Event>): Plain
    decreases events
  {
    if events == [] then q else PlainRun(PlainStep(q, events[0]), events[1..])
  }

  /** What of the scanner the plain queue speaks of. */
  function Seen(s: State): Plain {
    Plain(s.nextId, seq(|s.queue|, i requires 0 <= i < |s.queue| => Waiting(s.queue[i].id, s.queue[i].value)),
          AllApplied(s.history), s.inFlight.Some? && s.inFlight.value.epoch != s.epoch, s.enabled, s.blocked, s.resetPending)
  }

  lemma IsAwake(s: State)
    requires Reachable(s)
    ensures Awake(s) && (s.enabled ==> !s.resetPending)
    ensures s.inFlight.Some? && s.inFlight.value.epoch != s.epoch ==> !Current(s)
    ensures s.inFlight.None? ==> s.queue == []
    ensures forall i | 0 <= i < |s.queue| :: s.queue[i].epoch == s.epoch
  {
    ReachableInv(s);
  }

  lemma JoiningIsPlain(s: State, s': State, scan: Scan)
    requires s'.queue == s.queue + [scan] && s'.nextId == s.nextId + 1 && AllApplied(s'.history) == AllApplied(s.history)
    requires s'.epoch == s.epoch && s'.enabled == s.enabled && s'.blocked == s.blocked && s'.resetPending == s.resetPending
    requires s'.inFlight == if s.inFlight.None? then Some(scan) else s.inFlight
    requires scan.epoch == s.epoch
    ensures Seen(s') == Seen(s).(accepted := s.nextId + 1, waiting := Seen(s).waiting + [Waiting(scan.id, scan.value)])
  {
    hide AllApplied;
    assert Seen(s').waiting == Seen(s).waiting + [Waiting(scan.id, scan.value)];
  }

  lemma EnqueueIsPlain(s: State, raw: string)
    requires Reachable(s)
    ensures Seen(Step(s, Enqueue(raw))) == PlainStep(Seen(s), Enqueue(raw))
  {
    ScanIsAdmittedIff(s, raw);
    hide Step, Reachable, AcceptedSince, AllApplied, Trim;
    if s.enabled && !s.blocked && Trim(raw) != "" && |s.queue| < 20 {
      JoiningIsPlain(s, Step(s, Enqueue(raw)), Scan(s.nextId, Trim(raw), s.epoch));
    }
  }

  /** An answer leaves the first `n` scans behind, none or one, and asks for the next. */
  lemma LeavingIsPlain(s: State, s': State, n: nat)
    requires n <= |s.queue| && s'.queue == s.queue[n..] && s'.nextId == s.nextId && s'.epoch == s.epoch
    requires s'.enabled == s.enabled && s'.blocked == s.blocked && s'.resetPending == s.resetPending
    requires s'.inFlight == if s'.queue == [] then None else Some(s'.queue[0])
    requires forall i | 0 <= i < |s.queue| :: s.queue[i].epoch == s.epoch
    ensures Seen(s') == Seen(s).(waiting := Seen(s).waiting[n..], applied := AllApplied(s'.history), stale := false)
  {
    hide AllApplied;
    assert Seen(s').waiting == Seen(s).waiting[n..];
  }

  lemma CurrentAnswerIsPlain(s: State, resolved: bool)
    requires Reachable(s) && Current(s)
    ensures Seen(Step(s, Answer(resolved))) == PlainStep(Seen(s), Answer(resolved))
  {
    IsAwake(s);
    CurrentAnswer(s, resolved);
    hide Step, Reachable, Awake, AcceptedSince, AnsweredSince, AllApplied;
    LeavingIsPlain(s, Step(s, Answer(resolved)), 1);
  }

  lemma StaleAnswerIsPlain(s: State, resolved: bool)
    requires Reachable(s) && s.inFlight.Some? && !Current(s)
    ensures Seen(Step(s, Answer(resolved))) == PlainStep(Seen(s), Answer(resolved))
  {
    IsAwake(s);
    StaleAnswerTakesNothing(s, resolved);
    StaleAnswerKeeps(s, resolved);
    hide Step, Reachable, Awake, AcceptedSince, AnsweredSince, AllApplied;
    LeavingIsPlain(s, Step(s, Answer(resolved)), 0);
    assert Seen(s).waiting[0..] == Seen(s).waiting;
  }

  lemma AnswerIsPlain(s: State, resolved: bool)
    requires Reachable(s)
    ensures Seen(Step(s, Answer(resolved))) == PlainStep(Seen(s), Answer(resolved))
  {
    if s.inFlight.None? {
      IsAwake(s);
      assert Seen(s).waiting == [] && Step(s, Answer(resolved)) == s;
    } else if Current(s) {
      CurrentAnswerIsPlain(s, resolved);
    } else {
      StaleAnswerIsPlain(s, resolved);
    }
  }

  lemma StaleAnswerKeeps(s: State, resolved: bool)
    requires Reachable(s) && s.inFlight.Some? && !Current(s)
    ensures var s' := Step(s, Answer(resolved));
      && s'.nextId == s.nextId && s'.epoch == s.epoch && s'.enabled == s.enabled && s'.blocked == s.blocked
      && s'.resetPending == s.resetPending
  {
    ReachableInv(s);
    PopInv(s);
    hide AcceptedSince, RequestedSince, AnsweredSince, AllApplied, AllRequested, Fresh, Timely;
  }

  lemma EmptyingIsPlain(s: State, e: Event)
    requires Reachable(s) && (e.Reset? || e.Unmount?)
    ensures Seen(Step(s, e)) == PlainStep(Seen(s), e) == Emptied(Seen(s))
  {
    IsAwake(s);
    ResetForgets(s, e);
    hide Step, Reachable, AcceptedSince, AllApplied;
    assert Seen(Step(s, e)).waiting == [];
  }

  lemma FlushIsPlain(s: State)
    requires Reachable(s)
    ensures Seen(Step(s, FlushEffects)) == Settled(Seen(s))
    ensures Step(s, FlushEffects).history == if s.resetPending then Step(s, Reset).history else s.history
  {
    if s.resetPending {
      EmptyingIsPlain(s, Reset);
      assert Step(s, FlushEffects) == Step(s, Reset).(resetPending := false);
      hide Reachable, AllApplied, Step, Emptied, PlainStep;
    }
  }

  lemma RenderIsPlain(s: State, enabled: bool, blocked: bool)
    requires Reachable(s)
    ensures Seen(Step(s, Render(enabled, blocked))) == PlainStep(Seen(s), Render(enabled, blocked))
  {
    FlushIsPlain(s);
    var flushed, rendered := Step(s, FlushEffects), Step(s, Render(enabled, blocked));
    Appended(flushed.history, WasDisabled);
    assert rendered == flushed.(enabled := enabled, blocked := blocked, history := rendered.history,
                                resetPending := if s.enabled && !enabled then true else flushed.resetPending);
    assert rendered.history == flushed.history + if s.enabled && !enabled then [WasDisabled] else [];
    IsAwake(s);
    hide Reachable, Awake, AllApplied, Step;
  }

  lemma StepIsPlain(s: State, e: Event)
    requires Reachable(s)
    ensures Seen(Step(s, e)) == PlainStep(Seen(s), e)
  {
    hide Seen, Step, Reachable, Emptied;
    match e
    case Enqueue(raw) => EnqueueIsPlain(s, raw);
    case Answer(resolved) => AnswerIsPlain(s, resolved);
    case Reset => EmptyingIsPlain(s, e);
    case Unmount => EmptyingIsPlain(s, e);
    case Render(enabled, blocked) => RenderIsPlain(s, enabled, blocked);
    case FlushEffects => FlushIsPlain(s);
    case Mount => MountIsPlain(s);
  }

  lemma MountIsPlain(s: State)
    ensures Seen(Step(s, Mount)) == PlainStep(Seen(s), Mount)
  {
    hide AllApplied;
  }

  lemma {:induction false} RunConcat(s: State, events: seq<Event>, more: seq<Event>)
    ensures Run(s, events + more) == Run(Run(s, events), more)
    decreases events
  {
    hide Step;
    if events == [] {
      assert events + more == more;
    } else {
      assert (events + more)[1..] == events[1..] + more;
      RunConcat(Step(s, events[0]), events[1..], more);
    }
  }

  lemma StepsAreReachable(s: State, e: Event)
    requires Reachable(s)
    ensures Reachable(Step(s, e))
  {
    hide Step;
    var enabled, blocked, events :| s == Run(Init(enabled, blocked), events);
    RunConcat(Init(enabled, blocked), events, [e]);
    assert [e][1..] == [];
  }

  lemma {:induction false} RunIsPlain(s: State, events: seq<Event>)
    requires Reachable(s)
    ensures Seen(Run(s, events)) == PlainRun(Seen(s), events) && Reachable(Run(s, events))
    decreases events
  {
    hide Step, Seen;
    if events != [] {
      StepIsPlain(s, events[0]);
      StepsAreReachable(s, events[0]);
      RunIsPlain(Step(s, events[0]), events[1..]);
    }
  }

  // ---- Main results ----

  /** Over every run of every interleaving: what waits, in which order, what was applied, and which answer is
      stale, are those of the plain queue. */
  lemma ScannerIsAPlainQueue(enabled: bool, blocked: bool, events: seq<Event>)
    ensures Seen(Run(Init(enabled, blocked), events))
      == PlainRun(Plain(0, [], [], false, enabled, blocked, !enabled), events)
  {
    var s := Init(enabled, blocked);
    assert Run(s, []) == s;
    assert Seen(s) == Plain(0, [], [], false, enabled, blocked, !enabled);
    RunIsPlain(s, events);
  }

  /** A burst of scans and as many successful answers. */
  function Burst(raws: seq<string>): seq<Event> {
    seq(|raws|, i requires 0 <= i < |raws| => Enqueue(raws[i]))
  }

  function Answers(n: nat): seq<Event> {
    seq(n, i => Answer(true))
  }

  function Numbers(from: nat, n: nat): seq<nat> {
    seq(n, i => from + i)
  }

  lemma {:induction false} BurstIsAccepted(q: Plain, raws: seq<string>)
    requires q.enabled && !q.blocked && |q.waiting| + |raws| <= 20
    requires forall i | 0 <= i < |raws| :: Trim(raws[i]) != ""
    ensures PlainRun(q, Burst(raws)) == q.(accepted := q.accepted + |raws|,
      waiting := q.waiting + seq(|raws|, i requires 0 <= i < |raws| => Waiting(q.accepted + i, Trim(raws[i]))))
    decreases raws
  {
    hide Trim;
    if raws == [] {
      assert q.waiting + [] == q.waiting;
    } else {
      var q1 := PlainStep(q, Enqueue(raws[0]));
      assert Burst(raws)[0] == Enqueue(raws[0]) && Burst(raws)[1..] == Burst(raws[1..]);
      assert forall i | 0 <= i < |raws[1..]| :: raws[1..][i] == raws[i + 1];
      BurstIsAccepted(q1, raws[1..]);
      assert q1.waiting + seq(|raws[1..]|, i requires 0 <= i < |raws[1..]| => Waiting(q1.accepted + i, Trim(raws[1..][i])))
        == q.waiting + seq(|raws|, i requires 0 <= i < |raws| => Waiting(q.accepted + i, Trim(raws[i])));
    }
  }

  lemma {:induction false} AnswersDrain(q: Plain, n: nat)
    requires q.enabled && !q.blocked && !q.stale && n <= |q.waiting|
    ensures PlainRun(q, Answers(n)) == q.(waiting := q.waiting[n..],
      applied := q.applied + seq(n, i requires 0 <= i < n => q.waiting[i].id))
    decreases n
  {
    if n == 0 {
      assert q.applied + [] == q.applied && q.waiting[0..] == q.waiting;
    } else {
      var q1 := PlainStep(q, Answer(true));
      assert Answers(n)[1..] == Answers(n - 1);
      AnswersDrain(q1, n - 1);
      assert q1.applied + seq(n - 1, i requires 0 <= i < n - 1 => q1.waiting[i].id)
        == q.applied + seq(n, i requires 0 <= i < n => q.waiting[i].id);
      assert q1.waiting[n - 1..] == q.waiting[n..];
    }
  }

  lemma {:induction false} PlainConcat(q: Plain, events: seq<Event>, more: seq<Event>)
    ensures PlainRun(q, events + more) == PlainRun(PlainRun(q, events), more)
    decreases events
  {
    hide PlainStep;
    if events == [] {
      assert events + more == more;
    } else {
      assert (events + more)[1..] == events[1..] + more;
      PlainConcat(PlainStep(q, events[0]), events[1..], more);
    }
  }

  /** From an idle scanner that is enabled and not blocked, up to 20 scans in a row, each of them resolved, are all
      applied, in order, and the scanner is idle again. */
  lemma BurstIsAppliedWhole(s: State, raws: seq<string>)
    requires Reachable(s) && s.enabled && !s.blocked && !s.running && |raws| <= 20
    requires forall i | 0 <= i < |raws| :: Trim(raws[i]) != ""
    ensures var s' := Run(s, Burst(raws) + Answers(|raws|));
      AllApplied(s'.history) == AllApplied(s.history) + Numbers(s.nextId, |raws|) && s'.queue == [] && !s'.running
  {
    hide Step, Trim, AllApplied, PlainStep;
    var events := Burst(raws) + Answers(|raws|);
    RunIsPlain(s, events);
    IsAwake(s);
    IsAwake(Run(s, events));
    hide Run, Reachable, PlainRun, Burst, Answers;
    var q := Seen(s);
    assert q.waiting == [] && !q.stale;
    PlainConcat(q, Burst(raws), Answers(|raws|));
    BurstIsAccepted(q, raws);
    AnswersDrain(PlainRun(q, Burst(raws)), |raws|);
    assert PlainRun(q, events).applied == q.applied + Numbers(s.nextId, |raws|);
    assert Seen(Run(s, events)).waiting == [] && !Seen(Run(s, events)).stale;
  }
}

/** The barcode scanner: scans queue up, one worker resolves them one at a time over the network,
    and resets, disabling and unmounting make scans stale. Every await is a step boundary: between
    a request and its answer any other event may happen, any number of times.

    A scan's `id` stands for the identity of its object; two scans of one barcode differ in it. */
module BarcodeScanner {
  import opened Common

  datatype Scan = Scan(id: nat, value: string, epoch: nat)

  // ---- Admission ----

  const QUEUE_LIMIT := 20

  datatype Admission = Empty | Full | Enqueued(queue: seq<Scan>)

  function Admit(queue: seq<Scan>, raw: string, epoch: nat, id: nat): Admission {
    var value := Trim(raw);
    if value == "" then Empty
    else if |queue| >= QUEUE_LIMIT then Full
    else Enqueued(queue + [Scan(id, value, epoch)])
  }

  predicate CanApply(scan: Scan, epoch: nat, blocked: bool) {
    scan.epoch == epoch && !blocked
  }

  // ---- State and events ----

  /** What an observer sees: a scan accepted, sent to the server, answered (and applied to the
      lines or not), given up as stale; the queue reset; the scanner disabled. */
  datatype Happening =
    | Accepted(id: nat)
    | Requested(id: nat)
    | Answered(id: nat, applied: bool)
    | Abandoned(id: nat)
    | WasReset
    | WasDisabled

  datatype State = State(
    queue: seq<Scan>,
    running: bool,
    inFlight: Option<Scan>,
    epoch: nat,
    mounted: bool,
    enabled: bool,
    blocked: bool,
    resetPending: bool,
    nextId: nat,
    history: seq<Happening>)

  datatype Event =
    | Enqueue(raw: string)
    | Answer(resolved: bool)
    | Reset
    | Render(enabled: bool, blocked: bool)
    | FlushEffects
    | Mount
    | Unmount

  function Pop(queue: seq<Scan>, entry: Scan): seq<Scan> {
    if queue != [] && queue[0] == entry then queue[1..] else Filter(queue, entry)
  }

  function Filter(queue: seq<Scan>, entry: Scan): seq<Scan> {
    if queue == [] then []
    else (if queue[0] == entry then [] else [queue[0]]) + Filter(queue[1..], entry)
  }

  /** The worker from the head of its loop to its next await, or to its end. */
  function Advance(s: State): State
    decreases |s.queue|
  {
    if s.queue == [] then s.(running := false, inFlight := None)
    else
      var entry := s.queue[0];
      if entry.epoch == s.epoch then s.(inFlight := Some(entry), history := s.history + [Requested(entry.id)])
      else Advance(s.(queue := s.queue[1..]))
  }

  function Accept(s: State, queue: seq<Scan>): State {
    s.(queue := queue, nextId := s.nextId + 1, history := s.history + [Accepted(s.nextId)])
  }

  function EnqueueStep(s: State, raw: string): State {
    if !s.enabled || s.blocked then s
    else
      match Admit(s.queue, raw, s.epoch, s.nextId)
      case Empty => s
      case Full => s
      case Enqueued(queue) =>
        var s' := Accept(s, queue);
        if s'.running then s' else Advance(s'.(running := true))
  }

  /** The await returns, with a resolved item or by throwing: the scan is applied if it may still
      be, and leaves the queue. */
  function Conclude(s: State, resolved: bool): State
    requires s.inFlight.Some?
  {
    var entry := s.inFlight.value;
    var applied := resolved && s.enabled && CanApply(entry, s.epoch, s.blocked);
    var seen := if entry.epoch == s.epoch then Answered(entry.id, applied) else Abandoned(entry.id);
    s.(queue := Pop(s.queue, entry), inFlight := None, history := s.history + [seen])
  }

  function AnswerStep(s: State, resolved: bool): State
    requires s.inFlight.Some?
  {
    Advance(Conclude(s, resolved))
  }

  function ResetStep(s: State): State {
    s.(epoch := s.epoch + 1, queue := [], history := s.history + [WasReset])
  }

  function FlushStep(s: State): State {
    if s.resetPending then ResetStep(s).(resetPending := false) else s
  }

  /** A render makes the new props current at once; the effect that resets a disabled scanner runs
      later, but before the next render. */
  function RenderStep(s: State, enabled: bool, blocked: bool): State {
    var s' := FlushStep(s);
    if s'.enabled && !enabled
    then s'.(enabled := false, blocked := blocked, resetPending := true, history := s'.history + [WasDisabled])
    else s'.(enabled := enabled, blocked := blocked)
  }

  function Step(s: State, e: Event): State {
    match e
    case Enqueue(raw) => EnqueueStep(s, raw)
    case Answer(resolved) => if s.inFlight.Some? then AnswerStep(s, resolved) else s
    case Reset => ResetStep(s)
    case Render(enabled, blocked) => RenderStep(s, enabled, blocked)
    case FlushEffects => FlushStep(s)
    case Mount => s.(mounted := true)
    case Unmount => ResetStep(s).(mounted := false)
  }

  function Init(enabled: bool, blocked: bool): State {
    State([], false, None, 0, true, enabled, blocked, !enabled, 0, [])
  }

  function Run(s: State, events: seq<Event>): State
    decreases events
  {
    if events == [] then s else Run(Step(s, events[0]), events[1..])
  }

  // ---- Reading a history ----

  /** Scans accepted since the last reset, in order. */
  function AcceptedSince(h: seq<Happening>): seq<nat> {
    if h == [] || h[|h| - 1].WasReset? then []
    else AcceptedSince(h[..|h| - 1]) + if h[|h| - 1].Accepted? then [h[|h| - 1].id] else []
  }

  function RequestedSince(h: seq<Happening>): seq<nat> {
    if h == [] || h[|h| - 1].WasReset? then []
    else RequestedSince(h[..|h| - 1]) + if h[|h| - 1].Requested? then [h[|h| - 1].id] else []
  }

  function AnsweredSince(h: seq<Happening>): seq<nat> {
    if h == [] || h[|h| - 1].WasReset? then []
    else AnsweredSince(h[..|h| - 1]) + if h[|h| - 1].Answered? then [h[|h| - 1].id] else []
  }

  /** Scans accepted since the last reset or disabling. */
  function Fresh(h: seq<Happening>): set<nat> {
    if h == [] || h[|h| - 1].WasReset? || h[|h| - 1].WasDisabled? then {}
    else Fresh(h[..|h| - 1]) + if h[|h| - 1].Accepted? then {h[|h| - 1].id} else {}
  }

  /** No scan is ever applied that was accepted before a reset or a disabling. */
  predicate Timely(h: seq<Happening>) {
    h == [] ||
    var init, last := h[..|h| - 1], h[|h| - 1];
    Timely(init) && (last.Answered? && last.applied ==> last.id in Fresh(init))
  }

  function AllApplied(h: seq<Happening>): seq<nat> {
    if h == [] then []
    else AllApplied(h[..|h| - 1]) + if h[|h| - 1].Answered? && h[|h| - 1].applied then [h[|h| - 1].id] else []
  }

  function AllRequested(h: seq<Happening>): seq<nat> {
    if h == [] then []
    else AllRequested(h[..|h| - 1]) + if h[|h| - 1].Requested? then [h[|h| - 1].id] else []
  }

  predicate Increasing(ids: seq<nat>) {
    forall i, j | 0 <= i < j < |ids| :: ids[i] < ids[j]
  }

  predicate Below(ids: seq<nat>, bound: nat) {
    forall i | 0 <= i < |ids| :: ids[i] < bound
  }

  function Ids(queue: seq<Scan>): seq<nat> {
    seq(|queue|, i requires 0 <= i < |queue| => queue[i].id)
  }

  // ---- What holds in every reachable state ----

  predicate Current(s: State) {
    s.inFlight.Some? && s.inFlight.value.epoch == s.epoch
  }

  /** The worker runs exactly while a request is out, and never sleeps on a queue that is not
      empty; a current request is always the head of the queue. */
  predicate Awake(s: State) {
    && (s.running <==> s.inFlight.Some?)
    && (s.queue != [] ==> s.running)
    && (Current(s) ==> s.queue != [] && s.queue[0] == s.inFlight.value)
    && (s.inFlight.Some? ==> s.inFlight.value.epoch <= s.epoch)
  }

  predicate Queued(s: State) {
    && |s.queue| <= QUEUE_LIMIT
    && (forall i | 0 <= i < |s.queue| :: s.queue[i].epoch == s.epoch && s.queue[i].value != "")
    && (forall i, j | 0 <= i < j < |s.queue| :: s.queue[i].id < s.queue[j].id)
    && (forall i | 0 <= i < |s.queue| :: s.queue[i].id < s.nextId)
    && (s.enabled ==> !s.resetPending)
    && (!s.enabled && !s.resetPending ==> s.queue == [])
  }

  /** Conservation: what was accepted since the last reset is what was answered, in the same order,
      followed by what is still queued; and what was sent to the server is what was answered,
      followed by the current request. */
  predicate Conserved(s: State) {
    && AcceptedSince(s.history) == AnsweredSince(s.history) + Ids(s.queue)
    && RequestedSince(s.history) == AnsweredSince(s.history) + if Current(s) then [s.inFlight.value.id] else []
  }

  /** Over the whole run every scan is sent at most once and applied at most once, both in the
      order of acceptance. */
  predicate Ordered(s: State) {
    && Increasing(AllRequested(s.history)) && Below(AllRequested(s.history), s.nextId)
    && Increasing(AllApplied(s.history)) && Below(AllApplied(s.history), s.nextId)
    && (s.queue != [] ==> Below(AllApplied(s.history), s.queue[0].id))
    && (forall i | 0 <= i < |s.queue| && !(i == 0 && Current(s)) :: Below(AllRequested(s.history), s.queue[i].id))
  }

  predicate Punctual(s: State) {
    && Timely(s.history)
    && (s.enabled ==> forall i | 0 <= i < |s.queue| :: s.queue[i].id in Fresh(s.history))
  }

  predicate Numbered(s: State) {
    Increasing(AcceptedSince(s.history)) && Below(AcceptedSince(s.history), s.nextId)
  }

  predicate InvButAwake(s: State) {
    Queued(s) && Conserved(s) && Ordered(s) && Punctual(s) && Numbered(s)
  }

  predicate Inv(s: State) {
    Awake(s) && InvButAwake(s)
  }

  lemma Appended(h: seq<Happening>, x: Happening)
    ensures var g := h + [x];
      && AcceptedSince(g) == (if x.WasReset? then [] else AcceptedSince(h) + if x.Accepted? then [x.id] else [])
      && RequestedSince(g) == (if x.WasReset? then [] else RequestedSince(h) + if x.Requested? then [x.id] else [])
      && AnsweredSince(g) == (if x.WasReset? then [] else AnsweredSince(h) + if x.Answered? then [x.id] else [])
      && Fresh(g) == (if x.WasReset? || x.WasDisabled? then {} else Fresh(h) + if x.Accepted? then {x.id} else {})
      && (Timely(g) <==> Timely(h) && (x.Answered? && x.applied ==> x.id in Fresh(h)))
      && AllApplied(g) == AllApplied(h) + (if x.Answered? && x.applied then [x.id] else [])
      && AllRequested(g) == AllRequested(h) + (if x.Requested? then [x.id] else [])
  {
    assert (h + [x])[..|h|] == h;
  }

  lemma AdvanceKeepsInv(s: State)
    requires s.running && s.inFlight.None? && InvButAwake(s)
    ensures Inv(Advance(s))
  {
    hide AcceptedSince, RequestedSince, AnsweredSince, Fresh, Timely, AllApplied, AllRequested;
    if s.queue != [] {
      var head := s.queue[0];
      var s' := s.(inFlight := Some(head), history := s.history + [Requested(head.id)]);
      assert Advance(s) == s';
      Appended(s.history, Requested(head.id));
      RequestingKeepsOrder(s, s', head.id);
      RequestingConserves(s, s');
      hide Ordered, Conserved, Increasing, Below, Ids, Advance;
    }
  }

  lemma RequestingConserves(s: State, s': State)
    requires Conserved(s) && s.inFlight.None? && Current(s') && s'.queue == s.queue
    requires AcceptedSince(s'.history) == AcceptedSince(s.history) && AnsweredSince(s'.history) == AnsweredSince(s.history)
    requires RequestedSince(s'.history) == RequestedSince(s.history) + [s'.inFlight.value.id]
    ensures Conserved(s')
  {
    hide AcceptedSince, RequestedSince, AnsweredSince;
    assert AnsweredSince(s.history) + [] == AnsweredSince(s.history);
  }

  lemma RequestingKeepsOrder(s: State, s': State, id: nat)
    requires Ordered(s) && s.queue != [] && s.queue[0].id == id && !Current(s) && Queued(s)
    requires s'.queue == s.queue && s'.nextId == s.nextId && Current(s')
    requires AllRequested(s'.history) == AllRequested(s.history) + [id] && AllApplied(s'.history) == AllApplied(s.history)
    ensures Ordered(s')
  {
    hide AllApplied, AllRequested;
    assert Below(AllRequested(s.history), id);
  }

  ghost predicate NewScan(s: State, scan: Scan) {
    s.enabled && |s.queue| < QUEUE_LIMIT && scan.id == s.nextId && scan.epoch == s.epoch && scan.value != ""
  }

  lemma AcceptingConserves(s: State, s': State, scan: Scan)
    requires Conserved(s) && s'.queue == s.queue + [scan] && s'.inFlight == s.inFlight && s'.epoch == s.epoch
    requires AcceptedSince(s'.history) == AcceptedSince(s.history) + [scan.id]
    requires AnsweredSince(s'.history) == AnsweredSince(s.history) && RequestedSince(s'.history) == RequestedSince(s.history)
    ensures Conserved(s')
  {
    hide AcceptedSince, RequestedSince, AnsweredSince;
    assert Ids(s'.queue) == Ids(s.queue) + [scan.id];
  }

  lemma AcceptKeepsQueue(s: State, scan: Scan)
    requires Inv(s) && NewScan(s, scan)
    ensures var s' := Accept(s, s.queue + [scan]); Queued(s') && Conserved(s') && (s.running ==> Awake(s'))
  {
    hide Fresh, Timely, AllApplied, AllRequested, AcceptedSince, RequestedSince, AnsweredSince, Ordered, Punctual, Numbered;
    var s' := Accept(s, s.queue + [scan]);
    Appended(s.history, Accepted(s.nextId));
    AcceptingConserves(s, s', scan);
    hide Conserved;
  }

  lemma AcceptKeepsHistory(s: State, scan: Scan)
    requires Inv(s) && NewScan(s, scan)
    ensures var s' := Accept(s, s.queue + [scan]); Ordered(s') && Punctual(s') && Numbered(s')
  {
    hide Fresh, Timely, AllApplied, AllRequested, AcceptedSince, RequestedSince, AnsweredSince;
    var s' := Accept(s, s.queue + [scan]);
    Appended(s.history, Accepted(s.nextId));
    assert s.queue != [] ==> s'.queue[0] == s.queue[0];
  }

  lemma EnqueueKeepsInv(s: State, raw: string)
    requires Inv(s)
    ensures Inv(EnqueueStep(s, raw))
  {
    var scan := Scan(s.nextId, Trim(raw), s.epoch);
    if s.enabled && !s.blocked && Admit(s.queue, raw, s.epoch, s.nextId).Enqueued? {
      AcceptKeepsQueue(s, scan);
      AcceptKeepsHistory(s, scan);
      if !s.running {
        AdvanceKeepsInv(Accept(s, s.queue + [scan]).(running := true));
      }
    }
  }

  lemma {:induction false} FilterAbsent(queue: seq<Scan>, entry: Scan)
    requires entry !in queue
    ensures Filter(queue, entry) == queue
  {
    if queue != [] {
      FilterAbsent(queue[1..], entry);
    }
  }

  /** The queue after an answer: a current scan leaves it, a stale one was never in it. */
  lemma PopInv(s: State)
    requires Inv(s) && s.inFlight.Some?
    ensures Pop(s.queue, s.inFlight.value) == if Current(s) then s.queue[1..] else s.queue
  {
    if !Current(s) {
      FilterAbsent(s.queue, s.inFlight.value);
    }
  }

  /** The invariant looks at a history only through what was accepted, requested, answered and applied. */
  lemma SameViewsKeepInv(s: State, s': State)
    requires InvButAwake(s) && !Current(s) && !Current(s')
    requires s'.queue == s.queue && s'.epoch == s.epoch && s'.nextId == s.nextId
    requires s'.enabled == s.enabled && s'.resetPending == s.resetPending
    requires AcceptedSince(s'.history) == AcceptedSince(s.history) && AnsweredSince(s'.history) == AnsweredSince(s.history)
    requires RequestedSince(s'.history) == RequestedSince(s.history) && Fresh(s'.history) == Fresh(s.history)
    requires AllRequested(s'.history) == AllRequested(s.history) && AllApplied(s'.history) == AllApplied(s.history)
    requires Timely(s'.history)
    ensures InvButAwake(s')
  {
    hide AcceptedSince, RequestedSince, AnsweredSince, Fresh, Timely, AllApplied, AllRequested;
    SameOrder(s, s');
    hide Ordered, Increasing, Below, Ids;
  }

  lemma StaleConcludeKeeps(s: State, resolved: bool)
    requires Inv(s) && s.inFlight.Some? && !Current(s)
    ensures InvButAwake(Conclude(s, resolved))
  {
    hide AcceptedSince, RequestedSince, AnsweredSince, Fresh, Timely, AllApplied, AllRequested;
    Appended(s.history, Abandoned(s.inFlight.value.id));
    PopInv(s);
    assert Timely(s.history);
    hide Queued, Ordered, Conserved, Numbered, Punctual, Pop;
    SameViewsKeepInv(s, Conclude(s, resolved));
  }

  lemma CurrentConcludeQueue(s: State, resolved: bool)
    requires Inv(s) && Current(s)
    ensures var s', entry := Conclude(s, resolved), s.inFlight.value;
      && Queued(s') && s'.queue == s.queue[1..]
      && (forall i | 0 <= i < |s'.queue| :: entry.id < s'.queue[i].id && Below(AllRequested(s.history), s'.queue[i].id))
  {
    hide AcceptedSince, RequestedSince, AnsweredSince, Fresh, Timely, AllApplied, AllRequested;
    PopInv(s);
    assert forall i | 0 <= i < |s.queue[1..]| :: s.queue[1..][i] == s.queue[i + 1];
  }

  /** Answering the head moves it from the queue to what was answered. */
  lemma AnsweringConserves(s: State, s': State)
    requires Conserved(s) && Current(s) && s.queue != [] && s.queue[0] == s.inFlight.value
    requires s'.queue == s.queue[1..] && s'.inFlight.None?
    requires AcceptedSince(s'.history) == AcceptedSince(s.history) && RequestedSince(s'.history) == RequestedSince(s.history)
    requires AnsweredSince(s'.history) == AnsweredSince(s.history) + [s.queue[0].id]
    ensures Conserved(s')
  {
    hide AcceptedSince, RequestedSince, AnsweredSince;
    assert Ids(s.queue) == [s.queue[0].id] + Ids(s'.queue);
  }

  lemma CurrentConcludeConserves(s: State, resolved: bool)
    requires Inv(s) && Current(s)
    ensures Conserved(Conclude(s, resolved)) && Numbered(Conclude(s, resolved))
  {
    hide Fresh, Timely, AllApplied, AllRequested, AcceptedSince, RequestedSince, AnsweredSince;
    hide Queued, Ordered, Punctual, Ids;
    var s' := Conclude(s, resolved);
    Appended(s.history, s'.history[|s.history|]);
    PopInv(s);
    AnsweringConserves(s, s');
    hide Conserved;
  }

  /** Applying the head, or not, keeps what was applied in order. */
  lemma AnsweringKeepsOrder(s: State, s': State, id: nat)
    requires Ordered(s) && s.queue != [] && s.queue[0].id == id < s.nextId && s'.nextId == s.nextId && s'.inFlight.None?
    requires forall i | 0 <= i < |s'.queue| :: id < s'.queue[i].id && Below(AllRequested(s.history), s'.queue[i].id)
    requires AllRequested(s'.history) == AllRequested(s.history)
    requires AllApplied(s'.history) == AllApplied(s.history) || AllApplied(s'.history) == AllApplied(s.history) + [id]
    ensures Ordered(s')
  {
    hide AllApplied, AllRequested;
    assert Below(AllApplied(s.history), id);
  }

  lemma AnsweringIsPunctual(s: State, s': State, id: nat, applied: bool)
    requires Punctual(s) && s.queue != [] && s.queue[0].id == id && s'.queue == s.queue[1..] && s'.enabled == s.enabled
    requires Fresh(s'.history) == Fresh(s.history) && (applied ==> s.enabled)
    requires Timely(s'.history) <==> Timely(s.history) && (applied ==> id in Fresh(s.history))
    ensures Punctual(s')
  {
    hide Fresh, Timely;
    assert forall i | 0 <= i < |s'.queue| :: s'.queue[i] == s.queue[i + 1];
  }

  lemma CurrentConcludeKeeps(s: State, resolved: bool)
    requires Inv(s) && Current(s)
    ensures InvButAwake(Conclude(s, resolved))
  {
    hide Fresh, Timely, AllApplied, AllRequested, AcceptedSince, RequestedSince, AnsweredSince;
    var s' := Conclude(s, resolved);
    var seen := s'.history[|s.history|];
    CurrentConcludeQueue(s, resolved);
    CurrentConcludeConserves(s, resolved);
    Appended(s.history, seen);
    hide Conserved, Numbered, Ordered, Punctual, Below, Increasing, Ids;
    AnsweringKeepsOrder(s, s', seen.id);
    AnsweringIsPunctual(s, s', seen.id, seen.applied);
  }

  lemma AnswerKeepsInv(s: State, resolved: bool)
    requires Inv(s) && s.inFlight.Some?
    ensures Inv(AnswerStep(s, resolved))
  {
    if Current(s) {
      CurrentConcludeKeeps(s, resolved);
    } else {
      StaleConcludeKeeps(s, resolved);
    }
    AdvanceKeepsInv(Conclude(s, resolved));
  }

  lemma ResetKeepsInv(s: State)
    requires Awake(s) && Ordered(s) && Timely(s.history) && (s.enabled ==> !s.resetPending)
    ensures Inv(ResetStep(s))
  {
    hide AcceptedSince, RequestedSince, AnsweredSince, Fresh, Timely, AllApplied, AllRequested;
    Appended(s.history, WasReset);
  }

  lemma FlushKeepsInv(s: State)
    requires Inv(s)
    ensures Inv(FlushStep(s)) && !FlushStep(s).resetPending
  {
    ResetKeepsInv(s);
  }

  /** The order is about the queue and what was requested and applied, nothing else. */
  lemma SameOrder(s: State, s': State)
    requires Ordered(s) && s'.queue == s.queue && s'.nextId == s.nextId && Current(s') == Current(s)
    requires AllRequested(s'.history) == AllRequested(s.history) && AllApplied(s'.history) == AllApplied(s.history)
    ensures Ordered(s')
  {
  }

  lemma DisablingKeepsTheRest(s: State, s': State)
    requires Inv(s) && !s.resetPending && Ordered(s') && s' == s.(enabled := false, resetPending := true, history := s'.history)
    requires AcceptedSince(s'.history) == AcceptedSince(s.history) && AnsweredSince(s'.history) == AnsweredSince(s.history)
    requires RequestedSince(s'.history) == RequestedSince(s.history) && (Timely(s.history) ==> Timely(s'.history))
    ensures Inv(s')
  {
    hide AcceptedSince, RequestedSince, AnsweredSince, Fresh, Timely, Ordered, Increasing, Below, Ids;
  }

  lemma DisableKeepsInv(s: State)
    requires Inv(s) && !s.resetPending
    ensures Inv(s.(enabled := false, resetPending := true, history := s.history + [WasDisabled]))
  {
    hide AcceptedSince, RequestedSince, AnsweredSince, Fresh, Timely, AllApplied, AllRequested;
    var s' := s.(enabled := false, resetPending := true, history := s.history + [WasDisabled]);
    Appended(s.history, WasDisabled);
    SameOrder(s, s');
    hide Inv, Ordered;
    DisablingKeepsTheRest(s, s');
  }

  lemma RenderKeepsInv(s: State, enabled: bool, blocked: bool)
    requires Inv(s)
    ensures Inv(RenderStep(s, enabled, blocked))
  {
    hide AcceptedSince, RequestedSince, AnsweredSince, Fresh, Timely, AllApplied, AllRequested;
    FlushKeepsInv(s);
    var s' := FlushStep(s);
    if s'.enabled && !enabled {
      DisableKeepsInv(s'.(blocked := blocked));
    }
  }

  lemma StepKeepsInv(s: State, e: Event)
    requires Inv(s)
    ensures Inv(Step(s, e))
  {
    match e
    case Enqueue(raw) => EnqueueKeepsInv(s, raw);
    case Answer(resolved) => if s.inFlight.Some? { AnswerKeepsInv(s, resolved); }
    case Reset => ResetKeepsInv(s);
    case Render(enabled, blocked) => RenderKeepsInv(s, enabled, blocked);
    case FlushEffects => FlushKeepsInv(s);
    case Mount =>
    case Unmount => ResetKeepsInv(s);
  }

  /** Every reachable state, for every run from a fresh mount. */
  lemma {:induction false} RunKeepsInv(s: State, events: seq<Event>)
    requires Inv(s)
    ensures Inv(Run(s, events))
    decreases events
  {
    if events != [] {
      StepKeepsInv(s, events[0]);
      RunKeepsInv(Step(s, events[0]), events[1..]);
    }
  }

  lemma InitInv(enabled: bool, blocked: bool)
    ensures Inv(Init(enabled, blocked))
  {
  }

  // ---- Main results ----

  ghost predicate Reachable(s: State) {
    exists enabled, blocked, events :: s == Run(Init(enabled, blocked), events)
  }

  lemma ReachableInv(s: State)
    requires Reachable(s)
    ensures Inv(s)
  {
    var enabled, blocked, events :| s == Run(Init(enabled, blocked), events);
    InitInv(enabled, blocked);
    RunKeepsInv(Init(enabled, blocked), events);
  }

  /** No wakeup is lost, and a current request is always for the head of the queue. */
  lemma NoLostWakeup(s: State)
    requires Reachable(s)
    ensures s.queue != [] ==> s.running && s.inFlight.Some?
    ensures Current(s) ==> s.queue != [] && s.queue[0] == s.inFlight.value
  {
    ReachableInv(s);
  }

  /** In every interleaving each scan accepted since the last reset (ids increase, so no scan is
      listed twice) is either answered, in the order of acceptance, or still queued behind those;
      when the scanner is idle all are answered. */
  lemma AcceptedScansAreResolvedInOrder(s: State)
    requires Reachable(s)
    ensures AcceptedSince(s.history) == AnsweredSince(s.history) + Ids(s.queue)
    ensures Increasing(AcceptedSince(s.history))
    ensures !s.running ==> AcceptedSince(s.history) == AnsweredSince(s.history)
  {
    ReachableInv(s);
    if !s.running {
      assert Ids(s.queue) == [];
    }
  }

  /** A scan's place in the order of acceptance is its id, so increasing ids mean: applied at most
      once, requested at most once, in the order of acceptance. And nothing accepted before a reset,
      a disabling or an unmount is applied after it. */
  lemma AppliedAtMostOnceInOrderAndInTime(s: State)
    requires Reachable(s)
    ensures Increasing(AllApplied(s.history)) && Increasing(AllRequested(s.history)) && Timely(s.history)
  {
    ReachableInv(s);
  }

  /** The answer to a scan made stale by a reset changes nothing but the worker: every scan
      enqueued since stays queued, even one of the same barcode, and the head of the queue is
      requested next. */
  lemma StaleAnswerTakesNothing(s: State, resolved: bool)
    requires Reachable(s) && s.inFlight.Some? && !Current(s)
    ensures var s' := Step(s, Answer(resolved));
      && s'.queue == s.queue
      && AllApplied(s'.history) == AllApplied(s.history)
      && AcceptedSince(s'.history) == AcceptedSince(s.history)
      && s'.inFlight == if s.queue == [] then None else Some(s.queue[0])
  {
    hide AcceptedSince, RequestedSince, AnsweredSince, Fresh, Timely, AllApplied, AllRequested;
    ReachableInv(s);
    PopInv(s);
    var seen := Abandoned(s.inFlight.value.id);
    Appended(s.history, seen);
    if s.queue != [] {
      Appended(s.history + [seen], Requested(s.queue[0].id));
    }
  }

  // ---- The code ----

  class Scanner {
    var queue: seq<Scan>
    var workerRunning: bool
    var inFlight: Option<Scan>
    var epoch: nat
    var mounted: bool
    var enabled: bool
    var blocked: bool
    var resetPending: bool
    var created: nat
    ghost var history: seq<Happening>

    ghost function View(): State
      reads this
    {
      State(queue, workerRunning, inFlight, epoch, mounted, enabled, blocked, resetPending, created, history)
    }

    constructor (enabled: bool, blocked: bool)
      ensures View() == Init(enabled, blocked)
    {
      queue, workerRunning, inFlight, epoch, mounted := [], false, None, 0, true;
      this.enabled, this.blocked, resetPending := enabled, blocked, !enabled;
      created, history := 0, [];
    }

    /** The loop of drainQueue, up to its next await. */
    method DrainUntilAwait()
      modifies this
      ensures View() == Advance(old(View()))
    {
      while |queue| > 0
        invariant Advance(View()) == Advance(old(View()))
        decreases |queue|
      {
        var entry := queue[0];
        if entry.epoch == epoch {
          inFlight := Some(entry);
          history := history + [Requested(entry.id)];
          return;
        }
        queue := Pop(queue, entry);
      }
      workerRunning := false;
      inFlight := None;
    }

    method EnqueueScan(raw: string)
      modifies this
      ensures View() == Step(old(View()), Enqueue(raw))
    {
      if !enabled || blocked {
        return;
      }
      var admission := Admit(queue, raw, epoch, created);
      if admission.Enqueued? {
        queue := admission.queue;
        history := history + [Accepted(created)];
        created := created + 1;
        if !workerRunning {
          workerRunning := true;
          DrainUntilAwait();
        }
      }
    }

    /** The continuation after the await; `resolved` is false when the request threw. */
    method ResumeAfterAwait(resolved: bool)
      requires inFlight.Some?
      modifies this
      ensures View() == Step(old(View()), Answer(resolved))
    {
      var entry := inFlight.value;
      var applied := false;
      if resolved && enabled && CanApply(entry, epoch, blocked) {
        applied := true;
      }
      history := history + [if entry.epoch == epoch then Answered(entry.id, applied) else Abandoned(entry.id)];
      queue := Pop(queue, entry);
      inFlight := None;
      DrainUntilAwait();
    }

    method ResetScans()
      modifies this
      ensures View() == Step(old(View()), Reset)
    {
      epoch := epoch + 1;
      queue := [];
      history := history + [WasReset];
    }

    method RunPendingEffect()
      modifies this
      ensures View() == Step(old(View()), FlushEffects)
    {
      if resetPending {
        ResetScans();
        resetPending := false;
      }
    }

    method RenderProps(enabled: bool, blocked: bool)
      modifies this
      ensures View() == Step(old(View()), Render(enabled, blocked))
    {
      RunPendingEffect();
      if this.enabled && !enabled {
        resetPending := true;
        history := history + [WasDisabled];
      }
      this.enabled, this.blocked := enabled, blocked;
    }

    method CleanUp()
      modifies this
      ensures View() == Step(old(View()), Unmount)
    {
      mounted := false;
      epoch := epoch + 1;
      queue := [];
      history := history + [WasReset];
    }
  }
}

/** The subscription page as a state machine: one actor and company, its mounts one after another,
    and the memory of the last attempt that outlives a mount. Every await is a step boundary; between
    two events the page has rendered, so handlers see the state the event before them left. */
module SubscriptionPage {
  import opened Common
  import opened Delivery
  import opened OptionalModules
  import opened SubscriptionSafety

  // ---- State ----

  /** The continuation of a sent command; `reloading` is the read it awaits after a success. */
  datatype Send = Send(instance: nat, attempt: Attempt, previous: Option<Record>, aborted: bool, open: bool, reloading: Option<nat>)

  /** `record` is the mounted page's recordRef, `memory` the module-level map's entry for this actor
      and company, `settled` the definite outcomes ever recorded, by key. */
  datatype Commands = Commands(record: Option<Record>, memory: Option<Record>, command: Option<nat>,
                               sends: seq<Send>, nextKey: Key, settled: map<Key, Status>)

  /** A read remembers the request number and context revision it started with. */
  datatype Read = Read(instance: nat, requestId: nat, revision: nat, paging: bool, open: bool)

  datatype Reads = Reads(blocked: bool, revision: nat, succeeded: bool, requestId: nat, busy: bool,
                         current: Option<nat>, aborted: set<nat>, all: seq<Read>)

  datatype Snapshot = Snapshot(companyId: string, version: nat)

  /** A plan link: its key identifies the link, its plan may be absent. */
  datatype Intent = Intent(key: string, planId: Option<string>)

  /** The key of a link without plan parameters. */
  const NO_PLAN := "[]"

  datatype Ui = Ui(snapshot: Option<Snapshot>, catalog: Option<seq<Plan>>, selectedPlanId: string, selectionRef: string,
                   selectedDefinition: Option<Option<Plan>>, selectionInitialized: bool, optionalIds: set<string>,
                   review: Option<Review>, acknowledged: bool, observedIntent: string, pendingIntent: Option<Intent>,
                   intentRevision: int, reviewIntentRevision: int)

  /** What an observer sees of reads: started, a mismatch, the latch opened, data stored. */
  datatype Mark = Mounted | Unmounted | Started(read: nat) | Mismatch | Opened(read: nat) | Stored(read: nat)

  datatype Page = Page(companyId: string, instance: nat, mounted: bool, cmd: Commands, rd: Reads, ui: Ui, history: seq<Mark>)

  function Plans(p: Page): seq<Plan> {
    if p.ui.catalog.None? then [] else p.ui.catalog.value
  }

  function SelectedPlan(p: Page): Option<Plan> {
    FindPlan(Plans(p), p.ui.selectedPlanId)
  }

  predicate Protected(p: Page) {
    p.cmd.command.Some? || p.cmd.record.Some?
  }

  // ---- Shared steps ----

  function ClearReview(p: Page): Page {
    p.(ui := p.ui.(review := None, acknowledged := false))
  }

  function SaveRecord(p: Page, next: Option<Record>): Page {
    var settled := if next.Some? && Definite(next.value.status)
                   then p.cmd.settled[next.value.attempt.key := next.value.status] else p.cmd.settled;
    p.(cmd := p.cmd.(record := next, memory := next, settled := settled))
  }

  function BlockContext(p: Page): Page {
    var p' := p.(rd := p.rd.(blocked := true, revision := p.rd.revision + 1, succeeded := false), history := p.history + [Mismatch]);
    if p.cmd.record.None? then ClearReview(p') else p'
  }

  /** `fallback` is the plan of the stored link, consulted when nothing has been chosen yet. */
  function ApplyCatalog(p: Page, plans: seq<Plan>, fallback: string): Page {
    var ui := p.ui;
    var candidate :=
      if ui.pendingIntent.Some? then (if ui.pendingIntent.value.planId.Some? then ui.pendingIntent.value.planId.value else "")
      else if ui.selectionInitialized then ui.selectionRef
      else if p.cmd.record.Some? then p.cmd.record.value.attempt.review.plan.id
      else fallback;
    var resolved := ResolveSelection(plans, candidate);
    var definition := FindPlan(plans, resolved.selectedId);
    var keep := resolved.selectedId == ui.selectionRef && !resolved.missing
                && (ui.selectedDefinition.None? || ui.selectedDefinition.value == definition);
    p.(ui := ui.(review := None, acknowledged := false,
                 optionalIds := if keep then ui.optionalIds else {},
                 selectedDefinition := Some(definition), pendingIntent := None, selectionInitialized := true,
                 selectionRef := resolved.selectedId, selectedPlanId := resolved.selectedId, catalog := Some(plans)))
  }

  // ---- Reads ----

  /** A new read takes the next request number and aborts the one before it. */
  function StartRead(p: Page, paging: bool): Page {
    var rd := p.rd;
    p.(rd := rd.(requestId := rd.requestId + 1, busy := true, current := Some(|rd.all|),
                 succeeded := paging && rd.succeeded,
                 aborted := if rd.current.Some? then rd.aborted + {rd.current.value} else rd.aborted,
                 all := rd.all + [Read(p.instance, rd.requestId + 1, rd.revision, paging, true)]),
       history := p.history + [Started(|rd.all|)])
  }

  function PageCatalog(p: Page): Page {
    if Protected(p) || p.rd.blocked then p else StartRead(ClearReview(p), true)
  }

  /** The newest read of the page that is mounted now, and not aborted. */
  predicate Live(p: Page, t: nat)
    requires t < |p.rd.all|
  {
    p.mounted && p.rd.all[t].instance == p.instance && t !in p.rd.aborted && p.rd.all[t].requestId == p.rd.requestId
  }

  /** Live, and no mismatch has been observed since it started. */
  predicate Fresh(p: Page, t: nat)
    requires t < |p.rd.all|
  {
    Live(p, t) && p.rd.all[t].revision == p.rd.revision
  }

  datatype Result =
    | Loaded(companyId: string, version: nat, plans: seq<Plan>, sameActor: bool, sameScope: bool)
    | Paged(plans: seq<Plan>)
    | ReadFailed(mismatch: bool)

  function StoreLoad(p: Page, t: nat, r: Result, fallback: string): Page
    requires r.Loaded?
  {
    var p' := ApplyCatalog(p.(ui := p.ui.(snapshot := Some(Snapshot(r.companyId, r.version)))), r.plans, fallback);
    p'.(rd := p'.rd.(blocked := false, succeeded := true), history := p'.history + [Stored(t), Opened(t)])
  }

  /** What the answer to a read does before its `finally`. */
  function TakeAnswer(p: Page, t: nat, r: Result, fallback: string): Page
    requires t < |p.rd.all|
  {
    if p.rd.all[t].paging then
      if Live(p, t) && r.Paged? then ApplyCatalog(p, r.plans, fallback).(history := p.history + [Stored(t)]) else p
    else if !Fresh(p, t) then p
    else
      match r
      case Loaded(companyId, _, _, sameActor, sameScope) =>
        if companyId != p.companyId || !sameActor || !sameScope then BlockContext(p) else StoreLoad(p, t, r, fallback)
      case ReadFailed(mismatch) => if mismatch then BlockContext(p) else p
      case Paged(_) => p
  }

  function AnswerRead(p: Page, t: nat, r: Result, fallback: string): Page {
    if t >= |p.rd.all| || !p.rd.all[t].open then p
    else
      var read := p.rd.all[t];
      var p' := TakeAnswer(p, t, r, fallback);
      p'.(rd := p'.rd.(all := p'.rd.all[t := read.(open := false)],
                       busy := p'.rd.busy && !(p'.mounted && read.instance == p'.instance && read.requestId == p'.rd.requestId)))
  }

  /** The snapshot of a load arrives before its catalogue, and already names another company. */
  function EarlySnapshot(p: Page, t: nat, companyId: string): Page {
    if t < |p.rd.all| && p.rd.all[t].open && !p.rd.all[t].paging && Fresh(p, t) && companyId != p.companyId
    then BlockContext(p) else p
  }

  // ---- Choosing ----

  function ChangeRoute(p: Page, intent: Intent, fallback: string): Page {
    if Protected(p) then p.(ui := p.ui.(pendingIntent := None, observedIntent := NO_PLAN))
    else if intent.key == p.ui.observedIntent then p
    else
      var p' := p.(ui := p.ui.(observedIntent := intent.key, intentRevision := p.ui.intentRevision + 1,
                               review := None, acknowledged := false, optionalIds := {}, pendingIntent := Some(intent),
                               selectionRef := "", selectedDefinition := None, selectedPlanId := ""));
      if !p.rd.busy && p.ui.catalog.Some? then ApplyCatalog(p', p.ui.catalog.value, fallback) else p'
  }

  function SelectPlan(p: Page, id: string): Page {
    if Protected(p) || p.rd.blocked then p
    else p.(ui := p.ui.(pendingIntent := None, review := None, acknowledged := false, selectionRef := id,
                        selectedDefinition := Some(FindPlan(Plans(p), id)), selectedPlanId := id, optionalIds := {}))
  }

  ghost function ToggleOption(p: Page, id: string): Page {
    if SelectedPlan(p).None? || Protected(p) || p.rd.blocked then p
    else p.(ui := p.ui.(review := None, acknowledged := false,
                        optionalIds := Toggled(SelectedPlan(p).value.modules, p.ui.optionalIds, id)))
  }

  function Acknowledge(p: Page, checked: bool): Page {
    if p.ui.review.None? || p.cmd.record.Some? || p.rd.blocked then p else p.(ui := p.ui.(acknowledged := checked))
  }

  /** Showing a review; an invalid company id throws after the acknowledgement is cleared. */
  function Submit(p: Page, canManage: bool): Page {
    if p.ui.snapshot.None? || p.ui.snapshot.value.companyId != p.companyId || SelectedPlan(p).None? || p.rd.busy || p.rd.blocked
       || !p.rd.succeeded || Protected(p) || !canManage || SelectedPlan(p).value.id != p.ui.selectionRef then p
    else
      var review := CreateReview(p.companyId, SelectedPlan(p).value, p.ui.optionalIds, p.ui.snapshot.value.version);
      p.(ui := p.ui.(acknowledged := false, reviewIntentRevision := p.ui.intentRevision,
                     review := if review.Some? then review else p.ui.review))
  }

  // ---- Sending ----

  predicate MayConfirm(p: Page, locationKey: string) {
    && p.ui.review.Some? && p.ui.acknowledged && p.ui.snapshot.Some? && SelectedPlan(p).Some?
    && p.rd.succeeded && p.ui.review.value.companyId == p.companyId && p.ui.snapshot.value.companyId == p.companyId
    && locationKey == p.ui.observedIntent
    && p.ui.reviewIntentRevision == p.ui.intentRevision
    && p.ui.review.value.fingerprint
       == Fingerprint(p.companyId, SelectedPlan(p).value, p.ui.optionalIds, p.ui.snapshot.value.version)
  }

  function Dispatch(p: Page, attempt: Attempt): Page {
    var cmd := p.cmd.(command := Some(|p.cmd.sends|),
                      sends := p.cmd.sends + [Send(p.instance, attempt, p.cmd.record, false, true, None)]);
    SaveRecord(p.(cmd := cmd, rd := p.rd.(succeeded := false)), Some(Record(attempt, Sending)))
  }

  function Confirm(p: Page, sameAttempt: bool, canManage: bool, locationKey: string): Page {
    if p.cmd.command.Some? || p.rd.busy || p.rd.blocked || !canManage then p
    else if sameAttempt then
      if p.cmd.record.None? || !p.cmd.record.value.status.Uncertain? then p
      else if !MatchesCompany(p.cmd.record.value.attempt, p.companyId) then BlockContext(p)
      else Dispatch(p, p.cmd.record.value.attempt)
    else if p.cmd.record.Some? then p
    else if !MayConfirm(p, locationKey) then ClearReview(p)
    else Dispatch(p.(cmd := p.cmd.(nextKey := p.cmd.nextKey + 1)), CreateAttempt(p.ui.review.value, p.cmd.nextKey))
  }

  function CloseSend(p: Page, t: nat): Page
    requires t < |p.cmd.sends|
  {
    p.(cmd := p.cmd.(sends := p.cmd.sends[t := p.cmd.sends[t].(open := false)],
                     command := if p.mounted && p.cmd.sends[t].instance == p.instance && p.cmd.command == Some(t) then None
                                else p.cmd.command))
  }

  predicate Awaited(p: Page, t: nat) {
    t < |p.cmd.sends| && p.cmd.sends[t].open && p.cmd.sends[t].reloading.None?
  }

  /** The command returned: record it, forget the link (`onPage`: the location is this page), reload. */
  function SendReturned(p: Page, t: nat, onPage: bool): Page {
    if !Awaited(p, t) then p
    else
      var send := p.cmd.sends[t];
      if !p.mounted || send.instance != p.instance || send.aborted then CloseSend(p, t)
      else
        var p' := SaveRecord(p, Some(Record(send.attempt, Succeeded)));
        var p'' := p'.(ui := p'.ui.(observedIntent := if onPage then NO_PLAN else p'.ui.observedIntent),
                       cmd := p'.cmd.(sends := p'.cmd.sends[t := send.(reloading := Some(|p.rd.all|))]));
        StartRead(p'', false)
  }

  function SendThrew(p: Page, t: nat, cause: Cause): Page {
    if !Awaited(p, t) then p
    else
      var send := p.cmd.sends[t];
      if !p.mounted || send.instance != p.instance then CloseSend(p, t)
      else
        var failure := FailureOf(send.attempt, cause, send.previous);
        var p' := if failure.requiresContextRead then BlockContext(p) else p;
        CloseSend(SaveRecord(p', Some(failure.record)), t)
  }

  /** The reload after a success has come to an end. */
  function SendFinished(p: Page, t: nat): Page {
    if t < |p.cmd.sends| && p.cmd.sends[t].open && p.cmd.sends[t].reloading.Some?
       && p.cmd.sends[t].reloading.value < |p.rd.all| && !p.rd.all[p.cmd.sends[t].reloading.value].open
    then CloseSend(p, t) else p
  }

  function AbortCommand(p: Page): Page {
    if p.cmd.command.Some? && p.cmd.command.value < |p.cmd.sends|
    then p.(cmd := p.cmd.(sends := p.cmd.sends[p.cmd.command.value := p.cmd.sends[p.cmd.command.value].(aborted := true)]))
    else p
  }

  /** Dismissing a recorded outcome to start a new review. */
  function Dismiss(p: Page): Page {
    if p.rd.blocked || p.rd.busy || p.cmd.command.Some? || !p.rd.succeeded || p.cmd.record.None?
       || !MatchesCompany(p.cmd.record.value.attempt, p.companyId)
       || p.cmd.record.value.status.Sending? || p.cmd.record.value.status.Uncertain? then p
    else ClearReview(SaveRecord(p, None))
  }

  // ---- Lifetime ----

  /** The cleanup: a command still being sent is remembered as uncertain, and its wait aborted. */
  function Leave(p: Page): Page {
    if !p.mounted then p
    else
      var memory := if p.cmd.command.Some? && p.cmd.record.Some? && p.cmd.record.value.status.Sending?
                    then Some(p.cmd.record.value.(status := Uncertain)) else p.cmd.memory;
      AbortCommand(p.(mounted := false, cmd := p.cmd.(memory := memory),
                      rd := p.rd.(requestId := p.rd.requestId + 1,
                                  aborted := if p.rd.current.Some? then p.rd.aborted + {p.rd.current.value} else p.rd.aborted),
                      history := p.history + [Unmounted]))
  }

  /** A mount whose first render found `remembered` in the memory. */
  function Enter(p: Page, remembered: Option<Record>, observedIntent: string): Page {
    if p.mounted then p
    else
      Page(p.companyId, p.instance + 1, true,
           p.cmd.(record := remembered, command := None),
           Reads(true, 0, false, 0, true, None, p.rd.aborted, p.rd.all),
           Ui(None, None, "", "", None, false, {}, None, false, observedIntent, None, 0, -1),
           p.history + [Mounted])
  }

  /** A change of key replaces the page: the new one renders, reading the memory, before the old one
      cleans up. */
  function Replace(p: Page, observedIntent: string): Page {
    Enter(Leave(p), p.cmd.memory, observedIntent)
  }

  // ---- Runs ----

  datatype Event =
    | Mount(observedIntent: string)
    | Unmount
    | ChangeKey(observedIntent: string)
    | Load
    | TurnPage
    | ReadAnswered(read: nat, result: Result, fallback: string)
    | SnapshotArrived(read: nat, companyId: string)
    | RouteChanged(intent: Intent, fallback: string)
    | PlanSelected(id: string)
    | OptionToggled(id: string)
    | Acknowledged(checked: bool)
    | ReviewClosed
    | Submitted(canManage: bool)
    | Confirmed(sameAttempt: bool, canManage: bool, locationKey: string)
    | CommandReturned(send: nat, onPage: bool)
    | CommandThrew(send: nat, cause: Cause)
    | CommandFinished(send: nat)
    | WaitCancelled
    | Dismissed

  /** Events of an unmounted page other than the continuations of its awaits do not occur. */
  ghost function Step(p: Page, e: Event): Page {
    match e
    case Mount(intent) => Enter(p, p.cmd.memory, intent)
    case Unmount => Leave(p)
    case ChangeKey(intent) => if p.mounted then Replace(p, intent) else p
    case ReadAnswered(t, r, fallback) => AnswerRead(p, t, r, fallback)
    case SnapshotArrived(t, companyId) => EarlySnapshot(p, t, companyId)
    case CommandReturned(t, onPage) => SendReturned(p, t, onPage)
    case CommandThrew(t, cause) => SendThrew(p, t, cause)
    case CommandFinished(t) => SendFinished(p, t)
    case _ => if !p.mounted then p else HandleStep(p, e)
  }

  /** The handlers of a mounted page. */
  ghost function HandleStep(p: Page, e: Event): Page {
    match e
    case Load => StartRead(p, false)
    case TurnPage => PageCatalog(p)
    case RouteChanged(intent, fallback) => ChangeRoute(p, intent, fallback)
    case PlanSelected(id) => SelectPlan(p, id)
    case OptionToggled(id) => ToggleOption(p, id)
    case Acknowledged(checked) => Acknowledge(p, checked)
    case ReviewClosed => ClearReview(p)
    case Submitted(canManage) => Submit(p, canManage)
    case Confirmed(sameAttempt, canManage, locationKey) => Confirm(p, sameAttempt, canManage, locationKey)
    case WaitCancelled => AbortCommand(p)
    case Dismissed => Dismiss(p)
    case _ => p
  }

  /** Before the first mount. */
  function Start(companyId: string): Page {
    Page(companyId, 0, false, Commands(None, None, None, [], 0, map[]),
         Reads(true, 0, false, 0, true, None, {}, []),
         Ui(None, None, "", "", None, false, {}, None, false, "", None, 0, -1), [])
  }

  ghost function Run(p: Page, events: seq<Event>): Page
    decreases events
  {
    if events == [] then p else Run(Step(p, events[0]), events[1..])
  }

  lemma {:induction false} RunExtend(p: Page, events: seq<Event>, e: Event)
    ensures Run(p, events + [e]) == Step(Run(p, events), e)
    decreases events
  {
    hide Step;
    if events == [] {
      assert events + [e] == [e] && [e][1..] == [];
    } else {
      assert (events + [e])[1..] == events[1..] + [e];
      RunExtend(Step(p, events[0]), events[1..], e);
    }
  }

  // ---- Which steps touch the commands ----

  predicate TouchesCommands(e: Event) {
    e.Mount? || e.Unmount? || e.ChangeKey? || e.Confirmed? || e.CommandReturned? || e.CommandThrew? || e.CommandFinished?
    || e.WaitCancelled? || e.Dismissed?
  }

  lemma OthersKeepCommands(p: Page, e: Event)
    requires !TouchesCommands(e)
    ensures Step(p, e).cmd == p.cmd && Step(p, e).companyId == p.companyId
    ensures Step(p, e).mounted == p.mounted && Step(p, e).instance == p.instance
  {
  }

  lemma OnlyConfirmSends(p: Page, e: Event)
    ensures |Step(p, e).cmd.sends| > |p.cmd.sends| ==> p.mounted && e.Confirmed?
    ensures Step(p, e).companyId == p.companyId
  {
  }
}

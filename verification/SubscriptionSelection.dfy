/** What the subscription page shows is what it would send: the review on screen against the
    current selection, and the options against the plan's dependencies. */
module SubscriptionSelection {
  import opened Common
  import opened OptionalModules
  import opened SubscriptionSafety
  import opened SubscriptionPage

  /** The options are a dependency-closed set of active optional modules of the selected plan, and
      nothing without a plan; the refs beside the state agree with it. */
  ghost predicate OptionsFit(p: Page) {
    && p.ui.selectionRef == p.ui.selectedPlanId
    && (if p.ui.selectedDefinition.Some? then p.ui.selectedDefinition.value == SelectedPlan(p) else p.ui.selectedPlanId == "")
    && (SelectedPlan(p).None? ==> p.ui.optionalIds == {})
    && (SelectedPlan(p).Some? ==> Closed(ById(SelectedPlan(p).value.modules), p.ui.optionalIds))
  }

  ghost predicate ShowsReview(p: Page) {
    p.cmd.record.None? && p.ui.review.Some?
  }

  /** A review shown while no attempt is recorded is of the current company, plan, options and
      subscription version. */
  ghost predicate ReviewFits(p: Page) {
    ShowsReview(p) ==>
      && SelectedPlan(p).Some? && p.ui.snapshot.Some? && p.ui.snapshot.value.companyId == p.companyId
      && p.ui.review == CreateReview(p.companyId, SelectedPlan(p).value, p.ui.optionalIds, p.ui.snapshot.value.version)
  }

  /** Every command ever sent asks for the reviewed plan with a closed set of its optional modules. */
  ghost predicate AttemptFits(companyId: string, a: Attempt) {
    && a.body == Body(companyId, a.review.plan.id, a.review.optionalIds, a.review.version)
    && MatchesCompany(a, companyId)
    && a.review.fingerprint == Fingerprint(companyId, a.review.plan, a.review.optionalIds, a.review.version)
    && Closed(ById(a.review.plan.modules), a.review.optionalIds)
  }

  ghost predicate AttemptsFit(p: Page) {
    && (forall t | 0 <= t < |p.cmd.sends| :: AttemptFits(p.companyId, p.cmd.sends[t].attempt)
          && (p.cmd.sends[t].previous.Some? ==> AttemptFits(p.companyId, p.cmd.sends[t].previous.value.attempt)))
    && (p.cmd.record.Some? ==> AttemptFits(p.companyId, p.cmd.record.value.attempt))
    && (p.cmd.memory.Some? ==> AttemptFits(p.companyId, p.cmd.memory.value.attempt))
  }

  ghost predicate Inv(p: Page) {
    OptionsFit(p) && ReviewFits(p) && AttemptsFit(p)
  }

  lemma SameUi(p: Page, p': Page)
    requires OptionsFit(p) && ReviewFits(p)
    requires p'.ui.(observedIntent := p.ui.observedIntent) == p.ui && p'.companyId == p.companyId && (ShowsReview(p') ==> ShowsReview(p))
    ensures OptionsFit(p') && ReviewFits(p')
  {
  }

  lemma WithoutReview(p: Page, p': Page)
    requires OptionsFit(p)
    requires p'.ui == p.ui.(review := p'.ui.review, acknowledged := p'.ui.acknowledged, snapshot := p'.ui.snapshot)
    ensures OptionsFit(p') && (p'.ui.review.None? ==> ReviewFits(p'))
  {
  }

  lemma ApplyCatalogFits(p: Page, plans: seq<Plan>, fallback: string)
    requires OptionsFit(p)
    ensures OptionsFit(ApplyCatalog(p, plans, fallback)) && ReviewFits(ApplyCatalog(p, plans, fallback))
  {
    FindPlanById(Plans(p), "");
  }

  lemma BlockFits(p: Page)
    requires OptionsFit(p) && ReviewFits(p)
    ensures OptionsFit(BlockContext(p)) && ReviewFits(BlockContext(p))
  {
    WithoutReview(p, BlockContext(p));
  }

  lemma TakeAnswerFits(p: Page, t: nat, r: Result, fallback: string)
    requires OptionsFit(p) && ReviewFits(p) && t < |p.rd.all|
    ensures OptionsFit(TakeAnswer(p, t, r, fallback)) && ReviewFits(TakeAnswer(p, t, r, fallback))
  {
    var p' := TakeAnswer(p, t, r, fallback);
    BlockFits(p);
    match r {
      case Loaded(companyId, version, plans, _, _) =>
        var read := p.(ui := p.ui.(snapshot := Some(Snapshot(companyId, version))));
        WithoutReview(p, read);
        ApplyCatalogFits(read, plans, fallback);
        SameUi(ApplyCatalog(read, plans, fallback), StoreLoad(p, t, r, fallback));
      case Paged(plans) =>
        ApplyCatalogFits(p, plans, fallback);
      case ReadFailed(_) =>
    }
  }

  lemma RouteFits(p: Page, intent: Intent, fallback: string)
    requires OptionsFit(p) && ReviewFits(p)
    ensures OptionsFit(ChangeRoute(p, intent, fallback)) && ReviewFits(ChangeRoute(p, intent, fallback))
  {
    FindPlanById(Plans(p), "");
    if !Protected(p) && intent.key != p.ui.observedIntent && p.ui.catalog.Some? {
      var p' := p.(ui := p.ui.(observedIntent := intent.key, intentRevision := p.ui.intentRevision + 1,
                               review := None, acknowledged := false, optionalIds := {}, pendingIntent := Some(intent),
                               selectionRef := "", selectedDefinition := None, selectedPlanId := ""));
      ApplyCatalogFits(p', p.ui.catalog.value, fallback);
    }
  }

  lemma ChoosingFits(p: Page, e: Event)
    requires OptionsFit(p) && ReviewFits(p) && p.mounted
    requires e.PlanSelected? || e.OptionToggled? || e.Acknowledged? || e.ReviewClosed? || e.Submitted?
    ensures OptionsFit(Step(p, e)) && ReviewFits(Step(p, e))
  {
    match e
    case PlanSelected(id) => FindPlanById(Plans(p), id);
    case OptionToggled(id) =>
      FindPlanById(Plans(p), "");
      if SelectedPlan(p).Some? {
        ToggleKeepsClosed(SelectedPlan(p).value.modules, p.ui.optionalIds, id);
      }
    case Acknowledged(checked) =>
    case ReviewClosed =>
    case Submitted(canManage) =>
  }

  /** Steps that touch the commands leave the selection alone. */
  lemma CommandsFit(p: Page, e: Event)
    requires OptionsFit(p) && ReviewFits(p) && p.mounted
    requires e.Confirmed? || e.Dismissed? || e.WaitCancelled?
    ensures OptionsFit(Step(p, e)) && ReviewFits(Step(p, e))
  {
    var p' := Step(p, e);
    BlockFits(p);
    if p'.ui == p.ui {
      SameUi(p, p');
    } else if p'.ui.review.None? {
      WithoutReview(p, p');
    }
  }

  lemma ReturnFits(p: Page, t: nat, onPage: bool)
    requires OptionsFit(p) && ReviewFits(p)
    ensures OptionsFit(SendReturned(p, t, onPage)) && ReviewFits(SendReturned(p, t, onPage))
  {
    SameUi(p, SendReturned(p, t, onPage));
  }

  lemma ThrowFits(p: Page, t: nat, cause: Cause)
    requires OptionsFit(p) && ReviewFits(p)
    ensures OptionsFit(SendThrew(p, t, cause)) && ReviewFits(SendThrew(p, t, cause))
  {
    var p' := SendThrew(p, t, cause);
    BlockFits(p);
    SameUi(if p'.ui == p.ui then p else BlockContext(p), p');
  }

  lemma LifetimeFits(p: Page, e: Event)
    requires OptionsFit(p) && ReviewFits(p)
    requires e.Mount? || e.Unmount? || e.ChangeKey?
    ensures OptionsFit(Step(p, e)) && ReviewFits(Step(p, e))
  {
    SameUi(p, Leave(p));
  }

  lemma ReadsFit(p: Page, e: Event)
    requires OptionsFit(p) && ReviewFits(p)
    requires e.Load? || e.TurnPage? || e.ReadAnswered? || e.SnapshotArrived?
    ensures OptionsFit(Step(p, e)) && ReviewFits(Step(p, e))
  {
    match e
    case Load => SameUi(p, StartRead(p, false));
    case TurnPage => WithoutReview(p, PageCatalog(p));
    case ReadAnswered(t, r, fallback) =>
      if t < |p.rd.all| && p.rd.all[t].open {
        TakeAnswerFits(p, t, r, fallback);
        SameUi(TakeAnswer(p, t, r, fallback), AnswerRead(p, t, r, fallback));
      }
    case SnapshotArrived(t, companyId) => BlockFits(p);
  }

  lemma FinishFits(p: Page, t: nat)
    requires OptionsFit(p) && ReviewFits(p)
    ensures OptionsFit(SendFinished(p, t)) && ReviewFits(SendFinished(p, t))
  {
    SameUi(p, SendFinished(p, t));
  }

  lemma StepFits(p: Page, e: Event)
    requires OptionsFit(p) && ReviewFits(p)
    ensures OptionsFit(Step(p, e)) && ReviewFits(Step(p, e))
  {
    hide OptionsFit, ReviewFits, Enter, Leave, Replace, AnswerRead, EarlySnapshot, ChangeRoute, SendReturned, SendThrew,
         StartRead, PageCatalog, Confirm, Dismiss, AbortCommand, SelectPlan, ToggleOption, Submit;
    match e
    case Mount(_) => LifetimeFits(p, e);
    case Unmount => LifetimeFits(p, e);
    case ChangeKey(_) => LifetimeFits(p, e);
    case Load => ReadsFit(p, e);
    case TurnPage => ReadsFit(p, e);
    case ReadAnswered(_, _, _) => ReadsFit(p, e);
    case SnapshotArrived(_, _) => ReadsFit(p, e);
    case RouteChanged(intent, fallback) => RouteFits(p, intent, fallback);
    case CommandReturned(t, onPage) => ReturnFits(p, t, onPage);
    case CommandThrew(t, cause) => ThrowFits(p, t, cause);
    case CommandFinished(t) => FinishFits(p, t);
    case Confirmed(_, _, _) => if p.mounted { CommandsFit(p, e); }
    case Dismissed => if p.mounted { CommandsFit(p, e); }
    case WaitCancelled => if p.mounted { CommandsFit(p, e); }
    case _ => if p.mounted { ChoosingFits(p, e); }
  }

  // ---- Attempts ----

  lemma ConfirmKeepsAttempts(p: Page, sameAttempt: bool, canManage: bool, locationKey: string)
    requires Inv(p)
    ensures AttemptsFit(Confirm(p, sameAttempt, canManage, locationKey))
  {
    if !sameAttempt && p.cmd.record.None? && MayConfirm(p, locationKey) {
      assert AttemptFits(p.companyId, CreateAttempt(p.ui.review.value, p.cmd.nextKey));
    }
  }

  /** The sends may lose flags and the record may move on, to attempts that fit. */
  lemma SameAttempts(p: Page, p': Page)
    requires AttemptsFit(p) && p'.companyId == p.companyId && |p'.cmd.sends| == |p.cmd.sends|
    requires forall t | 0 <= t < |p.cmd.sends| ::
      p'.cmd.sends[t].attempt == p.cmd.sends[t].attempt && p'.cmd.sends[t].previous == p.cmd.sends[t].previous
    requires p'.cmd.record.Some? ==> AttemptFits(p.companyId, p'.cmd.record.value.attempt)
    requires p'.cmd.memory.Some? ==> AttemptFits(p.companyId, p'.cmd.memory.value.attempt)
    ensures AttemptsFit(p')
  {
  }

  lemma ReturnKeepsAttempts(p: Page, t: nat, onPage: bool)
    requires AttemptsFit(p)
    ensures AttemptsFit(SendReturned(p, t, onPage))
  {
    hide AttemptFits;
    SameAttempts(p, SendReturned(p, t, onPage));
  }

  lemma ThrowKeepsAttempts(p: Page, t: nat, cause: Cause)
    requires AttemptsFit(p)
    ensures AttemptsFit(SendThrew(p, t, cause))
  {
    hide AttemptFits, IsContextMismatch, Outcome;
    SameAttempts(p, SendThrew(p, t, cause));
  }

  lemma FinishKeepsAttempts(p: Page, t: nat)
    requires AttemptsFit(p)
    ensures AttemptsFit(SendFinished(p, t))
  {
    hide AttemptFits;
    SameAttempts(p, SendFinished(p, t));
  }

  lemma LeaveKeepsAttempts(p: Page)
    requires AttemptsFit(p)
    ensures AttemptsFit(Leave(p)) && AttemptsFit(AbortCommand(p)) && Leave(p).companyId == p.companyId
  {
    hide AttemptFits;
    SameAttempts(p, AbortCommand(p));
    SameAttempts(p, Leave(p));
  }

  lemma LifetimeKeepsAttempts(p: Page, e: Event)
    requires AttemptsFit(p)
    requires e.Mount? || e.Unmount? || e.ChangeKey? || e.WaitCancelled? || e.Dismissed?
    ensures AttemptsFit(Step(p, e))
  {
    hide AttemptFits;
    LeaveKeepsAttempts(p);
    match e
    case Mount(intent) => SameAttempts(p, Enter(p, p.cmd.memory, intent));
    case Unmount =>
    case ChangeKey(intent) => SameAttempts(Leave(p), Replace(p, intent));
    case WaitCancelled =>
    case Dismissed => SameAttempts(p, Dismiss(p));
  }

  lemma StepKeepsAttempts(p: Page, e: Event)
    requires Inv(p)
    ensures AttemptsFit(Step(p, e))
  {
    hide AttemptFits, Confirm, SendReturned, SendThrew, SendFinished, Enter, Leave, Replace, AbortCommand, Dismiss;
    match e
    case Confirmed(sameAttempt, canManage, locationKey) => ConfirmKeepsAttempts(p, sameAttempt, canManage, locationKey);
    case CommandReturned(t, onPage) => ReturnKeepsAttempts(p, t, onPage);
    case CommandThrew(t, cause) => ThrowKeepsAttempts(p, t, cause);
    case CommandFinished(t) => FinishKeepsAttempts(p, t);
    case _ => if TouchesCommands(e) { LifetimeKeepsAttempts(p, e); } else { OthersKeepCommands(p, e); }
  }

  lemma StepKeepsInv(p: Page, e: Event)
    requires Inv(p)
    ensures Inv(Step(p, e))
  {
    StepFits(p, e);
    StepKeepsAttempts(p, e);
  }

  lemma {:induction false} RunKeepsInv(p: Page, events: seq<Event>)
    requires Inv(p)
    ensures Inv(Run(p, events))
    decreases events
  {
    if events != [] {
      StepKeepsInv(p, events[0]);
      RunKeepsInv(Step(p, events[0]), events[1..]);
    }
  }

  /** Over every run of selecting, toggling, paging, reloading, link changes, sending and remounting:
      the options are closed, a shown review is of what is selected now, and every command ever sent
      asked for a closed set of active optional modules of its plan, for this company. */
  lemma ShownIsCurrent(companyId: string, events: seq<Event>)
    ensures var p := Run(Start(companyId), events); OptionsFit(p) && ReviewFits(p) && AttemptsFit(p)
  {
    RunKeepsInv(Start(companyId), events);
  }

  /** The newest send carries exactly what the page showed before it, with the latch open, the last read
      succeeded, the review acknowledged and the link unchanged since the review. */
  ghost predicate SendsWhatIsShown(p: Page, p': Page) {
    && |p'.cmd.sends| > |p.cmd.sends| && SelectedPlan(p).Some? && p.ui.snapshot.Some?
    && var attempt := p'.cmd.sends[|p.cmd.sends|].attempt;
    && attempt.body == Body(p.companyId, SelectedPlan(p).value.id, p.ui.optionalIds, p.ui.snapshot.value.version)
    && attempt.key == p.cmd.nextKey
    && !p.rd.blocked && !p.rd.busy && p.rd.succeeded && p.ui.acknowledged
    && p.ui.reviewIntentRevision == p.ui.intentRevision
  }

  /** A first send is of what is shown. */
  lemma FirstSendIsWhatIsShown(companyId: string, events: seq<Event>, e: Event)
    ensures var p := Run(Start(companyId), events);
      |Step(p, e).cmd.sends| > |p.cmd.sends| && p.cmd.record.None? ==> SendsWhatIsShown(p, Step(p, e))
    ensures Run(Start(companyId), events).companyId == companyId
  {
    RunKeepsCompany(Start(companyId), events);
    RunKeepsInv(Start(companyId), events);
    var p := Run(Start(companyId), events);
    OnlyConfirmSends(p, e);
  }

  lemma {:induction false} RunKeepsCompany(p: Page, events: seq<Event>)
    ensures Run(p, events).companyId == p.companyId
    decreases events
  {
    if events != [] {
      OnlyConfirmSends(p, events[0]);
      RunKeepsCompany(Step(p, events[0]), events[1..]);
    }
  }
}

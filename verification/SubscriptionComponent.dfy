/** The subscription page's own code: refs and state updated step by step, each handler and each
    continuation proved to be the step of the state machine that the properties are about. */
module SubscriptionComponent {
  import opened Common
  import opened Delivery
  import opened OptionalModules
  import opened SubscriptionSafety
  import Latch = SubscriptionLatch
  import P = SubscriptionPage
  import Reads = SubscriptionReads
  import Selection = SubscriptionSelection

  class SubscriptionBody {
    const companyId: string
    var instance: nat
    var mounted: bool
    // the refs of the command protocol, with the module-level memory; of the reads; the state shown
    var cmd: P.Commands
    var rd: P.Reads
    var ui: P.Ui
    ghost var history: seq<P.Mark>
    // what has happened to the page so far
    ghost var events: seq<P.Event>

    ghost function View(): P.Page
      reads this
    {
      P.Page(companyId, instance, mounted, cmd, rd, ui, history)
    }

    /** The fields are what a run of the state machine makes of them, so all that holds of runs holds here. */
    ghost predicate Valid()
      reads this
    {
      View() == P.Run(P.Start(companyId), events)
    }

    constructor (companyId: string)
      ensures View() == P.Start(companyId) && events == [] && Valid()
    {
      events := [];
      this.companyId, instance, mounted := companyId, 0, false;
      cmd, rd, ui, history := P.Start(companyId).cmd, P.Start(companyId).rd, P.Start(companyId).ui, [];
    }

    // ---- Shared steps ----

    method SaveRecord(next: Option<Record>)
      modifies `cmd, `rd, `ui, `history
      ensures View() == P.SaveRecord(old(View()), next)
    {
      cmd := cmd.(record := next);
      cmd := cmd.(memory := next);
      if next.Some? && Definite(next.value.status) {
        cmd := cmd.(settled := cmd.settled[next.value.attempt.key := next.value.status]);
      }
    }

    method ClearReview()
      modifies `cmd, `rd, `ui, `history
      ensures View() == P.ClearReview(old(View()))
    {
      ui := ui.(review := None);
      ui := ui.(acknowledged := false);
    }

    method BlockContext()
      modifies `cmd, `rd, `ui, `history
      ensures View() == P.BlockContext(old(View()))
    {
      rd := rd.(blocked := true);
      rd := rd.(revision := rd.revision + 1);
      rd := rd.(succeeded := false);
      history := history + [P.Mismatch];
      if cmd.record.None? {
        ClearReview();
      }
    }

    method ApplyCatalog(plans: seq<Plan>, fallback: string)
      modifies `cmd, `rd, `ui, `history
      ensures View() == P.ApplyCatalog(old(View()), plans, fallback)
    {
      ClearReview();
      var candidate := fallback;
      if ui.pendingIntent.Some? {
        candidate := if ui.pendingIntent.value.planId.Some? then ui.pendingIntent.value.planId.value else "";
      } else if ui.selectionInitialized {
        candidate := ui.selectionRef;
      } else if cmd.record.Some? {
        candidate := cmd.record.value.attempt.review.plan.id;
      }
      var resolved := ResolveSelection(plans, candidate);
      var definition := FindPlan(plans, resolved.selectedId);
      if resolved.selectedId != ui.selectionRef || resolved.missing
         || (ui.selectedDefinition.Some? && ui.selectedDefinition.value != definition) {
        ui := ui.(optionalIds := {});
      }
      ui := ui.(selectedDefinition := Some(definition));
      ui := ui.(pendingIntent := None);
      ui := ui.(selectionInitialized := true);
      ui := ui.(selectionRef := resolved.selectedId);
      ui := ui.(selectedPlanId := resolved.selectedId);
      ui := ui.(catalog := Some(plans));
    }

    // ---- Reads ----

    /** The synchronous start of load, and of pageCatalog after its guard. */
    method StartRead(paging: bool)
      modifies `cmd, `rd, `ui, `history
      ensures View() == P.StartRead(old(View()), paging)
    {
      rd := rd.(requestId := rd.requestId + 1);
      if rd.current.Some? {
        rd := rd.(aborted := rd.aborted + {rd.current.value});
      }
      rd := rd.(current := Some(|rd.all|));
      history := history + [P.Started(|rd.all|)];
      rd := rd.(all := rd.all + [P.Read(instance, rd.requestId, rd.revision, paging, true)]);
      rd := rd.(busy := true);
      if !paging {
        rd := rd.(succeeded := false);
      }
    }

    method PageCatalog()
      modifies `cmd, `rd, `ui, `history
      ensures View() == P.PageCatalog(old(View()))
    {
      if cmd.command.Some? || cmd.record.Some? || rd.blocked {
        return;
      }
      ClearReview();
      StartRead(true);
    }

    method StoreLoad(t: nat, r: P.Result, fallback: string)
      requires r.Loaded?
      modifies `cmd, `rd, `ui, `history
      ensures View() == P.StoreLoad(old(View()), t, r, fallback)
    {
      ui := ui.(snapshot := Some(P.Snapshot(r.companyId, r.version)));
      ApplyCatalog(r.plans, fallback);
      rd := rd.(blocked := false);
      rd := rd.(succeeded := true);
      history := history + [P.Stored(t), P.Opened(t)];
    }

    /** The continuation of either read, before its `finally`. */
    method TakeAnswer(t: nat, r: P.Result, fallback: string)
      requires t < |rd.all|
      modifies `cmd, `rd, `ui, `history
      ensures View() == P.TakeAnswer(old(View()), t, r, fallback)
    {
      var entry := rd.all[t];
      var live := mounted && entry.instance == instance && t !in rd.aborted && entry.requestId == rd.requestId;
      if entry.paging {
        if live && r.Paged? {
          ApplyCatalog(r.plans, fallback);
          history := history + [P.Stored(t)];
        }
      } else if live && entry.revision == rd.revision {
        match r {
          case Loaded(company, _, _, sameActor, sameScope) =>
            if company != companyId || !sameActor || !sameScope {
              BlockContext();
            } else {
              StoreLoad(t, r, fallback);
            }
          case ReadFailed(mismatch) =>
            if mismatch {
              BlockContext();
            }
          case Paged(_) =>
        }
      }
    }

    method ReadAnswered(t: nat, r: P.Result, fallback: string)
      modifies `cmd, `rd, `ui, `history
      ensures View() == P.AnswerRead(old(View()), t, r, fallback)
    {
      if t >= |rd.all| || !rd.all[t].open {
        return;
      }
      var entry := rd.all[t];
      TakeAnswer(t, r, fallback);
      rd := rd.(all := rd.all[t := entry.(open := false)]);
      if mounted && entry.instance == instance && entry.requestId == rd.requestId {
        rd := rd.(busy := false);
      }
    }

    method SnapshotArrived(t: nat, company: string)
      modifies `cmd, `rd, `ui, `history
      ensures View() == P.EarlySnapshot(old(View()), t, company)
    {
      if t < |rd.all| && rd.all[t].open && !rd.all[t].paging
         && mounted && rd.all[t].instance == instance && t !in rd.aborted && rd.all[t].requestId == rd.requestId
         && rd.all[t].revision == rd.revision && company != companyId {
        BlockContext();
      }
    }

    // ---- Choosing ----

    method OnPlanRouteChange(intent: P.Intent, fallback: string)
      modifies `cmd, `rd, `ui, `history
      ensures View() == P.ChangeRoute(old(View()), intent, fallback)
    {
      if cmd.command.Some? || cmd.record.Some? {
        ui := ui.(pendingIntent := None);
        ui := ui.(observedIntent := P.NO_PLAN);
        return;
      }
      if intent.key == ui.observedIntent {
        return;
      }
      ui := ui.(observedIntent := intent.key);
      ui := ui.(intentRevision := ui.intentRevision + 1);
      ClearReview();
      ui := ui.(optionalIds := {});
      ui := ui.(pendingIntent := Some(intent));
      ui := ui.(selectionRef := "", selectedDefinition := None, selectedPlanId := "");
      if !rd.busy && ui.catalog.Some? {
        ApplyCatalog(ui.catalog.value, fallback);
      }
    }

    method SelectPlan(id: string)
      modifies `cmd, `rd, `ui, `history
      ensures View() == P.SelectPlan(old(View()), id)
    {
      if cmd.command.Some? || cmd.record.Some? || rd.blocked {
        return;
      }
      ui := ui.(pendingIntent := None);
      ClearReview();
      ui := ui.(selectionRef := id);
      ui := ui.(selectedDefinition := Some(FindPlan(if ui.catalog.None? then [] else ui.catalog.value, id)));
      ui := ui.(selectedPlanId := id);
      ui := ui.(optionalIds := {});
    }

    method ToggleOption(id: string)
      modifies `cmd, `rd, `ui, `history
      ensures View() == P.ToggleOption(old(View()), id)
    {
      var selectedPlan := FindPlan(if ui.catalog.None? then [] else ui.catalog.value, ui.selectedPlanId);
      if selectedPlan.None? || cmd.command.Some? || cmd.record.Some? || rd.blocked {
        return;
      }
      ClearReview();
      var next := ToggleOptional(selectedPlan.value.modules, ui.optionalIds, id);
      ui := ui.(optionalIds := next);
    }

    method Acknowledge(checked: bool)
      modifies `cmd, `rd, `ui, `history
      ensures View() == P.Acknowledge(old(View()), checked)
    {
      if ui.review.None? || cmd.record.Some? || rd.blocked {
        return;
      }
      ui := ui.(acknowledged := checked);
    }

    method Submit(canManage: bool)
      modifies `cmd, `rd, `ui, `history
      ensures View() == P.Submit(old(View()), canManage)
    {
      var selectedPlan := FindPlan(if ui.catalog.None? then [] else ui.catalog.value, ui.selectedPlanId);
      if ui.snapshot.None? || ui.snapshot.value.companyId != companyId || selectedPlan.None? || rd.busy || rd.blocked
         || !rd.succeeded || cmd.command.Some? || cmd.record.Some? || !canManage {
        return;
      }
      if selectedPlan.value.id != ui.selectionRef {
        return;
      }
      ui := ui.(acknowledged := false);
      ui := ui.(reviewIntentRevision := ui.intentRevision);
      var created := CreateReview(companyId, selectedPlan.value, ui.optionalIds, ui.snapshot.value.version);
      if created.Some? {
        ui := ui.(review := created);
      }
    }

    // ---- Sending ----

    /** confirm, up to its await. */
    method Confirm(sameAttempt: bool, canManage: bool, locationKey: string)
      modifies `cmd, `rd, `ui, `history
      ensures View() == P.Confirm(old(View()), sameAttempt, canManage, locationKey)
    {
      if cmd.command.Some? || rd.busy || rd.blocked || !canManage {
        return;
      }
      var previous := cmd.record;
      if sameAttempt && (previous.None? || !previous.value.status.Uncertain?) {
        return;
      }
      if !sameAttempt && previous.Some? {
        return;
      }
      if sameAttempt && !MatchesCompany(previous.value.attempt, companyId) {
        BlockContext();
        return;
      }
      var selectedPlan := FindPlan(if ui.catalog.None? then [] else ui.catalog.value, ui.selectedPlanId);
      if !sameAttempt && (ui.review.None? || !ui.acknowledged || ui.snapshot.None? || selectedPlan.None?
          || !rd.succeeded || ui.review.value.companyId != companyId || ui.snapshot.value.companyId != companyId
          || locationKey != ui.observedIntent || ui.reviewIntentRevision != ui.intentRevision
          || ui.review.value.fingerprint != Fingerprint(companyId, selectedPlan.value, ui.optionalIds, ui.snapshot.value.version)) {
        ClearReview();
        return;
      }
      var attempt: Attempt;
      if sameAttempt {
        attempt := previous.value.attempt;
      } else {
        attempt := CreateAttempt(ui.review.value, cmd.nextKey);
        cmd := cmd.(nextKey := cmd.nextKey + 1);
      }
      cmd := cmd.(command := Some(|cmd.sends|));
      cmd := cmd.(sends := cmd.sends + [P.Send(instance, attempt, previous, false, true, None)]);
      SaveRecord(Some(Record(attempt, Sending)));
      rd := rd.(succeeded := false);
    }

    /** The `finally` of confirm. */
    method FinallyOf(t: nat)
      requires t < |cmd.sends|
      modifies `cmd, `rd, `ui, `history
      ensures View() == P.CloseSend(old(View()), t)
    {
      if mounted && cmd.sends[t].instance == instance && cmd.command == Some(t) {
        cmd := cmd.(command := None);
      }
      cmd := cmd.(sends := cmd.sends[t := cmd.sends[t].(open := false)]);
    }

    method CommandReturned(t: nat, onPage: bool)
      modifies `cmd, `rd, `ui, `history
      ensures View() == P.SendReturned(old(View()), t, onPage)
    {
      if t >= |cmd.sends| || !cmd.sends[t].open || cmd.sends[t].reloading.Some? {
        return;
      }
      var send := cmd.sends[t];
      if !mounted || send.instance != instance || send.aborted {
        FinallyOf(t);
        return;
      }
      SaveRecord(Some(Record(send.attempt, Succeeded)));
      if onPage {
        ui := ui.(observedIntent := P.NO_PLAN);
      }
      cmd := cmd.(sends := cmd.sends[t := send.(reloading := Some(|rd.all|))]);
      StartRead(false);
    }

    method CommandThrew(t: nat, cause: Cause)
      modifies `cmd, `rd, `ui, `history
      ensures View() == P.SendThrew(old(View()), t, cause)
    {
      if t >= |cmd.sends| || !cmd.sends[t].open || cmd.sends[t].reloading.Some? {
        return;
      }
      var send := cmd.sends[t];
      if mounted && send.instance == instance {
        var failure := FailureOf(send.attempt, cause, send.previous);
        if failure.requiresContextRead {
          BlockContext();
        }
        SaveRecord(Some(failure.record));
      }
      FinallyOf(t);
    }

    method CommandFinished(t: nat)
      modifies `cmd, `rd, `ui, `history
      ensures View() == P.SendFinished(old(View()), t)
    {
      if t < |cmd.sends| && cmd.sends[t].open && cmd.sends[t].reloading.Some?
         && cmd.sends[t].reloading.value < |rd.all| && !rd.all[cmd.sends[t].reloading.value].open {
        FinallyOf(t);
      }
    }

    method AbortCommand()
      modifies `cmd, `rd, `ui, `history
      ensures View() == P.AbortCommand(old(View()))
    {
      if cmd.command.Some? && cmd.command.value < |cmd.sends| {
        cmd := cmd.(sends := cmd.sends[cmd.command.value := cmd.sends[cmd.command.value].(aborted := true)]);
      }
    }

    method NewReview()
      modifies `cmd, `rd, `ui, `history
      ensures View() == P.Dismiss(old(View()))
    {
      if rd.blocked || rd.busy || cmd.command.Some? || !rd.succeeded || cmd.record.None?
         || !MatchesCompany(cmd.record.value.attempt, companyId)
         || cmd.record.value.status.Sending? || cmd.record.value.status.Uncertain? {
        return;
      }
      SaveRecord(None);
      ClearReview();
    }

    // ---- Lifetime ----

    method Unmount()
      modifies `instance, `mounted, `cmd, `rd, `ui, `history
      ensures View() == P.Leave(old(View()))
    {
      if !mounted {
        return;
      }
      mounted := false;
      rd := rd.(requestId := rd.requestId + 1);
      if rd.current.Some? {
        rd := rd.(aborted := rd.aborted + {rd.current.value});
      }
      if cmd.command.Some? && cmd.record.Some? && cmd.record.value.status.Sending? {
        cmd := cmd.(memory := Some(cmd.record.value.(status := Uncertain)));
      }
      AbortCommand();
      history := history + [P.Unmounted];
    }

    /** A new mount whose first render read `found` from the memory. */
    method Mount(found: Option<Record>, observedIntent: string)
      modifies `instance, `mounted, `cmd, `rd, `ui, `history
      ensures View() == P.Enter(old(View()), found, observedIntent)
    {
      if mounted {
        return;
      }
      instance, mounted := instance + 1, true;
      cmd := cmd.(record := found, command := None);
      rd := rd.(blocked := true, revision := 0, succeeded := false, requestId := 0, busy := true, current := None);
      ui := ui.(snapshot := None, catalog := None, selectedPlanId := "", selectionRef := "", selectedDefinition := None);
      ui := ui.(selectionInitialized := false, optionalIds := {}, review := None, acknowledged := false);
      ui := ui.(observedIntent := observedIntent, pendingIntent := None, intentRevision := 0, reviewIntentRevision := -1);
      history := history + [P.Mounted];
    }

    /** A change of key: the new page renders before the old one cleans up. */
    method Replace(observedIntent: string)
      modifies `instance, `mounted, `cmd, `rd, `ui, `history
      ensures View() == P.Replace(old(View()), observedIntent)
    {
      var found := cmd.memory;
      Unmount();
      Mount(found, observedIntent);
    }

    // ---- Every event ----

    /** The handlers of a mounted page. */
    method HandleMounted(e: P.Event)
      requires mounted
      modifies `cmd, `rd, `ui, `history
      ensures View() == P.HandleStep(old(View()), e)
    {
      hide P.StartRead, P.PageCatalog, P.ChangeRoute, P.SelectPlan, P.ToggleOption, P.ClearReview, P.Submit, P.Confirm,
           P.AbortCommand, P.Dismiss;
      match e {
        case Load => StartRead(false);
        case TurnPage => PageCatalog();
        case RouteChanged(intent, fallback) => OnPlanRouteChange(intent, fallback);
        case PlanSelected(id) => SelectPlan(id);
        case OptionToggled(id) => ToggleOption(id);
        case Acknowledged(checked) => Acknowledge(checked);
        case ReviewClosed => ClearReview();
        case Submitted(canManage) => Submit(canManage);
        case Confirmed(sameAttempt, canManage, locationKey) => Confirm(sameAttempt, canManage, locationKey);
        case WaitCancelled => AbortCommand();
        case Dismissed => NewReview();
        case _ =>
      }
    }

    /** One event, by the code that handles it. */
    method Dispatch(e: P.Event)
      modifies `instance, `mounted, `cmd, `rd, `ui, `history
      ensures View() == P.Step(old(View()), e)
    {
      hide P.Enter, P.Leave, P.Replace, P.AnswerRead, P.EarlySnapshot, P.SendReturned, P.SendThrew, P.SendFinished, P.HandleStep;
      match e {
        case Mount(intent) => Mount(cmd.memory, intent);
        case Unmount => Unmount();
        case ChangeKey(intent) =>
          if mounted {
            Replace(intent);
          }
        case ReadAnswered(t, r, fallback) => ReadAnswered(t, r, fallback);
        case SnapshotArrived(t, company) => SnapshotArrived(t, company);
        case CommandReturned(t, onPage) => CommandReturned(t, onPage);
        case CommandThrew(t, cause) => CommandThrew(t, cause);
        case CommandFinished(t) => CommandFinished(t);
        case _ =>
          if mounted {
            HandleMounted(e);
          }
      }
    }

    /** The page's life: whatever happens next, what is shown is what the answers stored since the mount told, the
        options stay a closed set of the selected plan, a shown review stays current, the latch is open only by the
        newest clean read, and a first send carries what the page showed, and so what it was told. */
    method Handle(e: P.Event)
      requires Valid()
      modifies this
      ensures View() == P.Step(old(View()), e) && events == old(events) + [e] && Valid()
      ensures Reads.Shown(View()) == Reads.Told(P.Start(companyId), events)
      ensures Selection.OptionsFit(View()) && Selection.ReviewFits(View()) && Selection.AttemptsFit(View())
      ensures Latch.Orderly(history) && (mounted ==> (!rd.blocked <==> Latch.OpenedSince(history)))
      ensures |cmd.sends| > old(|cmd.sends|) && old(cmd.record).None? ==>
        Selection.SendsWhatIsShown(old(View()), View())
        && Reads.SendsWhatWasTold(old(View()), View(), Reads.Told(P.Start(companyId), old(events)))
    {
      hide P.Run, P.Step;
      hide Selection.OptionsFit, Selection.ReviewFits, Selection.AttemptsFit, Selection.SendsWhatIsShown;
      hide Latch.Orderly, Latch.OpenedSince, Reads.Told, Reads.SendsWhatWasTold, Reads.Shown;
      Selection.FirstSendIsWhatIsShown(companyId, events, e);
      Reads.FirstSendIsWhatWasTold(companyId, events, e);
      P.RunExtend(P.Start(companyId), events, e);
      Dispatch(e);
      events := events + [e];
      Reads.ShowsWhatItWasTold(companyId, events);
      Selection.ShownIsCurrent(companyId, events);
      Latch.LatchFollowsHistory(companyId, events);
    }
  }
}

/** What comes of choosing a plan on the subscription page, reviewing and confirming it, up to the server's answer. */
module SubscriptionOrders {
  import opened Common
  import opened OptionalModules
  import opened SubscriptionEffects
  import opened SubscriptionPage
  import opened SubscriptionSafety
  import D = Delivery
  import Latch = SubscriptionLatch
  import Protocol = SubscriptionProtocol
  import Selection = SubscriptionSelection

  // ---- From choosing to sending ----

  /** The options a user ends up with who toggles these, one after another, from none. */
  ghost function Chosen(modules: seq<Module>, from: set<string>, toggles: seq<string>): set<string>
    decreases toggles
  {
    if toggles == [] then from else Chosen(modules, Toggled(modules, from, toggles[0]), toggles[1..])
  }

  function Toggling(toggles: seq<string>): seq<Event> {
    seq(|toggles|, i requires 0 <= i < |toggles| => OptionToggled(toggles[i]))
  }

  lemma {:induction false} TogglingChooses(p: Page, toggles: seq<string>)
    requires p.mounted && !Locked(p) && SelectedPlan(p).Some? && ReviewIsGone(p) && p.ui.pendingIntent.None?
    ensures var p' := Run(p, Toggling(toggles));
      && SameButChoice(p, p') && ReviewIsGone(p') && p'.ui.selectedPlanId == p.ui.selectedPlanId && p'.ui.pendingIntent.None?
      && p'.ui.optionalIds == Chosen(SelectedPlan(p).value.modules, p.ui.optionalIds, toggles)
    decreases toggles
  {
    if toggles != [] {
      var e := OptionToggled(toggles[0]);
      TogglingAnOption(p, toggles[0]);
      hide Step;
      assert Toggling(toggles)[0] == e && Toggling(toggles)[1..] == Toggling(toggles[1..]);
      TogglingChooses(Step(p, e), toggles[1..]);
    }
  }

  lemma {:induction false} RunConcat(p: Page, events: seq<Event>, more: seq<Event>)
    ensures Run(p, events + more) == Run(Run(p, events), more)
    decreases events
  {
    hide Step;
    if events == [] {
      assert events + more == more;
    } else {
      assert (events + more)[1..] == events[1..] + more;
      RunConcat(Step(p, events[0]), events[1..], more);
    }
  }

  lemma RunThree(p: Page, first: Event, second: Event, third: Event)
    ensures Run(p, [first, second, third]) == Step(Step(Step(p, first), second), third)
  {
    hide Step;
    var events := [first, second, third];
    assert events[1..] == [second, third] && [second, third][1..] == [third] && [third][1..] == [];
    assert Run(p, events) == Run(Step(p, first), [second, third]) == Run(Step(Step(p, first), second), [third]);
    assert Run(Step(Step(p, first), second), [third]) == Run(Step(Step(Step(p, first), second), third), []);
  }

  lemma RunFirst(p: Page, e: Event, events: seq<Event>)
    ensures Run(p, [e] + events) == Run(Step(p, e), events)
  {
    assert ([e] + events)[1..] == events;
  }

  /** Reviewing, acknowledging and confirming. */
  function Confirming(locationKey: string): seq<Event> {
    [Submitted(true), Acknowledged(true), Confirmed(false, true, locationKey)]
  }

  /** A page on which the user can choose: shown and read, with nothing under way. */
  predicate IsReady(p: Page) {
    && p.mounted && !Locked(p) && !p.rd.busy && p.rd.succeeded
    && ValidCompanyId(p.companyId) && p.ui.snapshot.Some? && p.ui.snapshot.value.companyId == p.companyId
  }

  ghost predicate SendsChoice(p: Page, p': Page, planId: string, options: set<string>)
    requires p.ui.snapshot.Some?
  {
    && |p'.cmd.sends| == |p.cmd.sends| + 1 && Awaited(p', |p.cmd.sends|) && p'.cmd.command == Some(|p.cmd.sends|)
    && p'.cmd.record == p'.cmd.memory == Some(Record(p'.cmd.sends[|p.cmd.sends|].attempt, Sending))
    && p'.cmd.sends[|p.cmd.sends|].attempt.key == p.cmd.nextKey
    && p'.cmd.sends[|p.cmd.sends|].attempt.body == Body(p.companyId, planId, options, p.ui.snapshot.value.version)
  }

  /** Events that leave the commands alone lead from reached pages to reached pages. */
  lemma StaysReached(p: Page, e: Event)
    requires Reached(p) && !TouchesCommands(e)
    ensures Reached(Step(p, e))
  {
    Selection.StepKeepsInv(p, e);
    OthersKeepCommands(p, e);
    Protocol.SameCommandsOf(p, Step(p, e));
    hide Selection.Inv, Protocol.PageInv, Step;
    Protocol.SameCommandsKeepInv(p, Step(p, e));
  }

  lemma {:induction false} StaysReachedOverRun(p: Page, events: seq<Event>)
    requires Reached(p) && forall e | e in events :: !TouchesCommands(e)
    ensures Reached(Run(p, events))
    decreases events
  {
    hide Reached, Step;
    if events != [] {
      StaysReached(p, events[0]);
      StaysReachedOverRun(Step(p, events[0]), events[1..]);
    }
  }

  lemma OptionsOfReached(p: Page)
    requires Reached(p)
    ensures Selection.OptionsFit(p)
  {
  }

  lemma ConfirmingSendsTheChoice(p: Page)
    requires Reached(p) && IsReady(p) && SelectedPlan(p).Some?
    ensures SendsChoice(p, Run(p, Confirming(p.ui.observedIntent)), SelectedPlan(p).value.id, p.ui.optionalIds)
  {
    var first, second, third := Submitted(true), Acknowledged(true), Confirmed(false, true, p.ui.observedIntent);
    var p1 := Step(p, first);
    var p2 := Step(p1, second);
    OptionsOfReached(p);
    hide Step, Reached, Run, Selection.OptionsFit;
    ReviewingIsAllowedIff(p, true);
    Acknowledging(p1, true);
    StaysReached(p, first);
    StaysReached(p1, second);
    ConfirmingSendsIff(p2, true, p.ui.observedIntent);
    RunThree(p, first, second, third);
  }

  /** Choosing a plan and options, reviewing, acknowledging and confirming. */
  function Ordering(id: string, toggles: seq<string>, locationKey: string): seq<Event> {
    [PlanSelected(id)] + (Toggling(toggles) + Confirming(locationKey))
  }

  /** From any ready page: whoever selects a plan of the catalogue, toggles any options, reviews, acknowledges and
      confirms sends one command, under a fresh key, for just that plan with just those options, at the version
      loaded last; it is remembered while it is on its way. */
  lemma WhatIsChosenIsSent(p: Page, id: string, toggles: seq<string>)
    requires Reached(p) && IsReady(p) && FindPlan(Plans(p), id).Some?
    ensures SendsChoice(p, Run(p, Ordering(id, toggles, p.ui.observedIntent)), id,
      Chosen(FindPlan(Plans(p), id).value.modules, {}, toggles))
  {
    hide Step, Reached, Run, Locked, Chosen, SendsChoice, Toggled, Toggling, Confirming;
    FindPlanById(Plans(p), id);
    SelectingAPlan(p, id);
    StaysReached(p, PlanSelected(id));
    var p1 := Step(p, PlanSelected(id));
    SelectedIsReady(p, p1);
    TogglingChooses(p1, toggles);
    TogglingIsChoosing(toggles);
    StaysReachedOverRun(p1, Toggling(toggles));
    var p2 := Run(p1, Toggling(toggles));
    SelectedIsReady(p1, p2);
    ConfirmingSendsTheChoice(p2);
    RunConcat(p1, Toggling(toggles), Confirming(p.ui.observedIntent));
    RunFirst(p, PlanSelected(id), Toggling(toggles) + Confirming(p.ui.observedIntent));
    SameOrder(p, p2, Run(p2, Confirming(p.ui.observedIntent)), id, p2.ui.optionalIds);
  }

  lemma SelectedIsReady(p: Page, p': Page)
    requires IsReady(p) && SameButChoice(p, p')
    ensures IsReady(p') && Plans(p') == Plans(p) && (Locked(p') <==> Locked(p)) && !Locked(p')
  {
  }

  lemma TogglingIsChoosing(toggles: seq<string>)
    ensures forall e | e in Toggling(toggles) :: !TouchesCommands(e)
  {
  }

  lemma SameOrder(p: Page, p2: Page, p': Page, id: string, options: set<string>)
    requires SameButChoice(p, p2) && p.ui.snapshot.Some? && SendsChoice(p2, p', id, options)
    ensures SendsChoice(p, p', id, options)
  {
  }

  // ---- With the server ----

  /** Every page of a run of the page with its network is one the laws above are about. */
  lemma {:induction false} PagesAreReached(w: Protocol.World, events: seq<Protocol.Event>)
    requires Protocol.Inv(w) && Selection.Inv(w.page) && Latch.Inv(w.page)
    ensures Reached(Protocol.Run(w, events).page) && Latch.Inv(Protocol.Run(w, events).page)
    decreases events
  {
    hide Protocol.Step, Step, Latch.Inv, Selection.Inv;
    if events != [] {
      Protocol.StepKeepsInv(w, events[0]);
      PageOfStep(w, events[0]);
      if events[0].OnPage? {
        Selection.StepKeepsInv(w.page, events[0].e);
        Latch.StepKeepsInv(w.page, events[0].e);
      }
      PagesAreReached(Protocol.Step(w, events[0]), events[1..]);
    }
  }

  lemma PageOfStep(w: Protocol.World, e: Protocol.Event)
    ensures Protocol.Step(w, e).page == w.page || (e.OnPage? && Protocol.Step(w, e).page == Step(w.page, e.e))
  {
    hide Step;
  }

  lemma StartIsReached(companyId: string)
    ensures var w := Protocol.Start(companyId);
      Protocol.Inv(w) && Selection.Inv(w.page) && Latch.Inv(w.page)
  {
  }

  lemma RunTwo(w: Protocol.World, first: Protocol.Event, second: Protocol.Event)
    ensures Protocol.Run(w, [first, second]) == Protocol.Step(Protocol.Step(w, first), second)
  {
    hide Protocol.Step;
    assert [first, second][1..] == [second] && [second][1..] == [];
    assert Protocol.Run(w, [first, second]) == Protocol.Run(Protocol.Step(w, first), [second]);
    assert Protocol.Run(Protocol.Step(w, first), [second]) == Protocol.Run(Protocol.Step(Protocol.Step(w, first), second), []);
  }

  /** The server takes up the awaited request and answers: the page records the success, and the command has taken
      effect. */
  lemma SuccessIsTold(w: Protocol.World, t: nat)
    requires Protocol.Inv(w) && Reached(w.page) && IsAwaited(w.page, t) && !w.page.cmd.sends[t].aborted && D.Pending(w.net, t)
    ensures var attempt := w.page.cmd.sends[t].attempt;
      var done := Protocol.Run(w, [Protocol.OnNet(D.Serve(t, true)), Protocol.OnPage(CommandReturned(t, true))]);
      done.page.cmd.record == Some(Record(attempt, Succeeded)) && attempt.key in done.net.applied
  {
    var first, second := Protocol.OnNet(D.Serve(t, true)), Protocol.OnPage(CommandReturned(t, true));
    RunTwo(w, first, second);
    ReturningRecordsSuccess(w.page, t, true);
    hide Step, Reached, Protocol.PageInv;
  }

  /** The server refuses the only request of an attempt and says so: the page records a conflict or a rejection, and
      the command never takes effect. */
  lemma RefusalIsTold(w: Protocol.World, t: nat, cause: Cause)
    requires Protocol.Inv(w) && Reached(w.page) && IsAwaited(w.page, t) && D.Pending(w.net, t)
    requires w.page.cmd.sends[t].previous.None? && !Inconclusive(cause) && w.page.cmd.sends[t].attempt.key !in w.net.applied
    ensures var attempt := w.page.cmd.sends[t].attempt;
      var refused := Protocol.Run(w, [Protocol.OnNet(D.Serve(t, false)), Protocol.OnPage(CommandThrew(t, cause))]);
      && refused.page.cmd.record == Some(Record(attempt, if cause.status == 409 then Conflict else Rejected))
      && D.Dead(refused.net, attempt.key)
  {
    var first, second := Protocol.OnNet(D.Serve(t, false)), Protocol.OnPage(CommandThrew(t, cause));
    RunTwo(w, first, second);
    ThrowingRecordsTheOutcome(w.page, t, cause);
    Protocol.StepKeepsInv(w, first);
    var served := Protocol.Step(w, first);
    assert D.Answered(served.net, t, D.Refused);
    hide Step, Reached, Protocol.PageInv, D.Sound, Protocol.OutcomesTrue, Inconclusive;
    Protocol.FirstRefusalIsFinal(served, t);
    hide D.Dead, Protocol.Inv;
  }
}

/** What the subscription page shows against what it was told: each answer to a load or a page is stored, or
    not, by what happened since the read started, and what is shown is always what was stored last. */
module SubscriptionReads {
  import opened Common
  import opened SubscriptionLatch
  import opened SubscriptionPage
  import opened SubscriptionSafety
  import Selection = SubscriptionSelection

  // ---- One answer ----

  /** A read that is out, and not answered yet. */
  predicate IsOut(p: Page, t: nat) {
    t < |p.rd.all| && p.rd.all[t].open
  }

  /** Commands, reads and history are as before, but that the read is answered and its end frees the page. */
  ghost predicate OnlyAnswers(p: Page, p': Page, t: nat)
    requires IsOut(p, t)
  {
    && p'.companyId == p.companyId && p'.instance == p.instance && p'.mounted == p.mounted && p'.cmd == p.cmd
    && |p'.rd.all| == |p.rd.all| && p'.rd.all == p.rd.all[t := p'.rd.all[t]]
    && p'.rd.all[t].(open := true) == p.rd.all[t] && !p'.rd.all[t].open
    && (p'.rd.busy <==> p.rd.busy && !Newest(p.history, t))
    && p'.rd.requestId == p.rd.requestId && p'.rd.current == p.rd.current && p'.rd.aborted == p.rd.aborted
  }

  /** The latch, the record of success and the revision are as before. */
  predicate SameLatch(p: Page, p': Page) {
    p'.rd.blocked == p.rd.blocked && p'.rd.succeeded == p.rd.succeeded && p'.rd.revision == p.rd.revision
  }

  /** The plan to select in a new catalogue: that of a link not yet followed, else the choice already made, else
      that of the recorded attempt, else the fallback. */
  function WantedPlan(p: Page, fallback: string): string {
    match p.ui.pendingIntent
    case Some(Intent(_, Some(planId))) => planId
    case Some(Intent(_, None)) => ""
    case None =>
      if p.ui.selectionInitialized then p.ui.selectedPlanId
      else if p.cmd.record.Some? then p.cmd.record.value.attempt.review.plan.id
      else fallback
  }

  predicate Holds(plans: seq<Plan>, id: string) {
    exists k | 0 <= k < |plans| :: plans[k].id == id
  }

  /** The catalogue is shown, with the wanted plan selected if it is in it, and nothing else; the options stay if
      plan and definition stay, and are dropped otherwise; a review is closed. */
  ghost predicate ShowsCatalogue(p: Page, p': Page, plans: seq<Plan>, fallback: string) {
    && p'.ui.catalog == Some(plans)
    && p'.ui.selectedPlanId == (if Holds(plans, WantedPlan(p, fallback)) then WantedPlan(p, fallback) else "")
    && p'.ui.optionalIds == (if p'.ui.selectedPlanId == p.ui.selectedPlanId && SelectedPlan(p') == SelectedPlan(p)
                             then p.ui.optionalIds else {})
    && p'.ui.review.None? && !p'.ui.acknowledged && p'.ui.pendingIntent.None? && p'.ui.selectionInitialized
    && p'.ui.observedIntent == p.ui.observedIntent && p'.ui.intentRevision == p.ui.intentRevision
    && p'.ui.reviewIntentRevision == p.ui.reviewIntentRevision
  }

  /** A load's answer proves the page's own context. */
  predicate Proves(p: Page, r: Result) {
    r.Loaded? && r.companyId == p.companyId && r.sameActor && r.sameScope
  }

  predicate Disproves(p: Page, r: Result) {
    if r.Loaded? then !Proves(p, r) else r.ReadFailed? && r.mismatch
  }

  /** A mismatch shuts the latch and makes every read under way unclean; a review goes, unless an attempt is
      recorded. */
  ghost predicate ShutsLatch(p: Page, p': Page) {
    && p'.history == p.history + [Mismatch] && p'.rd.blocked && !p'.rd.succeeded && p'.rd.revision == p.rd.revision + 1
    && p'.ui == if p.cmd.record.None? then p.ui.(review := None, acknowledged := false) else p.ui
  }

  /** What the answer to a read does: a page's catalogue is shown exactly if no read started after it; a load is
      shown, company, version and catalogue, and opens the latch, exactly if no read and no mismatch came after
      it and it proves the context; it shuts the latch if it then disproves it. Anything else is not stored. */
  ghost predicate Takes(p: Page, p': Page, t: nat, r: Result, fallback: string)
    requires IsOut(p, t)
  {
    if p.rd.all[t].paging && r.Paged? && Newest(p.history, t) then
      && p'.history == p.history + [Stored(t)] && SameLatch(p, p')
      && p'.ui.snapshot == p.ui.snapshot && ShowsCatalogue(p, p', r.plans, fallback)
    else if !p.rd.all[t].paging && Proves(p, r) && NewestAndClean(p.history, t) then
      && p'.history == p.history + [Stored(t), Opened(t)]
      && !p'.rd.blocked && p'.rd.succeeded && p'.rd.revision == p.rd.revision
      && p'.ui.snapshot == Some(Snapshot(p.companyId, r.version)) && ShowsCatalogue(p, p', r.plans, fallback)
    else if !p.rd.all[t].paging && Disproves(p, r) && NewestAndClean(p.history, t) then ShutsLatch(p, p')
    else p'.history == p.history && p'.ui == p.ui && SameLatch(p, p')
  }

  lemma LiveIffNewest(p: Page, t: nat)
    requires SubscriptionLatch.Inv(p) && t < |p.rd.all|
    ensures Live(p, t) <==> Newest(p.history, t)
    ensures Fresh(p, t) <==> NewestAndClean(p.history, t)
    ensures p.mounted && p.rd.all[t].instance == p.instance && p.rd.all[t].requestId == p.rd.requestId <==> Newest(p.history, t)
  {
    assert ReadInv(p, t);
    hide Newest, NewestAndClean, Orderly, OpenedSince;
  }

  lemma ApplyShows(p: Page, plans: seq<Plan>, fallback: string)
    requires Selection.OptionsFit(p)
    ensures ShowsCatalogue(p, ApplyCatalog(p, plans, fallback), plans, fallback)
  {
    FindPlanIsFirst(plans, WantedPlan(p, fallback));
    FindPlanById(plans, WantedPlan(p, fallback));
    FindPlanById(plans, "");
    FindPlanById(Plans(p), "");
  }

  lemma TakesPage(p: Page, t: nat, r: Result, fallback: string)
    requires SubscriptionLatch.Inv(p) && Selection.OptionsFit(p) && IsOut(p, t) && p.rd.all[t].paging
    ensures Takes(p, TakeAnswer(p, t, r, fallback), t, r, fallback)
    ensures TakeAnswer(p, t, r, fallback).cmd == p.cmd && TakeAnswer(p, t, r, fallback).companyId == p.companyId
  {
    LiveIffNewest(p, t);
    hide SubscriptionLatch.Inv, Newest, NewestAndClean, Live, Fresh;
    if r.Paged? {
      ApplyShows(p, r.plans, fallback);
    }
  }

  lemma StoresLoad(p: Page, t: nat, r: Result, fallback: string)
    requires Selection.OptionsFit(p) && Proves(p, r)
    ensures var p' := StoreLoad(p, t, r, fallback);
      && p'.history == p.history + [Stored(t), Opened(t)] && p'.cmd == p.cmd && p'.companyId == p.companyId
      && !p'.rd.blocked && p'.rd.succeeded && p'.rd.revision == p.rd.revision
      && p'.ui.snapshot == Some(Snapshot(p.companyId, r.version)) && ShowsCatalogue(p, p', r.plans, fallback)
  {
    var read := p.(ui := p.ui.(snapshot := Some(Snapshot(r.companyId, r.version))));
    Selection.WithoutReview(p, read);
    ApplyShows(read, r.plans, fallback);
  }

  lemma TakesLoad(p: Page, t: nat, r: Result, fallback: string)
    requires SubscriptionLatch.Inv(p) && Selection.OptionsFit(p) && IsOut(p, t) && !p.rd.all[t].paging
    ensures Takes(p, TakeAnswer(p, t, r, fallback), t, r, fallback)
    ensures TakeAnswer(p, t, r, fallback).cmd == p.cmd && TakeAnswer(p, t, r, fallback).companyId == p.companyId
  {
    LiveIffNewest(p, t);
    if Proves(p, r) {
      StoresLoad(p, t, r, fallback);
    }
    hide SubscriptionLatch.Inv, Selection.OptionsFit, Newest, NewestAndClean, Live, Fresh, StoreLoad, ShowsCatalogue;
  }

  /** Nothing that ReadAnswered's continuation does before its end touches these. */
  lemma TakingKeepsReads(p: Page, t: nat, r: Result, fallback: string)
    requires t < |p.rd.all|
    ensures var p' := TakeAnswer(p, t, r, fallback);
      && p'.mounted == p.mounted && p'.instance == p.instance && p'.rd.all == p.rd.all && p'.rd.busy == p.rd.busy
      && p'.rd.requestId == p.rd.requestId && p'.rd.current == p.rd.current && p'.rd.aborted == p.rd.aborted
  {
  }

  /** Of every page that a run can reach: an answer does what `Takes` says of it, once, and nothing else. */
  lemma AnswerIsTaken(p: Page, t: nat, r: Result, fallback: string)
    requires SubscriptionLatch.Inv(p) && Selection.OptionsFit(p)
    ensures var p' := Step(p, ReadAnswered(t, r, fallback));
      if IsOut(p, t) then OnlyAnswers(p, p', t) && Takes(p, p', t, r, fallback) else p' == p
  {
    if IsOut(p, t) {
      if p.rd.all[t].paging { TakesPage(p, t, r, fallback); } else { TakesLoad(p, t, r, fallback); }
      TakingKeepsReads(p, t, r, fallback);
      LiveIffNewest(p, t);
      var p1, p' := TakeAnswer(p, t, r, fallback), Step(p, ReadAnswered(t, r, fallback));
      assert p' == p1.(rd := p1.rd.(all := p.rd.all[t := p.rd.all[t].(open := false)], busy := p.rd.busy && !Newest(p.history, t)));
      hide SubscriptionLatch.Inv, Newest, NewestAndClean, Live, Fresh, TakeAnswer, Step, Selection.OptionsFit;
      SamePlan(p1, p');
    }
  }

  lemma SamePlan(p: Page, p': Page)
    requires p'.ui == p.ui
    ensures SelectedPlan(p') == SelectedPlan(p)
  {
  }

  // ---- Over runs ----

  datatype Display = Display(snapshot: Option<Snapshot>, plans: Option<seq<Plan>>)

  const NOTHING := Display(None, None)

  /** The marks a step added to the history. */
  function Added(h: seq<Mark>, h': seq<Mark>): seq<Mark> {
    if |h| <= |h'| then h'[|h|..] else []
  }

  /** What is to be shown after a step: nothing on a new mount; what a load that opened the latch answered; the
      plans of a page that was stored; else what was shown before. */
  function ToldBy(d: Display, e: Event, added: seq<Mark>): Display {
    if Mounted in added then NOTHING
    else if e.ReadAnswered? && e.result.Loaded? && Opened(e.read) in added
    then Display(Some(Snapshot(e.result.companyId, e.result.version)), Some(e.result.plans))
    else if e.ReadAnswered? && e.result.Paged? && Stored(e.read) in added then d.(plans := Some(e.result.plans))
    else d
  }

  /** What the answers stored since the last mount told the page. */
  ghost function Told(p: Page, events: seq<Event>): Display
    decreases |events|
  {
    if events == [] then NOTHING
    else
      var before := Run(p, events[..|events| - 1]);
      ToldBy(Told(p, events[..|events| - 1]), events[|events| - 1], Added(before.history, Step(before, events[|events| - 1]).history))
  }

  function Shown(p: Page): Display {
    Display(p.ui.snapshot, p.ui.catalog)
  }

  lemma AnswerShows(p: Page, t: nat, r: Result, fallback: string)
    requires SubscriptionLatch.Inv(p) && Selection.OptionsFit(p)
    ensures var e := ReadAnswered(t, r, fallback);
      Shown(Step(p, e)) == ToldBy(Shown(p), e, Added(p.history, Step(p, e).history))
  {
    AnswerIsTaken(p, t, r, fallback);
    hide SubscriptionLatch.Inv, Newest, NewestAndClean, Step, Selection.OptionsFit, OnlyAnswers;
    var h' := Step(p, ReadAnswered(t, r, fallback)).history;
    if IsOut(p, t) {
      assert h' == p.history + [Stored(t)] ==> h'[|p.history|..] == [Stored(t)];
      assert h' == p.history + [Stored(t), Opened(t)] ==> h'[|p.history|..] == [Stored(t), Opened(t)];
      assert h' == p.history + [Mismatch] ==> h'[|p.history|..] == [Mismatch];
    }
  }

  lemma SendingShowsTheSame(p: Page, e: Event)
    requires e.Confirmed? || e.CommandReturned? || e.CommandThrew? || e.CommandFinished? || e.WaitCancelled? || e.Dismissed?
    ensures Shown(Step(p, e)) == Shown(p) && Mounted !in Added(p.history, Step(p, e).history)
  {
  }

  lemma ChoosingShowsTheSame(p: Page, e: Event)
    requires e.RouteChanged? || e.PlanSelected? || e.OptionToggled? || e.Acknowledged? || e.ReviewClosed? || e.Submitted?
    ensures Shown(Step(p, e)) == Shown(p) && Mounted !in Added(p.history, Step(p, e).history)
  {
  }

  lemma ReadingShowsTheSame(p: Page, e: Event)
    requires e.Load? || e.TurnPage? || e.SnapshotArrived? || e.Unmount?
    ensures Shown(Step(p, e)) == Shown(p) && Mounted !in Added(p.history, Step(p, e).history)
  {
  }

  lemma MountShowsNothing(p: Page, e: Event)
    requires e.Mount? || e.ChangeKey?
    ensures Shown(Step(p, e)) == if Mounted in Added(p.history, Step(p, e).history) then NOTHING else Shown(p)
  {
    var h' := Step(p, e).history;
    if e.Mount? && !p.mounted {
      assert h' == p.history + [Mounted] && h'[|p.history|..] == [Mounted];
    } else if e.ChangeKey? && p.mounted {
      assert h' == p.history + [Unmounted] + [Mounted] && h'[|p.history|..] == [Unmounted, Mounted];
    } else {
      assert Step(p, e) == p && Added(p.history, h') == [];
    }
  }

  lemma StepShows(p: Page, e: Event)
    requires SubscriptionLatch.Inv(p) && Selection.OptionsFit(p)
    ensures Shown(Step(p, e)) == ToldBy(Shown(p), e, Added(p.history, Step(p, e).history))
  {
    hide Step, SubscriptionLatch.Inv, Selection.OptionsFit;
    if e.ReadAnswered? {
      AnswerShows(p, e.read, e.result, e.fallback);
    } else if e.Mount? || e.ChangeKey? {
      MountShowsNothing(p, e);
    } else if e.Load? || e.TurnPage? || e.SnapshotArrived? || e.Unmount? {
      ReadingShowsTheSame(p, e);
    } else if TouchesCommands(e) {
      SendingShowsTheSame(p, e);
    } else {
      ChoosingShowsTheSame(p, e);
    }
  }

  lemma RunReaches(companyId: string, events: seq<Event>)
    ensures var p := Run(Start(companyId), events);
      SubscriptionLatch.Inv(p) && Selection.OptionsFit(p) && Selection.ReviewFits(p) && p.companyId == companyId
  {
    SubscriptionLatch.RunKeepsInv(Start(companyId), events);
    Selection.RunKeepsInv(Start(companyId), events);
    Selection.RunKeepsCompany(Start(companyId), events);
  }

  /** Over every run: the subscription shown is of the company and version, and the catalogue has the plans, of the
      answers stored last since the page was mounted; a page's answer changes the catalogue only. */
  lemma {:induction false} ShowsWhatItWasTold(companyId: string, events: seq<Event>)
    ensures Shown(Run(Start(companyId), events)) == Told(Start(companyId), events)
    decreases |events|
  {
    hide Step, ToldBy;
    if events != [] {
      var init, last := events[..|events| - 1], events[|events| - 1];
      ShowsWhatItWasTold(companyId, init);
      RunReaches(companyId, init);
      StepShows(Run(Start(companyId), init), last);
      RunExtend(Start(companyId), init, last);
      assert init + [last] == events;
    }
  }

  /** The newest send asks for a plan of the catalogue told, with the version told, for the company told. */
  ghost predicate SendsWhatWasTold(p: Page, p': Page, told: Display) {
    && |p'.cmd.sends| > |p.cmd.sends| && told.snapshot.Some? && told.plans.Some?
    && var body := p'.cmd.sends[|p.cmd.sends|].attempt.body;
    && body.expectedCompanyId == told.snapshot.value.companyId == p.companyId && body.version == told.snapshot.value.version
    && body.optionalIds == p.ui.optionalIds
    && exists k :: 0 <= k < |told.plans.value| && told.plans.value[k].id == body.targetPlanVersionId == p.ui.selectedPlanId
                   && SelectedPlan(p) == Some(told.plans.value[k])
  }

  lemma FirstSendIsTold(p: Page, e: Event, told: Display)
    requires Selection.SendsWhatIsShown(p, Step(p, e)) && p.cmd.record.None? && told == Shown(p)
    ensures SendsWhatWasTold(p, Step(p, e), told)
  {
    OnlyConfirmSends(p, e);
    assert p.ui.snapshot.value.companyId == p.companyId;
    FindPlanIsFirst(Plans(p), p.ui.selectedPlanId);
    FindPlanById(Plans(p), p.ui.selectedPlanId);
  }

  /** So over every run a first send asks for a plan of the catalogue stored last, with the version loaded last. */
  lemma FirstSendIsWhatWasTold(companyId: string, events: seq<Event>, e: Event)
    ensures var p := Run(Start(companyId), events);
      |Step(p, e).cmd.sends| > |p.cmd.sends| && p.cmd.record.None?
      ==> SendsWhatWasTold(p, Step(p, e), Told(Start(companyId), events))
  {
    hide *;
    var p := Run(Start(companyId), events);
    Selection.FirstSendIsWhatIsShown(companyId, events, e);
    ShowsWhatItWasTold(companyId, events);
    if |Step(p, e).cmd.sends| > |p.cmd.sends| && p.cmd.record.None? {
      FirstSendIsTold(p, e, Told(Start(companyId), events));
    }
  }
}

/** What each event does to the subscription page, in terms of what it shows, records and has on the way. */
module SubscriptionEffects {
  import opened Common
  import opened OptionalModules
  import opened SubscriptionSafety
  import opened SubscriptionPage
  import Latch = SubscriptionLatch
  import Protocol = SubscriptionProtocol
  import Reads = SubscriptionReads
  import Selection = SubscriptionSelection

  /** Nothing can be chosen: a command is out, an outcome is shown, or the context is not proved. */
  predicate Locked(p: Page) {
    p.cmd.command.Some? || p.cmd.record.Some? || p.rd.blocked
  }

  /** Everything but the chosen plan and options, the review and its acknowledgement. */
  predicate SameButChoice(p: Page, p': Page) {
    && p'.companyId == p.companyId && p'.instance == p.instance && p'.mounted == p.mounted
    && p'.cmd == p.cmd && p'.rd == p.rd && p'.history == p.history
    && p'.ui.snapshot == p.ui.snapshot && p'.ui.catalog == p.ui.catalog
    && p'.ui.observedIntent == p.ui.observedIntent && p'.ui.intentRevision == p.ui.intentRevision
    && p'.ui.selectionInitialized == p.ui.selectionInitialized
  }

  predicate ReviewIsGone(p: Page) {
    p.ui.review.None? && !p.ui.acknowledged
  }

  // ---- Choosing ----

  /** Selecting a plan selects it, without options, and closes a review. */
  lemma SelectingAPlan(p: Page, id: string)
    requires p.mounted
    ensures var p' := Step(p, PlanSelected(id));
      if Locked(p) then p' == p
      else SameButChoice(p, p') && ReviewIsGone(p') && p'.ui.selectedPlanId == id && p'.ui.optionalIds == {}
           && p'.ui.pendingIntent.None? && p'.ui.reviewIntentRevision == p.ui.reviewIntentRevision
  {
  }

  /** Toggling an option of the selected plan changes the options as its dependencies ask, and closes a review. */
  lemma TogglingAnOption(p: Page, id: string)
    requires p.mounted
    ensures var p' := Step(p, OptionToggled(id));
      if Locked(p) || SelectedPlan(p).None? then p' == p
      else SameButChoice(p, p') && ReviewIsGone(p') && p'.ui.selectedPlanId == p.ui.selectedPlanId
           && p'.ui.optionalIds == Toggled(SelectedPlan(p).value.modules, p.ui.optionalIds, id)
           && p'.ui.pendingIntent == p.ui.pendingIntent && p'.ui.reviewIntentRevision == p.ui.reviewIntentRevision
  {
  }

  /** What is chosen stays as well. */
  predicate SameChoice(p: Page, p': Page) {
    && SameButChoice(p, p') && p'.ui.selectedPlanId == p.ui.selectedPlanId && p'.ui.optionalIds == p.ui.optionalIds
    && p'.ui.pendingIntent == p.ui.pendingIntent
  }

  /** A review is shown of what is chosen, for the company and the version loaded last, not yet acknowledged,
      exactly if the user may manage, a plan of the catalogue is chosen, the last read succeeded and none is
      under way, and nothing is locked. */
  lemma ReviewingIsAllowedIff(p: Page, canManage: bool)
    requires p.mounted && Selection.OptionsFit(p) && ValidCompanyId(p.companyId)
    ensures var p' := Step(p, Submitted(canManage));
      if canManage && !Locked(p) && !p.rd.busy && p.rd.succeeded && SelectedPlan(p).Some?
         && p.ui.snapshot.Some? && p.ui.snapshot.value.companyId == p.companyId
      then
        && SameChoice(p, p') && !p'.ui.acknowledged && p'.ui.reviewIntentRevision == p.ui.intentRevision
        && p'.ui.review.Some? && var review := p'.ui.review.value;
        && review.companyId == p.companyId && review.plan == SelectedPlan(p).value && review.optionalIds == p.ui.optionalIds
        && review.version == p.ui.snapshot.value.version
      else p' == p
  {
    FindPlanById(Plans(p), p.ui.selectedPlanId);
  }

  /** A shown review is acknowledged, or not, unless it is locked. */
  lemma Acknowledging(p: Page, checked: bool)
    requires p.mounted
    ensures var p' := Step(p, Acknowledged(checked));
      if p.ui.review.None? || p.cmd.record.Some? || p.rd.blocked then p' == p
      else SameChoice(p, p') && p'.ui.review == p.ui.review && p'.ui.acknowledged == checked
           && p'.ui.reviewIntentRevision == p.ui.reviewIntentRevision
    ensures var closed := Step(p, ReviewClosed);
      SameChoice(p, closed) && ReviewIsGone(closed) && closed.ui.reviewIntentRevision == p.ui.reviewIntentRevision
  {
  }

  /** The plan of a link, if the catalogue shown has it. */
  function LinkedPlan(p: Page, intent: Intent): string {
    if intent.planId.Some? && Reads.Holds(Plans(p), intent.planId.value) then intent.planId.value else ""
  }

  /** A new link drops what was chosen and is followed, at once if a catalogue is shown and no read is under way;
      the link seen last does nothing; while a command or an outcome is shown a link is forgotten. */
  lemma FollowingALink(p: Page, intent: Intent, fallback: string)
    requires p.mounted && Selection.OptionsFit(p)
    ensures var p' := Step(p, RouteChanged(intent, fallback));
      if p.cmd.command.Some? || p.cmd.record.Some? then
        p' == p.(ui := p.ui.(pendingIntent := None, observedIntent := "[]"))
      else if intent.key == p.ui.observedIntent then p' == p
      else
        && p'.cmd == p.cmd && p'.rd == p.rd && p'.history == p.history && p'.ui.snapshot == p.ui.snapshot
        && p'.ui.observedIntent == intent.key && p'.ui.intentRevision == p.ui.intentRevision + 1
        && p'.ui.catalog == p.ui.catalog && ReviewIsGone(p') && p'.ui.optionalIds == {}
        && (p.rd.busy || p.ui.catalog.None? ==> p'.ui.pendingIntent == Some(intent) && p'.ui.selectedPlanId == "")
        && (!p.rd.busy && p.ui.catalog.Some? ==> p'.ui.pendingIntent.None? && p'.ui.selectedPlanId == LinkedPlan(p, intent))
  {
    if intent.planId.Some? {
      FindPlanIsFirst(Plans(p), intent.planId.value);
    }
    FindPlanById(Plans(p), "");
  }

  // ---- Reading ----

  /** One more read, the newest and clean, on its way; the read before it is abandoned. */
  ghost predicate BeginsRead(p: Page, p': Page, paging: bool) {
    var t := |p.rd.all|;
    && Reads.IsOut(p', t) && |p'.rd.all| == t + 1 && p'.rd.all[..t] == p.rd.all && p'.rd.all[t].paging == paging
    && Latch.Newest(p'.history, t) && Latch.NewestAndClean(p'.history, t)
    && p'.rd.busy && p'.rd.blocked == p.rd.blocked && p'.rd.succeeded == (paging && p.rd.succeeded)
    && p'.mounted == p.mounted && p'.instance == p.instance && p'.companyId == p.companyId
  }

  /** A load always begins; a page is asked for unless something is locked, and closes a review. */
  lemma BeginningAReadIff(p: Page)
    requires p.mounted
    ensures var p' := Step(p, Load); BeginsRead(p, p', false) && p'.ui == p.ui && p'.cmd == p.cmd
    ensures var p' := Step(p, TurnPage);
      if Locked(p) then p' == p
      else BeginsRead(p, p', true) && p'.cmd == p.cmd && p'.ui == p.ui.(review := None, acknowledged := false)
  {
    Latch.Appended(p.history, Started(|p.rd.all|));
  }

  /** The company of a load is known before its catalogue: if it is another one, and no read and no mismatch came
      after the load, the latch is shut at once. */
  lemma EarlyMismatch(p: Page, t: nat, companyId: string)
    requires Latch.Inv(p)
    ensures var p' := Step(p, SnapshotArrived(t, companyId));
      if Reads.IsOut(p, t) && !p.rd.all[t].paging && Latch.NewestAndClean(p.history, t) && companyId != p.companyId
      then Reads.ShutsLatch(p, p') && p'.cmd == p.cmd && p'.rd.all == p.rd.all
      else p' == p
  {
    if Reads.IsOut(p, t) {
      Reads.LiveIffNewest(p, t);
      hide Latch.Inv, Latch.Newest, Latch.NewestAndClean, Live, Fresh;
    }
  }

  // ---- Sending ----

  /** Every page that a run can reach. */
  ghost predicate Reached(p: Page) {
    Selection.Inv(p) && Protocol.PageInv(p)
  }

  /** One more command, out at once: with this attempt, remembered as being sent. */
  ghost predicate SendsOut(p: Page, p': Page, attempt: Attempt) {
    var t := |p.cmd.sends|;
    && |p'.cmd.sends| == t + 1 && p'.cmd.sends[..t] == p.cmd.sends
    && p'.cmd.sends[t].attempt == attempt && p'.cmd.sends[t].previous == p.cmd.record
    && Awaited(p', t) && !p'.cmd.sends[t].aborted && p'.cmd.sends[t].instance == p.instance && p'.cmd.command == Some(t)
    && p'.cmd.record == p'.cmd.memory == Some(Record(attempt, Sending)) && p'.cmd.settled == p.cmd.settled
    && p'.rd == p.rd.(succeeded := false) && p'.ui == p.ui && p'.history == p.history
    && p'.mounted == p.mounted && p'.instance == p.instance && p'.companyId == p.companyId
  }

  /** The review on screen may be confirmed. */
  predicate IsConfirmable(p: Page, locationKey: string) {
    && p.ui.review.Some? && p.ui.acknowledged && p.rd.succeeded
    && locationKey == p.ui.observedIntent && p.ui.reviewIntentRevision == p.ui.intentRevision
  }

  /** Confirming sends the acknowledged review as it stands on screen, under a fresh key, exactly if the user may
      manage, no command is out, no read is under way, the context is proved, no outcome is recorded, the last
      read succeeded and neither the location nor the link has changed since the review; of an unfit review
      nothing remains. */
  lemma ConfirmingSendsIff(p: Page, canManage: bool, locationKey: string)
    requires Reached(p) && p.mounted
    ensures var p' := Step(p, Confirmed(false, canManage, locationKey));
      if !canManage || p.rd.busy || Locked(p) then p' == p
      else if IsConfirmable(p, locationKey) then
        && SelectedPlan(p).Some? && p.ui.snapshot.Some? && p'.cmd.nextKey == p.cmd.nextKey + 1
        && SendsOut(p, p', Attempt(p.companyId, p.cmd.nextKey,
             Body(p.companyId, SelectedPlan(p).value.id, p.ui.optionalIds, p.ui.snapshot.value.version), p.ui.review.value))
      else SameChoice(p, p') && ReviewIsGone(p') && p'.ui.reviewIntentRevision == p.ui.reviewIntentRevision
  {
  }

  /** A retry sends the recorded attempt again, exactly if it is uncertain; the key, the body and the review are
      those of the record. */
  lemma RetryingSendsIff(p: Page, canManage: bool, locationKey: string)
    requires Reached(p) && p.mounted
    ensures var p' := Step(p, Confirmed(true, canManage, locationKey));
      if canManage && !p.rd.busy && p.cmd.command.None? && !p.rd.blocked
         && p.cmd.record.Some? && p.cmd.record.value.status.Uncertain?
      then SendsOut(p, p', p.cmd.record.value.attempt) && p'.cmd.nextKey == p.cmd.nextKey
      else p' == p
  {
  }

  /** A command of this page whose answer is still awaited. */
  ghost predicate IsAwaited(p: Page, t: nat) {
    Awaited(p, t) && p.mounted && p.cmd.sends[t].instance == p.instance
  }

  /** The page, its memory and the settled outcomes tell this of the attempt. */
  ghost predicate Tells(p: Page, p': Page, attempt: Attempt, status: Status) {
    && p'.cmd.record == p'.cmd.memory == Some(Record(attempt, status))
    && p'.cmd.settled == (if status.Sending? || status.Uncertain? then p.cmd.settled else p.cmd.settled[attempt.key := status])
    && p'.cmd.nextKey == p.cmd.nextKey
  }

  /** An answer that the command was done records the success and reads anew, with the command held until that read
      ends; on this page the link is consumed. If the wait was cancelled the answer is ignored. */
  lemma ReturningRecordsSuccess(p: Page, t: nat, onPage: bool)
    requires Reached(p) && IsAwaited(p, t)
    ensures var p', attempt := Step(p, CommandReturned(t, onPage)), p.cmd.sends[t].attempt;
      if p.cmd.sends[t].aborted then
        && p'.cmd == p.cmd.(command := None, sends := p'.cmd.sends) && p'.rd == p.rd && p'.ui == p.ui && p'.history == p.history
        && !Awaited(p', t)
      else
        && Tells(p, p', attempt, Succeeded) && BeginsRead(p, p', false) && p'.cmd.command == Some(t)
        && !Awaited(p', t) && p'.ui == p.ui.(observedIntent := if onPage then "[]" else p.ui.observedIntent)
  {
    Protocol.LiveIsOut(p, t);
    Latch.Appended(p.history, Started(|p.rd.all|));
    hide Selection.Inv, Protocol.PageInv;
  }

  /** What a failure says of a first request; of a retry it says nothing. */
  function Judged(previous: Option<Record>, cause: Cause): Status {
    if previous.Some? || Inconclusive(cause) then Uncertain
    else if cause.status == 409 then Conflict
    else Rejected
  }

  /** The failure puts the context in doubt: it says so itself, or it refuses a retry of an uncertain attempt. */
  predicate PutsContextInDoubt(previous: Option<Record>, cause: Cause) {
    && cause.Api?
    && (cause.code == "SUBSCRIPTION_CONTEXT_MISMATCH" || cause.reason == "SUBSCRIPTION_CONTEXT_MISMATCH"
        || (previous.Some? && 400 <= cause.status <= 499))
  }

  /** A failure ends the command. It records a first request as refused, or in conflict, only if it is conclusive,
      and keeps a retried attempt uncertain whatever it says; and it shuts the latch exactly if it puts the
      context in doubt. */
  lemma ThrowingRecordsTheOutcome(p: Page, t: nat, cause: Cause)
    requires Reached(p) && IsAwaited(p, t)
    ensures var p', send := Step(p, CommandThrew(t, cause)), p.cmd.sends[t];
      && Tells(p, p', send.attempt, Judged(send.previous, cause)) && p'.cmd.command.None? && !Awaited(p', t)
      && p'.rd.busy == p.rd.busy && p'.rd.all == p.rd.all && p'.ui == p.ui
      && (if PutsContextInDoubt(send.previous, cause) then p'.rd.blocked && !p'.rd.succeeded && p'.history == p.history + [Mismatch]
          else p'.rd == p.rd && p'.history == p.history)
  {
    Protocol.LiveIsOut(p, t);
    assert p.cmd.sends[t].previous.Some? ==> p.cmd.sends[t].previous.value == Record(p.cmd.sends[t].attempt, Uncertain);
    hide Selection.Inv, Protocol.PageInv;
  }

  /** A continuation of a page that is gone records nothing. */
  lemma GoneContinuationsRecordNothing(p: Page, t: nat, onPage: bool, cause: Cause)
    requires !IsAwaited(p, t)
    ensures var returned, threw := Step(p, CommandReturned(t, onPage)), Step(p, CommandThrew(t, cause));
      && returned == p.(cmd := p.cmd.(sends := returned.cmd.sends))
      && threw == p.(cmd := p.cmd.(sends := threw.cmd.sends))
  {
  }

  /** Once the read after a success has ended, the command is over and the page is free. */
  lemma FinishingFreesThePage(p: Page, t: nat)
    requires Reached(p) && p.mounted && p.cmd.command == Some(t) && t < |p.cmd.sends| && p.cmd.sends[t].reloading.Some?
    ensures var p', read := Step(p, CommandFinished(t)), p.cmd.sends[t].reloading.value;
      if read < |p.rd.all| && !p.rd.all[read].open
      then p' == p.(cmd := p.cmd.(command := None, sends := p'.cmd.sends)) && !p'.cmd.sends[t].open
      else p' == p
  {
  }

  /** Cancelling the wait only marks the command. */
  lemma CancellingMarksTheCommand(p: Page)
    requires Reached(p) && p.mounted
    ensures var p' := Step(p, WaitCancelled);
      && p' == p.(cmd := p.cmd.(sends := p'.cmd.sends)) && |p'.cmd.sends| == |p.cmd.sends|
      && forall t | 0 <= t < |p.cmd.sends| ::
           p'.cmd.sends[t] == p.cmd.sends[t].(aborted := p.cmd.sends[t].aborted || p.cmd.command == Some(t))
  {
  }

  /** A recorded outcome is dismissed exactly if it is definite, the last read succeeded, none is under way, no
      command is out and the context is proved; then the page can choose again. */
  lemma DismissingIsAllowedIff(p: Page)
    requires Reached(p) && p.mounted
    ensures var p' := Step(p, Dismissed);
      if p.cmd.record.Some? && !p.cmd.record.value.status.Sending? && !p.cmd.record.value.status.Uncertain?
         && p.rd.succeeded && !p.rd.busy && p.cmd.command.None? && !p.rd.blocked
      then SameChoice(p.(cmd := p'.cmd), p') && ReviewIsGone(p') && !Locked(p') && p'.cmd == p.cmd.(record := None, memory := None)
      else p' == p
  {
  }

  // ---- Lifetime ----

  /** Leaving remembers a command that is being sent as uncertain; nothing on screen matters any more. */
  lemma LeavingRemembers(p: Page)
    requires Reached(p) && p.mounted
    ensures var p' := Step(p, Unmount);
      && !p'.mounted && p'.companyId == p.companyId && p'.cmd.nextKey == p.cmd.nextKey && p'.cmd.settled == p.cmd.settled
      && p'.cmd.memory == (if p.cmd.command.Some? && p.cmd.record.value.status.Sending?
                           then Some(Record(p.cmd.record.value.attempt, Uncertain)) else p.cmd.memory)
  {
  }

  /** A new mount shows nothing, proves nothing and has read nothing; what is remembered is its record. */
  lemma EnteringForgetsAllButTheMemory(p: Page, intent: string)
    requires !p.mounted
    ensures var p' := Step(p, Mount(intent));
      && p'.mounted && p'.companyId == p.companyId && p'.cmd.record == p'.cmd.memory == p.cmd.memory && p'.cmd.command.None?
      && p'.cmd.sends == p.cmd.sends && p'.cmd.nextKey == p.cmd.nextKey && p'.cmd.settled == p.cmd.settled
      && p'.rd.blocked && !p'.rd.succeeded && p'.rd.busy && p'.rd.all == p.rd.all
      && p'.ui.snapshot.None? && p'.ui.catalog.None? && p'.ui.selectedPlanId == "" && p'.ui.optionalIds == {} && ReviewIsGone(p')
      && !p'.ui.selectionInitialized && p'.ui.pendingIntent.None? && p'.ui.observedIntent == intent
      && forall t | 0 <= t < |p'.cmd.sends| :: p'.cmd.sends[t].instance <= p.instance ==> !IsAwaited(p', t)
  {
  }
}

/** The subscription page composed with the network and a server that carries out each key at most
    once: which attempts can be sent, and what a recorded outcome says about the server. */
module SubscriptionProtocol {
  import opened Common
  import opened Delivery
  import opened SubscriptionSafety
  import P = SubscriptionPage

  /** Ticket n of the network carries the n-th command the page ever sent. */
  datatype World = World(page: P.Page, net: Net)

  datatype Event = OnPage(e: P.Event) | OnNet(n: Delivery.Event)

  /** A command returns only when the server has answered that it is done, and throws an error that is not
      inconclusive only when the server has refused that very request. Anything inconclusive (loss, timeout, a
      failing server, cancelling) can be thrown whatever became of the request. */
  predicate Plausible(w: World, e: P.Event) {
    match e
    case CommandReturned(t, _) => Answered(w.net, t, Done)
    case CommandThrew(t, cause) => Inconclusive(cause) || Answered(w.net, t, Refused)
    case _ => true
  }

  ghost function Step(w: World, e: Event): World {
    match e
    case OnNet(n) => w.(net := Delivery.Step(w.net, n))
    case OnPage(e) =>
      if !Plausible(w, e) then w
      else
        var page := P.Step(w.page, e);
        World(page, if |page.cmd.sends| > |w.page.cmd.sends| then Send(w.net, page.cmd.sends[|w.page.cmd.sends|].attempt.key) else w.net)
  }

  ghost function Run(w: World, events: seq<Event>): World
    decreases events
  {
    if events == [] then w else Run(Step(w, events[0]), events[1..])
  }

  function Start(companyId: string): World {
    World(P.Start(companyId), QUIET)
  }

  // ---- The page alone: record, memory and the command out ----

  function KeyOf(p: P.Page, t: nat): Key
    requires t < |p.cmd.sends|
  {
    p.cmd.sends[t].attempt.key
  }

  /** The record of a mounted page is what the memory holds; only a page that replaced one with a
      command out may show "sending" where the memory says "uncertain", and then it can send nothing. */
  ghost predicate RecordsAgree(p: P.Page) {
    p.mounted ==>
      && (p.cmd.record.Some? <==> p.cmd.memory.Some?)
      && (p.cmd.record.Some? ==> p.cmd.record.value.attempt == p.cmd.memory.value.attempt)
      && (p.cmd.record != p.cmd.memory ==>
            p.cmd.command.None? && p.cmd.record.value.status.Sending? && p.cmd.memory.value.status.Uncertain?)
  }

  /** The command out is the last one sent, by this page, and the record is of its attempt. */
  ghost predicate CommandOut(p: P.Page) {
    p.mounted && p.cmd.command.Some? ==>
      var c := p.cmd.command.value;
      && c == |p.cmd.sends| - 1 && p.cmd.sends[c].open && p.cmd.sends[c].instance == p.instance
      && p.cmd.record.Some? && p.cmd.record.value.attempt == p.cmd.sends[c].attempt
      && p.cmd.record.value.status == if p.cmd.sends[c].reloading.None? then Sending else Succeeded
  }

  ghost predicate SendsFit(p: P.Page) {
    && (forall t | 0 <= t < |p.cmd.sends| :: p.cmd.sends[t].instance <= p.instance)
    && (p.mounted ==> forall t | 0 <= t < |p.cmd.sends| && p.cmd.sends[t].open && p.cmd.sends[t].instance == p.instance ::
          p.cmd.command == Some(t))
    && (forall t | 0 <= t < |p.cmd.sends| && p.cmd.sends[t].previous.Some? ::
          p.cmd.sends[t].previous.value == Record(p.cmd.sends[t].attempt, Uncertain))
    && (forall t, u | 0 <= u < t < |p.cmd.sends| && p.cmd.sends[t].previous.None? :: KeyOf(p, u) != KeyOf(p, t))
  }

  /** A key stands for one attempt; keys in use are older than the next. */
  ghost predicate KeysIdentify(p: P.Page) {
    && (forall t | 0 <= t < |p.cmd.sends| :: KeyOf(p, t) < p.cmd.nextKey)
    && (forall t, u | 0 <= t < u < |p.cmd.sends| && KeyOf(p, t) == KeyOf(p, u) :: p.cmd.sends[t].attempt == p.cmd.sends[u].attempt)
    && (p.cmd.memory.Some? ==> p.cmd.memory.value.attempt.key < p.cmd.nextKey)
    && (forall t | 0 <= t < |p.cmd.sends| && p.cmd.memory.Some? && KeyOf(p, t) == p.cmd.memory.value.attempt.key ::
          p.cmd.sends[t].attempt == p.cmd.memory.value.attempt)
  }

  /** Every attempt ever sent has a definite recorded outcome, but the one the memory holds, which has
      one exactly when its status says so; and a different attempt was sent only after that. */
  ghost predicate OneOpenAttempt(p: P.Page) {
    && (forall t | 0 <= t < |p.cmd.sends| && KeyOf(p, t) !in p.cmd.settled ::
          p.cmd.memory.Some? && p.cmd.memory.value.attempt.key == KeyOf(p, t))
    && (forall k | k in p.cmd.settled :: Definite(p.cmd.settled[k]) && k < p.cmd.nextKey)
    && (p.cmd.memory.Some? ==>
          var r := p.cmd.memory.value;
          if Definite(r.status) then r.attempt.key in p.cmd.settled && p.cmd.settled[r.attempt.key] == r.status
          else r.attempt.key !in p.cmd.settled)
    && (forall t, u | 0 <= t < u < |p.cmd.sends| && KeyOf(p, t) != KeyOf(p, u) :: KeyOf(p, t) in p.cmd.settled)
  }

  ghost predicate PageInv(p: P.Page) {
    RecordsAgree(p) && CommandOut(p) && SendsFit(p) && KeysIdentify(p) && OneOpenAttempt(p)
  }

  // ---- The server ----

  ghost predicate Aligned(w: World) {
    && |w.net.requests| == |w.page.cmd.sends|
    && forall t | 0 <= t < |w.net.requests| :: w.net.requests[t].key == KeyOf(w.page, t)
  }

  /** A recorded success took effect; a recorded refusal has not and never will. */
  ghost predicate OutcomesTrue(w: World) {
    forall k | k in w.page.cmd.settled ::
      if w.page.cmd.settled[k].Succeeded? then k in w.net.applied else Dead(w.net, k)
  }

  ghost predicate Inv(w: World) {
    Sound(w.net) && Aligned(w) && OutcomesTrue(w) && PageInv(w.page)
  }

  // ---- Steps of the page that send and settle nothing ----

  /** The commands are as before, up to flags of sends that do not matter here. */
  ghost predicate SameCommands(p: P.Page, p': P.Page) {
    && p'.mounted == p.mounted && p'.instance == p.instance
    && p'.cmd.(sends := p.cmd.sends) == p.cmd
    && |p'.cmd.sends| == |p.cmd.sends|
    && forall t | 0 <= t < |p.cmd.sends| :: p'.cmd.sends[t].(aborted := p.cmd.sends[t].aborted) == p.cmd.sends[t]
  }

  lemma SameCommandsKeepInv(p: P.Page, p': P.Page)
    requires PageInv(p) && SameCommands(p, p')
    ensures PageInv(p')
  {
    assert forall t | 0 <= t < |p.cmd.sends| :: KeyOf(p', t) == KeyOf(p, t);
  }

  // ---- Sending ----

  ghost predicate Dispatched(p: P.Page, p': P.Page, attempt: Attempt) {
    && p'.mounted == p.mounted && p'.instance == p.instance
    && p'.cmd == P.Commands(Some(Record(attempt, Sending)), Some(Record(attempt, Sending)), Some(|p.cmd.sends|),
                            p.cmd.sends + [P.Send(p.instance, attempt, p.cmd.record, false, true, None)], p.cmd.nextKey, p.cmd.settled)
  }

  /** What may be sent: the uncertain attempt again, or a new one under a new key. */
  ghost predicate Sendable(p: P.Page, attempt: Attempt) {
    && attempt.key < p.cmd.nextKey
    && if p.cmd.record.Some? then p.cmd.record == Some(Record(attempt, Uncertain))
       else attempt.key !in p.cmd.settled && forall t | 0 <= t < |p.cmd.sends| :: KeyOf(p, t) != attempt.key
  }

  lemma DispatchKeepsSends(p: P.Page, p': P.Page, attempt: Attempt)
    requires PageInv(p) && p.mounted && p.cmd.command.None? && Sendable(p, attempt) && Dispatched(p, p', attempt)
    ensures RecordsAgree(p') && CommandOut(p') && SendsFit(p')
  {
    var n := |p.cmd.sends|;
    assert forall t | 0 <= t < n :: p'.cmd.sends[t] == p.cmd.sends[t] && KeyOf(p', t) == KeyOf(p, t);
  }

  lemma DispatchKeepsKeys(p: P.Page, p': P.Page, attempt: Attempt)
    requires PageInv(p) && p.mounted && p.cmd.command.None? && Sendable(p, attempt) && Dispatched(p, p', attempt)
    ensures KeysIdentify(p') && attempt.key !in p.cmd.settled
  {
    var n := |p.cmd.sends|;
    assert forall t | 0 <= t < n :: p'.cmd.sends[t] == p.cmd.sends[t] && KeyOf(p', t) == KeyOf(p, t);
    assert KeyOf(p', n) == attempt.key;
    assert p.cmd.record.Some? ==> p.cmd.memory == p.cmd.record;
  }

  lemma DispatchKeepsOpen(p: P.Page, p': P.Page, attempt: Attempt)
    requires PageInv(p) && p.mounted && p.cmd.command.None? && Sendable(p, attempt) && Dispatched(p, p', attempt)
    ensures OneOpenAttempt(p')
    ensures forall t | 0 <= t < |p.cmd.sends| :: KeyOf(p, t) == attempt.key || KeyOf(p, t) in p.cmd.settled
  {
    var n := |p.cmd.sends|;
    assert forall t | 0 <= t < n :: p'.cmd.sends[t] == p.cmd.sends[t] && KeyOf(p', t) == KeyOf(p, t);
    assert KeyOf(p', n) == attempt.key;
    assert p.cmd.record.Some? ==> p.cmd.memory == p.cmd.record;
    DispatchKeepsKeys(p, p', attempt);
  }

  lemma DispatchKeepsWorld(w: World, w': World, attempt: Attempt)
    requires Inv(w) && w.page.mounted && w.page.cmd.command.None? && Sendable(w.page, attempt)
    requires Dispatched(w.page, w'.page, attempt) && w'.net == Send(w.net, attempt.key)
    ensures Inv(w')
  {
    DispatchKeepsSends(w.page, w'.page, attempt);
    DispatchKeepsKeys(w.page, w'.page, attempt);
    DispatchKeepsOpen(w.page, w'.page, attempt);
    SendIsSound(w.net, attempt.key);
    assert forall t | 0 <= t < |w.page.cmd.sends| :: KeyOf(w'.page, t) == KeyOf(w.page, t);
  }

  // ---- Recording what became of the command out ----

  /** The command out records `status`; it stays out for a reload after a success, and is closed otherwise. */
  ghost predicate Recorded(p: P.Page, p': P.Page, t: nat, status: Status)
    requires t < |p.cmd.sends|
  {
    var send := p.cmd.sends[t];
    var record := Record(send.attempt, status);
    && p'.mounted == p.mounted && p'.instance == p.instance
    && |p'.cmd.sends| == |p.cmd.sends|
    && p'.cmd == P.Commands(Some(record), Some(record), if status.Succeeded? then Some(t) else None, p'.cmd.sends, p.cmd.nextKey,
                            if Definite(status) then p.cmd.settled[send.attempt.key := status] else p.cmd.settled)
    && p'.cmd.sends == p.cmd.sends[t := p'.cmd.sends[t]]
    && p'.cmd.sends[t] == (if status.Succeeded? then send.(reloading := p'.cmd.sends[t].reloading) else send.(open := false))
    && (status.Succeeded? ==> p'.cmd.sends[t].reloading.Some?)
  }

  ghost predicate Live(p: P.Page, t: nat) {
    P.Awaited(p, t) && p.mounted && p.cmd.sends[t].instance == p.instance
  }

  lemma LiveIsOut(p: P.Page, t: nat)
    requires PageInv(p) && Live(p, t)
    ensures p.cmd.command == Some(t) && t == |p.cmd.sends| - 1
    ensures p.cmd.record == p.cmd.memory == Some(Record(p.cmd.sends[t].attempt, Sending))
    ensures KeyOf(p, t) !in p.cmd.settled
  {
  }

  lemma RecordKeepsPage(p: P.Page, p': P.Page, t: nat, status: Status)
    requires PageInv(p) && Live(p, t) && !status.Sending? && Recorded(p, p', t, status)
    ensures RecordsAgree(p') && CommandOut(p') && SendsFit(p') && KeysIdentify(p')
  {
    LiveIsOut(p, t);
    assert forall u | 0 <= u < |p.cmd.sends| :: KeyOf(p', u) == KeyOf(p, u) && p'.cmd.sends[u].attempt == p.cmd.sends[u].attempt;
  }

  lemma RecordKeepsOpen(p: P.Page, p': P.Page, t: nat, status: Status)
    requires PageInv(p) && Live(p, t) && !status.Sending? && Recorded(p, p', t, status)
    ensures OneOpenAttempt(p')
  {
    LiveIsOut(p, t);
    assert forall u | 0 <= u < |p.cmd.sends| :: KeyOf(p', u) == KeyOf(p, u);
  }

  /** A first request that was refused is the only one its key ever had, so the key is dead. */
  lemma FirstRefusalIsFinal(w: World, t: nat)
    requires Inv(w) && Live(w.page, t) && w.page.cmd.sends[t].previous.None? && Answered(w.net, t, Refused)
    ensures Dead(w.net, KeyOf(w.page, t))
  {
    var k := KeyOf(w.page, t);
    LiveIsOut(w.page, t);
    assert forall u | 0 <= u < |w.net.requests| && w.net.requests[u].key == k :: u == t;
    assert !ServedAsDone(w.net, k);
  }

  lemma RecordKeepsWorld(w: World, w': World, t: nat, status: Status)
    requires Inv(w) && Live(w.page, t) && !status.Sending? && Recorded(w.page, w'.page, t, status) && w'.net == w.net
    requires status.Succeeded? ==> Answered(w.net, t, Done)
    requires status.Conflict? || status.Rejected? ==> Answered(w.net, t, Refused) && w.page.cmd.sends[t].previous.None?
    ensures Inv(w')
  {
    RecordKeepsPage(w.page, w'.page, t, status);
    RecordKeepsOpen(w.page, w'.page, t, status);
    if status.Conflict? || status.Rejected? {
      FirstRefusalIsFinal(w, t);
    }
    assert forall u | 0 <= u < |w.page.cmd.sends| :: KeyOf(w'.page, u) == KeyOf(w.page, u);
  }

  // ---- Closing, dismissing, leaving, entering ----

  /** A send is closed: after its reload, or as a continuation of a page that is gone, or aborted. */
  lemma CloseKeepsInv(p: P.Page, t: nat)
    requires PageInv(p) && t < |p.cmd.sends| && p.cmd.sends[t].open
    requires Live(p, t) ==> p.cmd.sends[t].aborted
    ensures PageInv(P.CloseSend(p, t))
  {
    var p' := P.CloseSend(p, t);
    assert forall u | 0 <= u < |p.cmd.sends| :: KeyOf(p', u) == KeyOf(p, u);
  }

  lemma DismissKeepsInv(p: P.Page)
    requires PageInv(p) && p.mounted
    ensures PageInv(P.Dismiss(p))
  {
    var p' := P.Dismiss(p);
    assert forall u | 0 <= u < |p.cmd.sends| :: KeyOf(p', u) == KeyOf(p, u);
  }

  predicate SentBecomesUncertain(before: Option<Record>, after: Option<Record>) {
    before.Some? && before.value.status.Sending? && after == Some(before.value.(status := Uncertain))
  }

  /** Leaving turns "sending" into "uncertain" in the memory, for a command still out. */
  lemma LeaveKeepsInv(p: P.Page)
    requires PageInv(p)
    ensures PageInv(P.Leave(p)) && !P.Leave(p).mounted
    ensures P.Leave(p).cmd.memory == p.cmd.memory || SentBecomesUncertain(p.cmd.memory, P.Leave(p).cmd.memory)
  {
    var p' := P.Leave(p);
    assert forall u | 0 <= u < |p.cmd.sends| :: KeyOf(p', u) == KeyOf(p, u) && p'.cmd.sends[u].(aborted := p.cmd.sends[u].aborted) == p.cmd.sends[u];
  }

  lemma EnterKeepsInv(p: P.Page, remembered: Option<Record>, intent: string)
    requires PageInv(p) && !p.mounted
    requires remembered == p.cmd.memory || SentBecomesUncertain(remembered, p.cmd.memory)
    ensures PageInv(P.Enter(p, remembered, intent))
  {
    var p' := P.Enter(p, remembered, intent);
    assert forall u | 0 <= u < |p.cmd.sends| :: KeyOf(p', u) == KeyOf(p, u);
  }

  // ---- Every step ----

  /** The network and the sends are as before; only the page's own affairs moved. */
  lemma PageOnlyKeepsWorld(w: World, p': P.Page)
    requires Inv(w) && PageInv(p') && |p'.cmd.sends| == |w.page.cmd.sends| && p'.cmd.settled == w.page.cmd.settled
    requires forall t | 0 <= t < |p'.cmd.sends| :: p'.cmd.sends[t].attempt == w.page.cmd.sends[t].attempt
    ensures Inv(World(p', w.net))
  {
    assert forall t | 0 <= t < |p'.cmd.sends| :: KeyOf(p', t) == KeyOf(w.page, t);
  }

  lemma CloseKeepsWorld(w: World, t: nat)
    requires Inv(w) && t < |w.page.cmd.sends| && w.page.cmd.sends[t].open
    requires Live(w.page, t) ==> w.page.cmd.sends[t].aborted
    ensures Inv(World(P.CloseSend(w.page, t), w.net))
  {
    CloseKeepsInv(w.page, t);
    hide PageInv, Aligned, OutcomesTrue, Sound;
    PageOnlyKeepsWorld(w, P.CloseSend(w.page, t));
  }

  lemma ConfirmKeepsWorld(w: World, sameAttempt: bool, canManage: bool, locationKey: string)
    requires Inv(w) && w.page.mounted
    ensures Inv(Step(w, OnPage(P.Confirmed(sameAttempt, canManage, locationKey))))
  {
    var p, e := w.page, P.Confirmed(sameAttempt, canManage, locationKey);
    var w' := Step(w, OnPage(e));
    if |w'.page.cmd.sends| > |p.cmd.sends| {
      var attempt := w'.page.cmd.sends[|p.cmd.sends|].attempt;
      if sameAttempt {
        DispatchKeepsWorld(w, w', attempt);
      } else {
        var numbered := p.(cmd := p.cmd.(nextKey := p.cmd.nextKey + 1));
        SpareKeyKeepsInv(p, numbered);
        PageOnlyKeepsWorld(w, numbered);
        DispatchKeepsWorld(World(numbered, w.net), w', attempt);
      }
    } else {
      SameCommandsKeepInv(p, w'.page);
      PageOnlyKeepsWorld(w, w'.page);
    }
  }

  lemma SpareKeyKeepsInv(p: P.Page, numbered: P.Page)
    requires PageInv(p) && numbered == p.(cmd := p.cmd.(nextKey := p.cmd.nextKey + 1))
    ensures PageInv(numbered)
  {
    assert forall t | 0 <= t < |p.cmd.sends| :: KeyOf(numbered, t) == KeyOf(p, t);
  }

  lemma ReturnRecords(p: P.Page, t: nat, onPage: bool)
    requires Live(p, t) && !p.cmd.sends[t].aborted && p.cmd.command == Some(t)
    ensures Recorded(p, P.SendReturned(p, t, onPage), t, Succeeded)
  {
  }

  lemma ReturnCloses(p: P.Page, t: nat, onPage: bool)
    requires P.Awaited(p, t) && (Live(p, t) ==> p.cmd.sends[t].aborted)
    ensures P.SendReturned(p, t, onPage) == P.CloseSend(p, t)
  {
  }

  lemma ReturnKeepsWorld(w: World, t: nat, onPage: bool)
    requires Inv(w) && Answered(w.net, t, Done)
    ensures Inv(World(P.SendReturned(w.page, t, onPage), w.net))
    ensures |P.SendReturned(w.page, t, onPage).cmd.sends| == |w.page.cmd.sends|
  {
    var p, p' := w.page, P.SendReturned(w.page, t, onPage);
    if !P.Awaited(p, t) {
    } else if Live(p, t) && !p.cmd.sends[t].aborted {
      LiveIsOut(p, t);
      ReturnRecords(p, t, onPage);
      hide P.SendReturned, PageInv, OutcomesTrue, Aligned, Sound;
      RecordKeepsWorld(w, World(p', w.net), t, Succeeded);
    } else {
      ReturnCloses(p, t, onPage);
      hide P.SendReturned, Inv, PageInv, OutcomesTrue, Aligned, Sound;
      CloseKeepsWorld(w, t);
    }
  }

  lemma ThrowKeepsWorld(w: World, t: nat, cause: Cause)
    requires Inv(w) && Plausible(w, P.CommandThrew(t, cause))
    ensures Inv(Step(w, OnPage(P.CommandThrew(t, cause))))
  {
    var p, p' := w.page, P.SendThrew(w.page, t, cause);
    if Live(p, t) {
      LiveIsOut(p, t);
      var failure := FailureOf(p.cmd.sends[t].attempt, cause, p.cmd.sends[t].previous);
      assert failure.record.attempt == p.cmd.sends[t].attempt;
      RecordKeepsWorld(w, World(p', w.net), t, failure.record.status);
    } else if P.Awaited(p, t) {
      CloseKeepsWorld(w, t);
    }
  }

  lemma LifetimeKeepsWorld(w: World, e: P.Event)
    requires Inv(w) && (e.Mount? || e.Unmount? || e.ChangeKey?)
    ensures Inv(Step(w, OnPage(e)))
  {
    var p := w.page;
    LeaveKeepsInv(p);
    var p' := P.Step(p, e);
    match e {
      case Mount(intent) => if !p.mounted { EnterKeepsInv(p, p.cmd.memory, intent); }
      case Unmount =>
      case ChangeKey(intent) => if p.mounted { EnterKeepsInv(P.Leave(p), p.cmd.memory, intent); }
    }
    PageOnlyKeepsWorld(w, p');
  }

  lemma FinishKeepsWorld(w: World, t: nat)
    requires Inv(w)
    ensures Inv(Step(w, OnPage(P.CommandFinished(t))))
  {
    hide Inv;
    if P.SendFinished(w.page, t) != w.page {
      CloseKeepsWorld(w, t);
    }
  }

  lemma DismissKeepsWorld(w: World)
    requires Inv(w)
    ensures Inv(Step(w, OnPage(P.Dismissed)))
  {
    var p' := P.Dismiss(w.page);
    if w.page.mounted {
      DismissKeepsInv(w.page);
      hide PageInv, Aligned, OutcomesTrue, Sound;
      PageOnlyKeepsWorld(w, p');
    }
  }

  /** Steps that leave the commands alone, up to flags. */
  lemma QuietKeepsWorld(w: World, e: P.Event)
    requires Inv(w) && SameCommands(w.page, P.Step(w.page, e))
    ensures Inv(Step(w, OnPage(e)))
  {
    hide P.Step, PageInv, Aligned, OutcomesTrue, Sound;
    var p' := P.Step(w.page, e);
    SameCommandsKeepInv(w.page, p');
    PageOnlyKeepsWorld(w, p');
  }

  lemma AbortIsQuiet(p: P.Page)
    ensures SameCommands(p, P.Step(p, P.WaitCancelled))
  {
  }

  lemma StepKeepsInv(w: World, e: Event)
    requires Inv(w)
    ensures Inv(Step(w, e))
  {
    match e
    case OnNet(n) => StepIsSound(w.net, n);
    case OnPage(e) => PageStepKeepsInv(w, e);
  }

  lemma PageStepKeepsInv(w: World, e: P.Event)
    requires Inv(w)
    ensures Inv(Step(w, OnPage(e)))
  {
    hide Inv, P.Step;
    if Plausible(w, e) {
      match e
      case Mount(_) => LifetimeKeepsWorld(w, e);
      case Unmount => LifetimeKeepsWorld(w, e);
      case ChangeKey(_) => LifetimeKeepsWorld(w, e);
      case CommandReturned(t, onPage) =>
        ReturnKeepsWorld(w, t, onPage);
        assert P.Step(w.page, e) == P.SendReturned(w.page, t, onPage) by { StepOfReturn(w.page, t, onPage); }
      case CommandThrew(t, cause) => ThrowKeepsWorld(w, t, cause);
      case CommandFinished(t) => FinishKeepsWorld(w, t);
      case Dismissed => DismissKeepsWorld(w);
      case Confirmed(sameAttempt, canManage, locationKey) =>
        if w.page.mounted {
          ConfirmKeepsWorld(w, sameAttempt, canManage, locationKey);
        } else {
          NothingUnmounted(w.page, e);
          QuietKeepsWorld(w, e);
        }
      case WaitCancelled =>
        AbortIsQuiet(w.page);
        QuietKeepsWorld(w, e);
      case _ =>
        P.OthersKeepCommands(w.page, e);
        SameCommandsOf(w.page, P.Step(w.page, e));
        QuietKeepsWorld(w, e);
    }
  }

  lemma StepOfReturn(p: P.Page, t: nat, onPage: bool)
    ensures P.Step(p, P.CommandReturned(t, onPage)) == P.SendReturned(p, t, onPage)
  {
  }

  lemma NothingUnmounted(p: P.Page, e: P.Event)
    requires !p.mounted && e.Confirmed?
    ensures SameCommands(p, P.Step(p, e))
  {
  }

  lemma SameCommandsOf(p: P.Page, p': P.Page)
    requires p'.cmd == p.cmd && p'.mounted == p.mounted && p'.instance == p.instance
    ensures SameCommands(p, p')
  {
  }

  lemma {:induction false} RunKeepsInv(w: World, events: seq<Event>)
    requires Inv(w)
    ensures Inv(Run(w, events))
    decreases events
  {
    if events != [] {
      StepKeepsInv(w, events[0]);
      RunKeepsInv(Step(w, events[0]), events[1..]);
    }
  }

  // ---- Main results ----

  /** The attempt a step sends, if it sends one. */
  predicate Sends(w: World, w': World, attempt: Attempt) {
    |w'.page.cmd.sends| == |w.page.cmd.sends| + 1 && w'.page.cmd.sends[|w.page.cmd.sends|].attempt == attempt
  }

  lemma StepSends(w: World, e: Event, attempt: Attempt)
    requires Inv(w) && Sends(w, Step(w, e), attempt)
    ensures w.page.mounted && w.page.cmd.command.None?
    ensures if w.page.cmd.record.Some? then w.page.cmd.record == Some(Record(attempt, Uncertain)) else attempt.key == w.page.cmd.nextKey
  {
    if e.OnPage? && !e.e.Confirmed? {
      P.OnlyConfirmSends(w.page, e.e);
    }
  }

  /** Over every run, with cancelling, unmounting, remounting, lost, late and failed answers: when an
      attempt is sent, every different attempt sent before has reached a definite outcome; and while
      the memory holds an attempt without one, that very attempt, with its key and its body, is the
      only thing that can be sent. */
  lemma NeverTwoOpenAttempts(companyId: string, events: seq<Event>, e: Event, attempt: Attempt)
    ensures var w := Run(Start(companyId), events);
      Sends(w, Step(w, e), attempt) ==>
        && (forall t | 0 <= t < |w.page.cmd.sends| && w.page.cmd.sends[t].attempt != attempt :: KeyOf(w.page, t) in w.page.cmd.settled)
        && (w.page.cmd.memory.Some? ==> w.page.cmd.memory == Some(Record(attempt, Uncertain)))
  {
    var w := Run(Start(companyId), events);
    RunKeepsInv(Start(companyId), events);
    if Sends(w, Step(w, e), attempt) {
      StepSends(w, e, attempt);
      assert w.page.cmd.memory.Some? ==> w.page.cmd.memory == w.page.cmd.record == Some(Record(attempt, Uncertain));
    }
  }

  /** Over every run: no attempt takes effect twice; a recorded success took effect; of two different
      attempts the first was settled, so it took effect only if it was recorded as a success; and all
      requests of one key carry one body. */
  lemma OutcomesMatchEffects(companyId: string, events: seq<Event>)
    ensures var w := Run(Start(companyId), events);
      && (forall i, j | 0 <= i < j < |w.net.applied| :: w.net.applied[i] != w.net.applied[j])
      && (forall k | k in w.page.cmd.settled :: w.page.cmd.settled[k].Succeeded? <==> k in w.net.applied)
      && (forall t, u | 0 <= t < u < |w.page.cmd.sends| ::
            if KeyOf(w.page, t) == KeyOf(w.page, u) then w.page.cmd.sends[t].attempt == w.page.cmd.sends[u].attempt
            else KeyOf(w.page, t) in w.page.cmd.settled)
  {
    RunKeepsInv(Start(companyId), events);
  }

  lemma SettledStays(w: World, e: Event, k: Key)
    requires Inv(w) && k in w.page.cmd.settled
    ensures var settled := Step(w, e).page.cmd.settled; k in settled && settled[k] == w.page.cmd.settled[k]
  {
    if e.OnPage? {
      match e.e {
        case CommandReturned(t, _) => if Live(w.page, t) { LiveIsOut(w.page, t); }
        case CommandThrew(t, _) => if Live(w.page, t) { LiveIsOut(w.page, t); }
        case _ => OthersKeepSettled(w.page, e.e);
      }
    }
  }

  lemma OthersKeepSettled(p: P.Page, e: P.Event)
    requires !e.CommandReturned? && !e.CommandThrew?
    ensures P.Step(p, e).cmd.settled == p.cmd.settled
  {
  }

  /** A definite outcome is never revised, and stays true whatever arrives later: a refused attempt
      never takes effect. */
  lemma {:induction false} OutcomesAreFinal(w: World, events: seq<Event>, k: Key)
    requires Inv(w) && k in w.page.cmd.settled
    ensures var w' := Run(w, events);
      && k in w'.page.cmd.settled && w'.page.cmd.settled[k] == w.page.cmd.settled[k]
      && (w.page.cmd.settled[k].Succeeded? <==> k in w'.net.applied)
    decreases events
  {
    if events != [] {
      StepKeepsInv(w, events[0]);
      SettledStays(w, events[0], k);
      OutcomesAreFinal(Step(w, events[0]), events[1..], k);
    }
  }
}
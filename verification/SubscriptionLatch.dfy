/** The context latch and stale reads: what a read's answer may still do depends on what has happened
    since the read started. The page compares counters; the history says what they stand for. */
module SubscriptionLatch {
  import opened Common
  import opened SubscriptionSafety
  import opened SubscriptionPage

  /** Since the page was mounted no read started after read `t`. */
  ghost predicate Newest(h: seq<Mark>, t: nat) {
    h != [] &&
    match h[|h| - 1]
    case Started(u) => u == t
    case Mounted => false
    case Unmounted => false
    case _ => Newest(h[..|h| - 1], t)
  }

  /** Nor was a context mismatch observed since it started. */
  ghost predicate NewestAndClean(h: seq<Mark>, t: nat) {
    h != [] &&
    match h[|h| - 1]
    case Started(u) => u == t
    case Mounted => false
    case Unmounted => false
    case Mismatch => false
    case _ => NewestAndClean(h[..|h| - 1], t)
  }

  /** Data is stored only from the newest read, and the latch opened only by a read that is the newest
      and started after the last mismatch. */
  ghost predicate Orderly(h: seq<Mark>) {
    h == [] ||
    var init, last := h[..|h| - 1], h[|h| - 1];
    && Orderly(init)
    && (last.Stored? ==> Newest(init, last.read))
    && (last.Opened? ==> NewestAndClean(init, last.read))
  }

  /** The latch was opened after the last mount and the last mismatch. */
  ghost predicate OpenedSince(h: seq<Mark>) {
    h != [] &&
    match h[|h| - 1]
    case Opened(_) => true
    case Mounted => false
    case Unmounted => false
    case Mismatch => false
    case _ => OpenedSince(h[..|h| - 1])
  }

  lemma Appended(h: seq<Mark>, x: Mark)
    ensures forall t :: Newest(h + [x], t) <==>
      if x.Started? then x.read == t else !x.Mounted? && !x.Unmounted? && Newest(h, t)
    ensures forall t :: NewestAndClean(h + [x], t) <==>
      if x.Started? then x.read == t else !x.Mounted? && !x.Unmounted? && !x.Mismatch? && NewestAndClean(h, t)
    ensures Orderly(h + [x]) <==>
      Orderly(h) && (x.Stored? ==> Newest(h, x.read)) && (x.Opened? ==> NewestAndClean(h, x.read))
    ensures OpenedSince(h + [x]) <==> x.Opened? || (!x.Mounted? && !x.Unmounted? && !x.Mismatch? && OpenedSince(h))
  {
    assert (h + [x])[..|h|] == h;
  }

  // ---- The counters stand for the history ----

  ghost predicate ReadInv(p: Page, t: nat)
    requires t < |p.rd.all|
  {
    && p.rd.all[t].instance <= p.instance
    && (p.mounted && p.rd.all[t].instance == p.instance ==>
          p.rd.all[t].requestId <= p.rd.requestId && p.rd.all[t].revision <= p.rd.revision)
    && (p.mounted && p.rd.all[t].instance == p.instance && p.rd.all[t].requestId == p.rd.requestId ==> Newest(p.history, t))
    && (Fresh(p, t) ==> NewestAndClean(p.history, t))
  }

  /** The page's current read is the newest, and is clean as long as its revision is the page's. */
  ghost predicate CurrentRead(p: Page) {
    && (forall t | t in p.rd.aborted :: t < |p.rd.all|)
    && (p.mounted && p.rd.current.Some? ==> p.rd.current.value < |p.rd.all| && Live(p, p.rd.current.value))
    && (forall t: nat :: Newest(p.history, t) <==> p.mounted && p.rd.current == Some(t))
    && (forall t: nat :: NewestAndClean(p.history, t)
          <==> p.mounted && p.rd.current == Some(t) && p.rd.all[t].revision == p.rd.revision)
  }

  ghost predicate Inv(p: Page) {
    && Orderly(p.history) && CurrentRead(p)
    && (forall t | 0 <= t < |p.rd.all| :: ReadInv(p, t))
    && (p.mounted ==> (OpenedSince(p.history) <==> !p.rd.blocked))
  }

  /** Steps that leave reads and history alone. */
  lemma SameReads(p: Page, p': Page)
    requires Inv(p)
    requires p'.instance == p.instance && p'.mounted == p.mounted && p'.history == p.history
    requires p'.rd.requestId == p.rd.requestId && p'.rd.revision == p.rd.revision && p'.rd.aborted == p.rd.aborted
    requires |p'.rd.all| == |p.rd.all| && p'.rd.blocked == p.rd.blocked && p'.rd.current == p.rd.current
    requires forall t | 0 <= t < |p.rd.all| :: p'.rd.all[t].(open := p.rd.all[t].open) == p.rd.all[t]
    ensures Inv(p')
  {
    forall t | 0 <= t < |p'.rd.all| ensures ReadInv(p', t) {
      assert ReadInv(p, t);
    }
  }

  lemma BlockKeepsInv(p: Page)
    requires Inv(p)
    ensures Inv(BlockContext(p))
  {
    var p' := BlockContext(p);
    Appended(p.history, Mismatch);
    forall t | 0 <= t < |p'.rd.all| ensures ReadInv(p', t) {
      assert ReadInv(p, t);
    }
    if p.mounted && p.rd.current.Some? {
      assert ReadInv(p, p.rd.current.value);
    }
  }

  lemma StartReadKeepsInv(p: Page, paging: bool)
    requires Inv(p) && p.mounted
    ensures Inv(StartRead(p, paging))
  {
    var p' := StartRead(p, paging);
    Appended(p.history, Started(|p.rd.all|));
    forall t | 0 <= t < |p'.rd.all| ensures ReadInv(p', t) {
      if t < |p.rd.all| {
        assert ReadInv(p, t);
        assert p'.rd.all[t] == p.rd.all[t];
      }
    }
  }

  lemma StoreKeepsInv(p: Page, t: nat, opens: bool, p': Page)
    requires Inv(p) && t < |p.rd.all| && Live(p, t) && (opens ==> Fresh(p, t))
    requires p'.instance == p.instance && p'.mounted == p.mounted
    requires p'.history == p.history + if opens then [Stored(t), Opened(t)] else [Stored(t)]
    requires p'.rd.requestId == p.rd.requestId && p'.rd.revision == p.rd.revision && p'.rd.aborted == p.rd.aborted
    requires p'.rd.all == p.rd.all && p'.rd.current == p.rd.current && p'.rd.blocked == (p.rd.blocked && !opens)
    ensures Inv(p')
  {
    hide Newest, NewestAndClean, Orderly, OpenedSince;
    Appended(p.history, Stored(t));
    assert ReadInv(p, t);
    if opens {
      Appended(p.history + [Stored(t)], Opened(t));
      assert p'.history == p.history + [Stored(t)] + [Opened(t)];
    }
    forall u | 0 <= u < |p'.rd.all| ensures ReadInv(p', u) {
      assert ReadInv(p, u);
    }
  }

  lemma TakeKeepsInv(p: Page, t: nat, r: Result, fallback: string)
    requires Inv(p) && t < |p.rd.all|
    ensures Inv(TakeAnswer(p, t, r, fallback)) && TakeAnswer(p, t, r, fallback).rd.all == p.rd.all
  {
    hide Newest, NewestAndClean, Orderly, OpenedSince;
    BlockKeepsInv(p);
    hide Inv;
    var p' := TakeAnswer(p, t, r, fallback);
    if p.rd.all[t].paging {
      if Live(p, t) && r.Paged? {
        StoreKeepsInv(p, t, false, p');
      }
    } else if Fresh(p, t) && r.Loaded? && r.companyId == p.companyId && r.sameActor && r.sameScope {
      StoreKeepsInv(p, t, true, p');
    }
  }

  lemma AnswerKeepsInv(p: Page, t: nat, r: Result, fallback: string)
    requires Inv(p)
    ensures Inv(AnswerRead(p, t, r, fallback))
  {
    if t < |p.rd.all| && p.rd.all[t].open {
      TakeKeepsInv(p, t, r, fallback);
      hide Inv, TakeAnswer;
      SameReads(TakeAnswer(p, t, r, fallback), AnswerRead(p, t, r, fallback));
    }
  }

  lemma LeaveKeepsInv(p: Page)
    requires Inv(p)
    ensures Inv(Leave(p))
  {
    if p.mounted {
      Appended(p.history, Unmounted);
      forall t | 0 <= t < |p.rd.all| ensures ReadInv(Leave(p), t) {
        assert ReadInv(p, t);
      }
    }
  }

  lemma EnterKeepsInv(p: Page, remembered: Option<Record>, intent: string)
    requires Inv(p)
    ensures Inv(Enter(p, remembered, intent))
  {
    if !p.mounted {
      Appended(p.history, Mounted);
      forall t | 0 <= t < |p.rd.all| ensures ReadInv(Enter(p, remembered, intent), t) {
        assert ReadInv(p, t);
      }
    }
  }

  lemma ThrowKeepsInv(p: Page, t: nat, cause: Cause)
    requires Inv(p)
    ensures Inv(SendThrew(p, t, cause))
  {
    hide Newest, NewestAndClean, Orderly, OpenedSince;
    BlockKeepsInv(p);
    var p' := SendThrew(p, t, cause);
    SameReads(if p'.history == p.history then p else BlockContext(p), p');
  }

  lemma ReturnKeepsInv(p: Page, t: nat, onPage: bool)
    requires Inv(p)
    ensures Inv(SendReturned(p, t, onPage))
  {
    hide Newest, NewestAndClean, Orderly, OpenedSince;
    var p' := SendReturned(p, t, onPage);
    if p'.history == p.history {
      SameReads(p, p');
    } else {
      StartReadKeepsInv(p, false);
      SameReads(StartRead(p, false), p');
    }
  }

  lemma ConfirmKeepsInv(p: Page, sameAttempt: bool, canManage: bool, locationKey: string)
    requires Inv(p)
    ensures Inv(Confirm(p, sameAttempt, canManage, locationKey))
  {
    hide Newest, NewestAndClean, Orderly, OpenedSince;
    BlockKeepsInv(p);
    hide ReadInv;
    var p' := Confirm(p, sameAttempt, canManage, locationKey);
    if p'.history == p.history {
      SameReads(p, p');
    }
  }

  lemma RouteKeepsInv(p: Page, intent: Intent, fallback: string)
    requires Inv(p)
    ensures Inv(ChangeRoute(p, intent, fallback))
  {
    hide Newest, NewestAndClean, Orderly, OpenedSince, ReadInv;
    SameReads(p, ChangeRoute(p, intent, fallback));
  }

  lemma TurnPageKeepsInv(p: Page)
    requires Inv(p) && p.mounted
    ensures Inv(PageCatalog(p))
  {
    hide Newest, NewestAndClean, Orderly, OpenedSince, ReadInv;
    SameReads(p, ClearReview(p));
    StartReadKeepsInv(ClearReview(p), true);
  }

  predicate TouchesReads(e: Event) {
    e.Load? || e.TurnPage? || e.Confirmed? || e.RouteChanged?
  }

  lemma OtherHandlerKeepsInv(p: Page, e: Event)
    requires Inv(p) && !TouchesReads(e)
    ensures Inv(HandleStep(p, e))
  {
    hide Newest, NewestAndClean, Orderly, OpenedSince, ReadInv;
    SameReads(p, HandleStep(p, e));
  }

  lemma HandlerKeepsInv(p: Page, e: Event)
    requires Inv(p) && p.mounted
    ensures Inv(HandleStep(p, e))
  {
    hide Inv, Confirm, ChangeRoute, PageCatalog, StartRead;
    match e
    case Load => StartReadKeepsInv(p, false);
    case TurnPage => TurnPageKeepsInv(p);
    case Confirmed(sameAttempt, canManage, locationKey) => ConfirmKeepsInv(p, sameAttempt, canManage, locationKey);
    case RouteChanged(intent, fallback) => RouteKeepsInv(p, intent, fallback);
    case _ => OtherHandlerKeepsInv(p, e);
  }

  lemma StepKeepsInv(p: Page, e: Event)
    requires Inv(p)
    ensures Inv(Step(p, e))
  {
    hide Newest, NewestAndClean, Orderly, OpenedSince;
    match e
    case Mount(intent) => EnterKeepsInv(p, p.cmd.memory, intent);
    case Unmount => LeaveKeepsInv(p);
    case ChangeKey(intent) => LeaveKeepsInv(p); EnterKeepsInv(Leave(p), p.cmd.memory, intent);
    case ReadAnswered(t, r, fallback) => AnswerKeepsInv(p, t, r, fallback);
    case SnapshotArrived(t, companyId) => BlockKeepsInv(p);
    case CommandReturned(t, onPage) => ReturnKeepsInv(p, t, onPage);
    case CommandThrew(t, cause) => ThrowKeepsInv(p, t, cause);
    case CommandFinished(t) => SameReads(p, SendFinished(p, t));
    case _ => if p.mounted { HandlerKeepsInv(p, e); }
  }

  lemma {:induction false} RunKeepsInv(p: Page, events: seq<Event>)
    requires Inv(p)
    ensures Inv(Run(p, events))
    decreases events
  {
    if events != [] {
      StepKeepsInv(p, events[0]);
      RunKeepsInv(Step(p, events[0]), events[1..]);
    }
  }

  /** Over every run, with any number of overlapping loads and pages and of mounts: the latch is opened
      only by a read that started after the last observed mismatch and is the newest issued, data is
      stored only from the newest read, and the latch is open exactly when it was so opened since the
      last mount and the last mismatch. */
  lemma LatchFollowsHistory(companyId: string, events: seq<Event>)
    ensures var p := Run(Start(companyId), events);
      Orderly(p.history) && (p.mounted ==> (!p.rd.blocked <==> OpenedSince(p.history)))
  {
    RunKeepsInv(Start(companyId), events);
  }
}

/** The seed's posting code seen from its effects: what each call does to every account and every open
    item, and what a run of them adds up to. */
module LedgerBalances {
  import opened Common
  import opened DemoLedger

  // ---- Balances of accounts ----

  /** Debits less credits of one account. */
  function Movement(lines: seq<Line>, account: string): Amount {
    if lines == [] then 0
    else
      var last := lines[|lines| - 1];
      Movement(lines[..|lines| - 1], account) + if last.account == account then last.debit - last.credit else 0
  }

  /** Posted debits less posted credits of one account. */
  function Balance(ds: seq<Document>, account: string): Amount {
    if ds == [] then 0
    else Balance(ds[..|ds| - 1], account) + if ds[|ds| - 1].posted then Movement(ds[|ds| - 1].lines, account) else 0
  }

  /** No document of the kind has the number. */
  predicate IsNew(s: State, kind: Kind, number: string) {
    forall d | d in s.documents :: !(d.kind == kind && d.number == number)
  }

  /** One document more, of this kind and number, posted or not, with this allocation. */
  predicate Adds(s: State, s': State, kind: Kind, number: string, posted: bool, allocation: Option<Allocation>) {
    && |s'.documents| == |s.documents| + 1 && s'.documents[..|s.documents|] == s.documents
    && var d := s'.documents[|s.documents|];
    d.kind == kind && d.number == number && d.posted == posted && d.allocation == allocation
  }

  /** `amount` moves from one account to another, and nothing moves if they are the same. */
  ghost predicate Transfers(s: State, s': State, debited: string, credited: string, amount: Amount) {
    forall account :: Balance(s'.documents, account) == Balance(s.documents, account)
      + (if account == debited && account != credited then amount else 0)
      - (if account == credited && account != debited then amount else 0)
  }

  ghost predicate SameBalances(s: State, s': State) {
    forall account :: Balance(s'.documents, account) == Balance(s.documents, account)
  }

  /** The item owes `amount` less, under the next version, and is settled exactly if nothing is left. */
  predicate Pays(s: State, s': State, id: ItemId, amount: Amount)
    requires id in s.items
  {
    && s'.items.Keys == s.items.Keys
    && (forall other | other in s.items && other != id :: s'.items[other] == s.items[other])
    && s'.items[id].original == s.items[id].original
    && s'.items[id].outstanding == s.items[id].outstanding - amount
    && s'.items[id].version == s.items[id].version + 1
    && (s'.items[id].outstanding == 0 <==> s'.items[id].status.Settled?)
    && (s'.items[id].outstanding != 0 <==> s'.items[id].status.Partial?)
  }

  lemma AddedDocument(ds: seq<Document>, d: Document, account: string)
    ensures Balance(ds + [d], account) == Balance(ds, account) + if d.posted then Movement(d.lines, account) else 0
  {
    assert (ds + [d])[..|ds|] == ds;
  }

  lemma TwoLines(first: Line, second: Line, account: string)
    ensures Movement([first, second], account)
      == (if first.account == account then first.debit - first.credit else 0)
         + if second.account == account then second.debit - second.credit else 0
  {
    assert [first, second][..1] == [first] && [first][..0] == [];
    assert Movement([first], account) == if first.account == account then first.debit - first.credit else 0;
  }

  /** A posted receipt raises the account it was paid into and lowers the receivables, 1130, by its amount, and
      moves no other account; paid into 1130 itself it moves none. A draft moves none. The receivable owes that
      much less once the receipt is posted; one that is not found leaves no trace. */
  lemma ReceiptMoves(s: State, number: string, posted: bool, amount: Amount, cash: string, receivable: Option<nat>)
    ensures var outcome := Apply(s, Receive(number, posted, amount, cash, receivable));
      if !IsNew(s, Receipt, number) then outcome == Done(s)
      else if receivable.Some? && Receivable(receivable.value) !in s.items then outcome == Failed
      else
        && outcome.Done? && var s' := outcome.state;
        && Adds(s, s', Receipt, number, posted,
                if receivable.Some? then Some(Allocation(Receivable(receivable.value), amount)) else None)
        && (if posted then Transfers(s, s', cash, "1130", amount) else SameBalances(s, s'))
        && (if posted && receivable.Some? then Pays(s, s', Receivable(receivable.value), amount) else s'.items == s.items)
  {
    var outcome := Apply(s, Receive(number, posted, amount, cash, receivable));
    if IsNew(s, Receipt, number) && outcome.Done? {
      forall account ensures Balance(outcome.state.documents, account) == Balance(s.documents, account)
          + (if posted && account == cash && account != "1130" then amount else 0)
          - (if posted && account == "1130" && account != cash then amount else 0) {
        AddedDocument(s.documents, outcome.state.documents[|s.documents|], account);
        TwoLines(Line(cash, amount, 0), Line("1130", 0, amount), account);
      }
    }
  }

  /** A posted payment raises the payables, 2110, and lowers the bank, 1120, and nothing else. */
  lemma PaymentMoves(s: State, number: string, posted: bool, amount: Amount, payable: Option<nat>)
    ensures var outcome := Apply(s, Pay(number, posted, amount, payable));
      if !IsNew(s, Payment, number) then outcome == Done(s)
      else if payable.Some? && Payable(payable.value) !in s.items then outcome == Failed
      else
        && outcome.Done? && var s' := outcome.state;
        && Adds(s, s', Payment, number, posted,
                if payable.Some? then Some(Allocation(Payable(payable.value), amount)) else None)
        && (if posted then Transfers(s, s', "2110", "1120", amount) else SameBalances(s, s'))
        && (if posted && payable.Some? then Pays(s, s', Payable(payable.value), amount) else s'.items == s.items)
  {
    var outcome := Apply(s, Pay(number, posted, amount, payable));
    if IsNew(s, Payment, number) && outcome.Done? {
      forall account ensures Balance(outcome.state.documents, account) == Balance(s.documents, account)
          + (if posted && account == "2110" then amount else 0) - (if posted && account == "1120" then amount else 0) {
        AddedDocument(s.documents, outcome.state.documents[|s.documents|], account);
        TwoLines(Line("2110", amount, 0), Line("1120", 0, amount), account);
      }
    }
  }

  /** A posted journal moves each account by its own lines, and a draft none; neither touches an open item. */
  lemma JournalMoves(s: State, number: string, posted: bool, lines: seq<Line>)
    ensures var outcome := Apply(s, Journal(number, posted, lines));
      if !IsNew(s, ManualJournal, number) then outcome == Done(s)
      else
        && outcome.Done? && var s' := outcome.state;
        && Adds(s, s', ManualJournal, number, posted, None) && s'.items == s.items
        && forall account :: Balance(s'.documents, account)
             == Balance(s.documents, account) + if posted then Movement(lines, account) else 0
  {
    var outcome := Apply(s, Journal(number, posted, lines));
    if IsNew(s, ManualJournal, number) {
      forall account ensures Balance(outcome.state.documents, account)
          == Balance(s.documents, account) + if posted then Movement(lines, account) else 0 {
        AddedDocument(s.documents, outcome.state.documents[|s.documents|], account);
      }
    }
  }

  // ---- What a script adds up to ----

  type Name = (Kind, string)

  function NameOf(c: Call): Name {
    match c
    case Journal(number, _, _) => (ManualJournal, number)
    case Receive(number, _, _, _, _) => (Receipt, number)
    case Pay(number, _, _, _) => (Payment, number)
  }

  ghost function Names(ds: seq<Document>): iset<Name> {
    iset kind: Kind, number: string | exists d :: d in ds && d.kind == kind && d.number == number :: (kind, number)
  }

  /** What a call posts to an account under a number that is new. */
  function Posting(c: Call, account: string): Amount {
    if !c.posted then 0
    else
      match c
      case Journal(_, _, lines) => Movement(lines, account)
      case Receive(_, _, amount, cash, _) => (if account == cash then amount else 0) - (if account == "1130" then amount else 0)
      case Pay(_, _, amount, _) => (if account == "2110" then amount else 0) - (if account == "1120" then amount else 0)
  }

  /** What a call pays of an item under a number that is new. */
  function Paying(c: Call, id: ItemId): Amount {
    match c
    case Journal(_, _, _) => 0
    case Receive(_, posted, amount, _, receivable) =>
      if posted && receivable.Some? && id == Receivable(receivable.value) then amount else 0
    case Pay(_, posted, amount, payable) => if posted && payable.Some? && id == Payable(payable.value) then amount else 0
  }

  /** The postings of a list of calls, each number counted the first time it comes up. */
  ghost function Postings(taken: iset<Name>, calls: seq<Call>, account: string): Amount
    decreases calls
  {
    if calls == [] then 0
    else (if NameOf(calls[0]) in taken then 0 else Posting(calls[0], account))
         + Postings(taken + iset{NameOf(calls[0])}, calls[1..], account)
  }

  ghost function Payments(taken: iset<Name>, calls: seq<Call>, id: ItemId): Amount
    decreases calls
  {
    if calls == [] then 0
    else (if NameOf(calls[0]) in taken then 0 else Paying(calls[0], id))
         + Payments(taken + iset{NameOf(calls[0])}, calls[1..], id)
  }

  /** Accounts have moved by what the calls post, and open items by what the calls pay. */
  ghost predicate AddsUp(s: State, s': State, calls: seq<Call>) {
    && (forall account ::
          Balance(s'.documents, account) == Balance(s.documents, account) + Postings(Names(s.documents), calls, account))
    && (forall id | id in s.items ::
          id in s'.items && s'.items[id].outstanding == s.items[id].outstanding - Payments(Names(s.documents), calls, id))
  }

  lemma ApplyAddsUp(s: State, c: Call)
    requires Apply(s, c).Done?
    ensures var s' := Apply(s, c).state;
      && Names(s'.documents) == Names(s.documents) + iset{NameOf(c)}
      && (forall account :: Balance(s'.documents, account)
            == Balance(s.documents, account) + if NameOf(c) in Names(s.documents) then 0 else Posting(c, account))
      && (forall id | id in s.items :: id in s'.items && s'.items[id].outstanding
            == s.items[id].outstanding - if NameOf(c) in Names(s.documents) then 0 else Paying(c, id))
  {
    match c {
      case Journal(number, posted, lines) => JournalMoves(s, number, posted, lines);
      case Receive(number, posted, amount, cash, receivable) => ReceiptMoves(s, number, posted, amount, cash, receivable);
      case Pay(number, posted, amount, payable) => PaymentMoves(s, number, posted, amount, payable);
    }
    hide Apply, Balance, Movement;
    var s' := Apply(s, c).state;
    assert IsNew(s, NameOf(c).0, NameOf(c).1) <==> NameOf(c) !in Names(s.documents);
    if NameOf(c) !in Names(s.documents) {
      assert s'.documents == s.documents + [s'.documents[|s.documents|]];
    }
  }

  /** The script is stopped by the first call that settles an item that is not there under a new number. */
  lemma {:induction false} RunStops(s: State, calls: seq<Call>) returns (k: nat)
    ensures k <= |calls| && Run(s, calls[..k]) == (Run(s, calls).0, true)
    ensures Run(s, calls).1 <==> k == |calls|
    ensures k < |calls| ==> Apply(Run(s, calls).0, calls[k]).Failed?
    decreases calls
  {
    if calls == [] || Apply(s, calls[0]).Failed? {
      k := 0;
    } else {
      k := RunStops(Apply(s, calls[0]).state, calls[1..]);
      k := k + 1;
      assert calls[..k][1..] == calls[1..][..k - 1];
    }
  }

  lemma {:induction false} CompletedRunAddsUp(s: State, calls: seq<Call>)
    requires Run(s, calls).1
    ensures AddsUp(s, Run(s, calls).0, calls)
    decreases calls
  {
    if calls != [] {
      ApplyAddsUp(s, calls[0]);
      hide Apply, Balance, Posting, Paying, Names;
      CompletedRunAddsUp(Apply(s, calls[0]).state, calls[1..]);
    }
  }

  /** Over every script from any start: with `k` the number of calls carried out, every account has moved by the
      postings of those calls, and every open item by their payments, each number counted once. */
  lemma RunAddsUp(s: State, calls: seq<Call>) returns (k: nat)
    ensures k <= |calls| && (Run(s, calls).1 <==> k == |calls|)
    ensures k < |calls| ==> Apply(Run(s, calls).0, calls[k]).Failed?
    ensures AddsUp(s, Run(s, calls).0, calls[..k])
  {
    k := RunStops(s, calls);
    CompletedRunAddsUp(s, calls[..k]);
  }
}

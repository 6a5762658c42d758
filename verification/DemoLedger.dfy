/** The posting code of the demonstration seed: journals, receipts and payments are created once
    per explicit number, and a posted receipt or payment settles an open item in place. */
module DemoLedger {
  import opened Common

  /** Exact decimals, counted in the smallest unit the columns hold. */
  type Amount = int

  datatype Kind = ManualJournal | Receipt | Payment
  datatype Line = Line(account: string, debit: Amount, credit: Amount)
  datatype ItemId = Receivable(id: nat) | Payable(id: nat)
  datatype Allocation = Allocation(item: ItemId, amount: Amount)
  datatype Document = Document(kind: Kind, number: string, posted: bool, lines: seq<Line>, allocation: Option<Allocation>)

  datatype Status = Open | Partial | Settled
  datatype Item = Item(original: Amount, outstanding: Amount, status: Status, version: nat)

  datatype State = State(documents: seq<Document>, items: map<ItemId, Item>)

  /** One call of createJournalDocument, createReceipt or createPayment. */
  datatype Call =
    | Journal(number: string, posted: bool, lines: seq<Line>)
    | Receive(number: string, posted: bool, amount: Amount, cashAccount: string, receivable: Option<nat>)
    | Pay(number: string, posted: bool, amount: Amount, payable: Option<nat>)

  const RECEIVABLES := "1130"
  const PAYABLES := "2110"
  const BANK := "1120"

  function KindOf(c: Call): Kind {
    match c
    case Journal(_, _, _) => ManualJournal
    case Receive(_, _, _, _, _) => Receipt
    case Pay(_, _, _, _) => Payment
  }

  function ItemOf(c: Call): Option<ItemId> {
    if c.Receive? && c.receivable.Some? then Some(Receivable(c.receivable.value))
    else if c.Pay? && c.payable.Some? then Some(Payable(c.payable.value))
    else None
  }

  predicate Exists(s: State, kind: Kind, number: string) {
    exists d :: d in s.documents && d.kind == kind && d.number == number
  }

  /** A receipt debits the cash account and credits receivables; a payment debits payables and
      credits the bank; as drafts they have no journal lines. */
  function LinesOf(c: Call): seq<Line> {
    match c
    case Journal(_, _, lines) => lines
    case Receive(_, posted, amount, cash, _) => if posted then [Line(cash, amount, 0), Line(RECEIVABLES, 0, amount)] else []
    case Pay(_, posted, amount, _) => if posted then [Line(PAYABLES, amount, 0), Line(BANK, 0, amount)] else []
  }

  /** A draft settlement keeps its allocation row all the same. */
  function NewDocument(c: Call): Document {
    Document(KindOf(c), c.number, c.posted, LinesOf(c),
             if ItemOf(c).Some? then Some(Allocation(ItemOf(c).value, c.amount)) else None)
  }

  function Settle(item: Item, amount: Amount): Item {
    var outstanding := item.outstanding - amount;
    Item(item.original, outstanding, if outstanding == 0 then Settled else Partial, item.version + 1)
  }

  datatype Outcome = Done(state: State) | Failed

  /** One call as one transaction: a number that exists changes nothing, an unknown item rolls
      everything back. */
  function Apply(s: State, c: Call): Outcome {
    if Exists(s, KindOf(c), c.number) then Done(s)
    else
      var documents, item := s.documents + [NewDocument(c)], ItemOf(c);
      if item.None? then Done(State(documents, s.items))
      else if item.value !in s.items then Failed
      else if c.posted then Done(State(documents, s.items[item.value := Settle(s.items[item.value], c.amount)]))
      else Done(State(documents, s.items))
  }

  /** The script: calls in order, stopped by the first that throws. */
  function Run(s: State, calls: seq<Call>): (State, bool)
    decreases calls
  {
    if calls == [] then (s, true)
    else
      match Apply(s, calls[0])
      case Done(s') => Run(s', calls[1..])
      case Failed => (s, false)
  }

  // ---- Posted debits equal posted credits ----

  function Debits(lines: seq<Line>): Amount {
    if lines == [] then 0 else Debits(lines[..|lines| - 1]) + lines[|lines| - 1].debit
  }

  function Credits(lines: seq<Line>): Amount {
    if lines == [] then 0 else Credits(lines[..|lines| - 1]) + lines[|lines| - 1].credit
  }

  function PostedDebits(ds: seq<Document>): Amount {
    if ds == [] then 0
    else PostedDebits(ds[..|ds| - 1]) + if ds[|ds| - 1].posted then Debits(ds[|ds| - 1].lines) else 0
  }

  function PostedCredits(ds: seq<Document>): Amount {
    if ds == [] then 0
    else PostedCredits(ds[..|ds| - 1]) + if ds[|ds| - 1].posted then Credits(ds[|ds| - 1].lines) else 0
  }

  /** What a posted journal must satisfy for the books to stay balanced; settlements always do. */
  predicate Balanced(c: Call) {
    c.Journal? && c.posted ==> Debits(c.lines) == Credits(c.lines)
  }

  lemma SettlementIsBalanced(c: Call)
    requires !c.Journal?
    ensures Debits(NewDocument(c).lines) == Credits(NewDocument(c).lines) == if c.posted then c.amount else 0
  {
    if c.posted {
      var lines := NewDocument(c).lines;
      assert lines[..1] == [lines[0]] && lines[..1][..0] == [];
      assert Debits(lines[..1]) == Debits(lines[..1][..0]) + c.amount;
      assert Credits(lines[..1]) == Credits(lines[..1][..0]);
    }
  }

  /** A call posts if it is no draft and its number is new. */
  predicate Posts(s: State, c: Call) {
    c.posted && !Exists(s, KindOf(c), c.number)
  }

  /** What a call posts: nothing as a draft or under a number that exists, else the debits and the
      credits of its journal, or the amount received or paid on both sides. */
  function DebitedBy(s: State, c: Call): Amount {
    if !Posts(s, c) then 0 else if c.Journal? then Debits(c.lines) else c.amount
  }

  function CreditedBy(s: State, c: Call): Amount {
    if !Posts(s, c) then 0 else if c.Journal? then Credits(c.lines) else c.amount
  }

  /** A call moves each side of the books by what it posts, so both alike exactly if its journal balances. */
  lemma ApplyMovesBothSides(s: State, c: Call)
    requires Apply(s, c).Done?
    ensures var s' := Apply(s, c).state;
      && PostedDebits(s'.documents) == PostedDebits(s.documents) + DebitedBy(s, c)
      && PostedCredits(s'.documents) == PostedCredits(s.documents) + CreditedBy(s, c)
    ensures DebitedBy(s, c) == CreditedBy(s, c) <==> Balanced(c) || Exists(s, KindOf(c), c.number)
  {
    var s' := Apply(s, c).state;
    if !Exists(s, KindOf(c), c.number) {
      assert s'.documents[..|s.documents|] == s.documents;
      if !c.Journal? {
        SettlementIsBalanced(c);
      }
    }
  }

  /** Over any run of balanced calls the books stay balanced, whatever they hold at the start. */
  lemma {:induction false} BooksStayBalanced(s: State, calls: seq<Call>)
    requires forall c | c in calls :: Balanced(c)
    requires PostedDebits(s.documents) == PostedCredits(s.documents)
    ensures var s' := Run(s, calls).0; PostedDebits(s'.documents) == PostedCredits(s'.documents)
    decreases calls
  {
    if calls != [] && Apply(s, calls[0]).Done? {
      ApplyMovesBothSides(s, calls[0]);
      BooksStayBalanced(Apply(s, calls[0]).state, calls[1..]);
    }
  }

  // ---- Open items ----

  predicate PostedOn(d: Document, id: ItemId) {
    d.posted && d.allocation.Some? && d.allocation.value.item == id
  }

  function Allocated(ds: seq<Document>, id: ItemId): Amount {
    if ds == [] then 0
    else Allocated(ds[..|ds| - 1], id) + if PostedOn(ds[|ds| - 1], id) then ds[|ds| - 1].allocation.value.amount else 0
  }

  function Settlements(ds: seq<Document>, id: ItemId): nat {
    if ds == [] then 0
    else Settlements(ds[..|ds| - 1], id) + if PostedOn(ds[|ds| - 1], id) then 1 else 0
  }

  /** How an item moved while documents were added: outstanding fell by what the new ones allocate, the
      version rose by one with each of them, after the last of them the item is SETTLED exactly at zero, and
      without any it is as it was. */
  ghost predicate Moved(s: State, s': State, id: ItemId)
    requires id in s.items && id in s'.items
  {
    var item, item' := s.items[id], s'.items[id];
    var settlements := Settlements(s'.documents, id) - Settlements(s.documents, id);
    && item'.original == item.original
    && item'.outstanding == item.outstanding - (Allocated(s'.documents, id) - Allocated(s.documents, id))
    && item'.version == item.version + settlements && settlements >= 0
    && (if settlements > 0 then item'.status == (if item'.outstanding == 0 then Settled else Partial) else item' == item)
  }

  lemma DocumentMovesItem(ds: seq<Document>, d: Document, id: ItemId)
    ensures Allocated(ds + [d], id) == Allocated(ds, id) + if PostedOn(d, id) then d.allocation.value.amount else 0
    ensures Settlements(ds + [d], id) == Settlements(ds, id) + if PostedOn(d, id) then 1 else 0
  {
    assert (ds + [d])[..|ds|] == ds;
  }

  lemma ApplyMovesItem(s: State, c: Call, id: ItemId)
    requires Apply(s, c).Done? && id in s.items
    ensures id in Apply(s, c).state.items && Moved(s, Apply(s, c).state, id)
  {
    DocumentMovesItem(s.documents, NewDocument(c), id);
    hide Allocated, Settlements;
  }

  lemma MovesCompose(s: State, s1: State, s2: State, id: ItemId)
    requires id in s.items && id in s1.items && id in s2.items && Moved(s, s1, id) && Moved(s1, s2, id)
    ensures Moved(s, s2, id)
  {
    hide Allocated, Settlements;
  }

  /** From any start, over every run: each item moves by its posted settlements and by nothing else. */
  lemma {:induction false} ItemsFollowSettlements(s: State, calls: seq<Call>, id: ItemId)
    ensures id in Run(s, calls).0.items <==> id in s.items
    ensures id in s.items ==> Moved(s, Run(s, calls).0, id)
    decreases calls
  {
    hide Allocated, Settlements;
    if calls != [] && Apply(s, calls[0]).Done? {
      var s1 := Apply(s, calls[0]).state;
      ItemsFollowSettlements(s1, calls[1..], id);
      if id in s.items {
        ApplyMovesItem(s, calls[0], id);
        MovesCompose(s, s1, Run(s1, calls[1..]).0, id);
      }
    }
  }

  ghost predicate OriginalLessAllocated(s: State, id: ItemId)
    requires id in s.items
  {
    s.items[id].outstanding == s.items[id].original - Allocated(s.documents, id)
  }

  /** So an item's outstanding amount is its original less its posted allocations after a run exactly if it was
      before. */
  lemma OriginalLessAllocatedIff(s: State, calls: seq<Call>, id: ItemId)
    requires id in s.items
    ensures id in Run(s, calls).0.items
    ensures OriginalLessAllocated(Run(s, calls).0, id) <==> OriginalLessAllocated(s, id)
  {
    hide Allocated, Settlements, Run;
    ItemsFollowSettlements(s, calls, id);
  }

  /** A number of riyals in the smallest unit, of four decimals. */
  function Riyals(n: int): Amount { n * 10000 }

  /** It is not so for the items that the script settles: before it does, a credit note has lowered the
      receivable of 23000 by 2300 and a debit note the payable of 13800 by 1150, with no allocation row. */
  lemma CreditedItemsAreLower(s: State, receivable: nat, payable: nat, version: nat)
    requires Receivable(receivable) in s.items && Payable(payable) in s.items
    requires s.items[Receivable(receivable)] == Item(Riyals(23000), Riyals(20700), Partial, version)
    requires s.items[Payable(payable)] == Item(Riyals(13800), Riyals(12650), Partial, version)
    requires Allocated(s.documents, Receivable(receivable)) == 0 && Allocated(s.documents, Payable(payable)) == 0
    requires !Exists(s, Receipt, "RV-00005") && !Exists(s, Payment, "PV-00005")
    ensures var s' := Run(s, [
        Receive("RV-00005", true, Riyals(8000), BANK, Some(receivable)),
        Pay("PV-00005", true, Riyals(5000), Some(payable))]).0;
      && Receivable(receivable) in s'.items && Payable(payable) in s'.items
      && s'.items[Receivable(receivable)].outstanding == Riyals(12700) && s'.items[Payable(payable)].outstanding == Riyals(7650)
      && !OriginalLessAllocated(s', Receivable(receivable)) && !OriginalLessAllocated(s', Payable(payable))
  {
    var first := Receive("RV-00005", true, Riyals(8000), BANK, Some(receivable));
    var second := Pay("PV-00005", true, Riyals(5000), Some(payable));
    var calls := [first, second];
    var s1 := Apply(s, first).state;
    assert !Exists(s1, Payment, "PV-00005") by {
      forall d | d in s1.documents && d.kind == Payment && d.number == "PV-00005" ensures d in s.documents {}
    }
    var s2 := Apply(s1, second).state;
    assert calls[1..] == [second] && [second][1..] == [];
    assert Run(s, calls) == Run(s1, [second]) == Run(s2, []);
    OriginalLessAllocatedIff(s, calls, Receivable(receivable));
    OriginalLessAllocatedIff(s, calls, Payable(payable));
  }

  // ---- Running the script again ----

  lemma {:induction false} DocumentsStay(s: State, calls: seq<Call>, kind: Kind, number: string)
    requires Exists(s, kind, number)
    ensures Exists(Run(s, calls).0, kind, number)
    decreases calls
  {
    if calls != [] && Apply(s, calls[0]).Done? {
      var d :| d in s.documents && d.kind == kind && d.number == number;
      assert d in Apply(s, calls[0]).state.documents;
      DocumentsStay(Apply(s, calls[0]).state, calls[1..], kind, number);
    }
  }

  /** A script stopped after any number of calls and then run in full ends exactly where one
      uninterrupted run ends: the same documents in the same order, the same outstanding amounts,
      statuses and versions, and the same success or failure. */
  lemma {:induction false} RerunEqualsOneRun(s: State, calls: seq<Call>, k: nat)
    requires k <= |calls|
    ensures Run(Run(s, calls[..k]).0, calls) == Run(s, calls)
    decreases calls
  {
    if k > 0 && Apply(s, calls[0]).Done? {
      var c, rest, s' := calls[0], calls[1..], Apply(s, calls[0]).state;
      assert calls[..k][1..] == rest[..k - 1];
      var stopped := Run(s', rest[..k - 1]).0;
      if !Exists(s, KindOf(c), c.number) {
        assert NewDocument(c) in s'.documents;
      }
      DocumentsStay(s', rest[..k - 1], KindOf(c), c.number);
      assert Apply(stopped, c) == Done(stopped);
      RerunEqualsOneRun(s', rest, k - 1);
    }
  }

  /** One number names one document, however often it is asked for. */
  ghost predicate OnePerNumber(s: State) {
    forall i, j | 0 <= i < j < |s.documents| ::
      s.documents[i].kind != s.documents[j].kind || s.documents[i].number != s.documents[j].number
  }

  lemma {:induction false} NumbersStayUnique(s: State, calls: seq<Call>)
    requires OnePerNumber(s)
    ensures OnePerNumber(Run(s, calls).0)
    decreases calls
  {
    if calls != [] && Apply(s, calls[0]).Done? {
      NumbersStayUnique(Apply(s, calls[0]).state, calls[1..]);
    }
  }

  // ---- The code ----

  class Ledger {
    var documents: seq<Document>
    var items: map<ItemId, Item>

    function View(): State
      reads this
    {
      State(documents, items)
    }

    constructor (s: State)
      ensures View() == s
    {
      documents, items := s.documents, s.items;
    }

    method CreateJournalDocument(number: string, posted: bool, lines: seq<Line>)
      modifies this
      ensures Apply(old(View()), Journal(number, posted, lines)) == Done(View())
    {
      if exists d :: d in documents && d.kind == ManualJournal && d.number == number {
        return;
      }
      documents := documents + [Document(ManualJournal, number, posted, lines, None)];
    }

    method CreateReceipt(number: string, posted: bool, amount: Amount, cashAccount: string, receivable: Option<nat>) returns (ok: bool)
      modifies this
      ensures var outcome := Apply(old(View()), Receive(number, posted, amount, cashAccount, receivable));
        ok == outcome.Done? && View() == if ok then outcome.state else old(View())
    {
      if exists d :: d in documents && d.kind == Receipt && d.number == number {
        return true;
      }
      var lines := if posted then [Line(cashAccount, amount, 0), Line(RECEIVABLES, 0, amount)] else [];
      var item := if receivable.Some? then Some(Receivable(receivable.value)) else None;
      ok := Insert(Document(Receipt, number, posted, lines, if item.Some? then Some(Allocation(item.value, amount)) else None));
    }

    method CreatePayment(number: string, posted: bool, amount: Amount, payable: Option<nat>) returns (ok: bool)
      modifies this
      ensures var outcome := Apply(old(View()), Pay(number, posted, amount, payable));
        ok == outcome.Done? && View() == if ok then outcome.state else old(View())
    {
      if exists d :: d in documents && d.kind == Payment && d.number == number {
        return true;
      }
      var lines := if posted then [Line(PAYABLES, amount, 0), Line(BANK, 0, amount)] else [];
      var item := if payable.Some? then Some(Payable(payable.value)) else None;
      ok := Insert(Document(Payment, number, posted, lines, if item.Some? then Some(Allocation(item.value, amount)) else None));
    }

    /** The transaction both share: the document row first, then the item row, and an item that is
        not found undoes the document. */
    method Insert(d: Document) returns (ok: bool)
      modifies this
      ensures ok <==> d.allocation.None? || d.allocation.value.item in old(items)
      ensures documents == if ok then old(documents) + [d] else old(documents)
      ensures items == if ok && d.posted && d.allocation.Some?
        then var a := d.allocation.value; old(items)[a.item := Settle(old(items)[a.item], a.amount)]
        else old(items)
    {
      var before := documents;
      documents := documents + [d];
      if d.allocation.Some? {
        var Allocation(id, amount) := d.allocation.value;
        if id !in items {
          documents := before;
          return false;
        }
        if d.posted {
          var row := items[id];
          var outstanding := row.outstanding - amount;
          items := items[id := Item(row.original, outstanding, if outstanding == 0 then Settled else Partial, row.version + 1)];
        }
      }
      ok := true;
    }
  }
}

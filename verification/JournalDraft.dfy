/** The manual journal form: a nested draft edited line by line, and the payload it submits. */
module JournalDraft {
  import opened Common

  /** What a number input holds: its text, and the number the text reads as (zero for a blank). */
  datatype Amount = Amount(text: string, value: real)
  const BLANK := Amount("", 0.0)

  datatype Line = Line(lineNumber: nat, accountId: string, costCenterId: Option<string>, customerId: Option<string>,
                       supplierId: Option<string>, description: string, currencyId: string, rate: Amount,
                       debit: Amount, credit: Amount)
  datatype Entry = Entry(entryNumber: nat, entryDate: string, description: string, lines: seq<Line>)

  /** The form: whether it edits a stored journal, whether the user chose an entry date, and the entries. */
  datatype Draft = Draft(persisted: bool, datesTouched: bool, entries: seq<Entry>)

  function NewLine(number: nat, currencyId: string, rate: Amount): Line {
    Line(number, "", None, None, None, "", currencyId, rate, BLANK, BLANK)
  }

  function NewEntry(number: nat, currencyId: string, rate: Amount, date: string): Entry {
    Entry(number, date, "", [NewLine(1, currencyId, rate), NewLine(2, currencyId, rate)])
  }

  function NewDraft(currencyId: string, rate: Amount, date: string): Draft {
    Draft(false, false, [NewEntry(1, currencyId, rate, date)])
  }

  // ---- Edits ----

  datatype Party = NoParty | Customer(id: string) | Supplier(id: string)

  /** A change to one line. A late exchange rate arrives as a SetRate of its own. */
  datatype Patch =
    | SetAccount(accountId: string)
    | SetCostCenter(costCenterId: Option<string>)
    | SetDescription(description: string)
    | SetCurrency(currencyId: string)
    | SetRate(rate: Amount)
    | SetParty(party: Party)
    | SetDebit(debit: Amount)
    | SetCredit(credit: Amount)

  function Patched(row: Line, p: Patch): Line {
    match p
    case SetAccount(id) => row.(accountId := id)
    case SetCostCenter(id) => row.(costCenterId := id)
    case SetDescription(text) => row.(description := text)
    case SetCurrency(id) => row.(currencyId := id)
    case SetRate(rate) => row.(rate := rate)
    case SetParty(party) =>
      row.(customerId := if party.Customer? then Some(party.id) else None,
           supplierId := if party.Supplier? then Some(party.id) else None)
    case SetDebit(amount) => row.(debit := amount, credit := if amount.value > 0.0 then BLANK else row.credit)
    case SetCredit(amount) => row.(credit := amount, debit := if amount.value > 0.0 then BLANK else row.debit)
  }

  /** A change of the draft by the user, by a late answer, or by the form's own defaults. */
  datatype Edit =
    | EditLine(entry: nat, line: nat, patch: Patch)
    | AddLine(entry: nat, currencyId: string, rate: Amount)
    | RemoveLine(entry: nat, line: nat)
    | DescribeEntry(entry: nat, description: string)
    | DateEntry(entry: nat, date: string)
    | DatedRates(entry: nat, date: string, rates: seq<Amount>)
    | AddEntry(currencyId: string, rate: Amount, date: string)
    | RemoveEntry(entry: nat)
    | DefaultDates(date: string)
    | DefaultCurrency(currencyId: string, rate: Amount)

  /** items.map with a change at one index, and no change if there is no such index. */
  function UpdateAt<T>(s: seq<T>, index: nat, f: T -> T): seq<T> {
    seq(|s|, i requires 0 <= i < |s| => if i == index then f(s[i]) else s[i])
  }

  /** items.filter with one index left out. */
  function DropAt<T>(s: seq<T>, index: nat): seq<T> {
    if s == [] then []
    else if index == 0 then s[1..]
    else [s[0]] + DropAt(s[1..], index - 1)
  }

  lemma {:induction false} DropAtIsSlices<T>(s: seq<T>, index: nat)
    ensures DropAt(s, index) == if index < |s| then s[..index] + s[index + 1..] else s
  {
    if s != [] && index > 0 {
      DropAtIsSlices(s[1..], index - 1);
      if index < |s| {
        assert s[..index] == [s[0]] + s[1..][..index - 1] && s[1..][index..] == s[index + 1..];
      }
    }
  }

  function RateLines(lines: seq<Line>, rates: seq<Amount>): seq<Line> {
    seq(|lines|, j requires 0 <= j < |lines| => if j < |rates| then lines[j].(rate := rates[j]) else lines[j])
  }

  function FillCurrency(lines: seq<Line>, currencyId: string, rate: Amount): seq<Line> {
    seq(|lines|, j requires 0 <= j < |lines| =>
      if lines[j].currencyId != "" then lines[j] else lines[j].(currencyId := currencyId, rate := rate))
  }

  /** Removing is offered only while there are more than two lines, or more than one entry. */
  function EditEntry(item: Entry, e: Edit): Entry {
    match e
    case EditLine(_, i, patch) => item.(lines := UpdateAt(item.lines, i, (row: Line) => Patched(row, patch)))
    case AddLine(_, currencyId, rate) => item.(lines := item.lines + [NewLine(|item.lines| + 1, currencyId, rate)])
    case RemoveLine(_, i) => if |item.lines| <= 2 then item else item.(lines := DropAt(item.lines, i))
    case DescribeEntry(_, text) => item.(description := text)
    case DateEntry(_, date) => item.(entryDate := date)
    case DatedRates(_, date, rates) => item.(entryDate := date, lines := RateLines(item.lines, rates))
    case DefaultDates(date) => item.(entryDate := date)
    case DefaultCurrency(currencyId, rate) => item.(lines := FillCurrency(item.lines, currencyId, rate))
    case _ => item
  }

  function Everywhere(entries: seq<Entry>, e: Edit): seq<Entry> {
    seq(|entries|, i requires 0 <= i < |entries| => EditEntry(entries[i], e))
  }

  predicate ByIndex(e: Edit) {
    !e.AddEntry? && !e.RemoveEntry? && !e.DefaultDates? && !e.DefaultCurrency?
  }

  function Apply(d: Draft, e: Edit): Draft {
    match e
    case AddEntry(currencyId, rate, date) =>
      d.(datesTouched := true, entries := d.entries + [NewEntry(|d.entries| + 1, currencyId, rate, date)])
    case RemoveEntry(n) => if |d.entries| > 1 then d.(entries := DropAt(d.entries, n)) else d
    case DefaultDates(_) => if d.persisted || d.datesTouched then d else d.(entries := Everywhere(d.entries, e))
    case DefaultCurrency(_, _) => if d.persisted then d else d.(entries := Everywhere(d.entries, e))
    case _ =>
      d.(datesTouched := d.datesTouched || e.DateEntry?,
         entries := UpdateAt(d.entries, e.entry, (item: Entry) => EditEntry(item, e)))
  }

  function Run(d: Draft, edits: seq<Edit>): Draft
    decreases edits
  {
    if edits == [] then d else Run(Apply(d, edits[0]), edits[1..])
  }

  // ---- What every draft keeps ----

  predicate LineFits(row: Line) {
    && !(row.debit.value > 0.0 && row.credit.value > 0.0)
    && !(row.customerId.Some? && row.supplierId.Some?)
  }

  predicate EntryFits(item: Entry) {
    |item.lines| >= 2 && forall j | 0 <= j < |item.lines| :: LineFits(item.lines[j])
  }

  predicate Fits(entries: seq<Entry>) {
    |entries| >= 1 && forall i | 0 <= i < |entries| :: EntryFits(entries[i])
  }

  lemma NewDraftFits(currencyId: string, rate: Amount, date: string)
    ensures Fits(NewDraft(currencyId, rate, date).entries)
  {
    assert EntryFits(NewEntry(1, currencyId, rate, date));
  }

  lemma EditEntryKeepsFit(item: Entry, e: Edit)
    requires EntryFits(item)
    ensures EntryFits(EditEntry(item, e))
  {
    if e.RemoveLine? {
      DropAtIsSlices(item.lines, e.line);
    }
    var after := EditEntry(item, e);
    forall j | 0 <= j < |after.lines| ensures LineFits(after.lines[j]) {
      if j < |item.lines| {
        assert LineFits(item.lines[j]);
      }
      if e.RemoveLine? && j + 1 < |item.lines| {
        assert LineFits(item.lines[j + 1]);
      }
    }
  }

  lemma ApplyKeepsFit(d: Draft, e: Edit)
    requires Fits(d.entries)
    ensures Fits(Apply(d, e).entries)
  {
    if e.RemoveEntry? {
      DropAtIsSlices(d.entries, e.entry);
    }
    var after := Apply(d, e).entries;
    forall i | 0 <= i < |after| ensures EntryFits(after[i]) {
      if i < |d.entries| {
        EditEntryKeepsFit(d.entries[i], e);
      } else {
        assert e.AddEntry? && after[i] == NewEntry(|d.entries| + 1, e.currencyId, e.rate, e.date);
      }
    }
  }

  lemma {:induction false} RunKeepsFit(d: Draft, edits: seq<Edit>)
    requires Fits(d.entries)
    ensures Fits(Run(d, edits).entries)
    decreases edits
  {
    if edits != [] {
      ApplyKeepsFit(d, edits[0]);
      RunKeepsFit(Apply(d, edits[0]), edits[1..]);
    }
  }

  /** What a patch makes of a line, field by field: the field it names holds the given value, a positive amount
      on one side blanks the other, a counterparty is a customer or a supplier or none, and whatever the patch
      does not name is as before. */
  predicate Becomes(row: Line, row': Line, p: Patch) {
    && row'.lineNumber == row.lineNumber
    && row'.accountId == (if p.SetAccount? then p.accountId else row.accountId)
    && row'.costCenterId == (if p.SetCostCenter? then p.costCenterId else row.costCenterId)
    && row'.description == (if p.SetDescription? then p.description else row.description)
    && row'.currencyId == (if p.SetCurrency? then p.currencyId else row.currencyId)
    && row'.rate == (if p.SetRate? then p.rate else row.rate)
    && row'.debit == (if p.SetDebit? then p.debit
                      else if p.SetCredit? && p.credit.value > 0.0 then Amount("", 0.0) else row.debit)
    && row'.credit == (if p.SetCredit? then p.credit
                       else if p.SetDebit? && p.debit.value > 0.0 then Amount("", 0.0) else row.credit)
    && row'.customerId == (if !p.SetParty? then row.customerId else if p.party.Customer? then Some(p.party.id) else None)
    && row'.supplierId == (if !p.SetParty? then row.supplierId else if p.party.Supplier? then Some(p.party.id) else None)
  }

  /** An edit of one line sets in that line what it names, and leaves every other line, and everything else about
      its entry and the draft, as it was. */
  lemma EditTouchesOneLine(d: Draft, n: nat, i: nat, patch: Patch)
    ensures var after := Apply(d, EditLine(n, i, patch));
      && after.persisted == d.persisted && after.datesTouched == d.datesTouched && |after.entries| == |d.entries|
      && forall m | 0 <= m < |d.entries| ::
           && after.entries[m].(lines := d.entries[m].lines) == d.entries[m]
           && |after.entries[m].lines| == |d.entries[m].lines|
           && forall j | 0 <= j < |d.entries[m].lines| ::
                if m == n && j == i then Becomes(d.entries[m].lines[j], after.entries[m].lines[j], patch)
                else after.entries[m].lines[j] == d.entries[m].lines[j]
  {
  }

  /** Taking a line out closes the gap and leaves every other line as it was, in its order. */
  lemma RemoveTakesOneLine(d: Draft, n: nat, i: nat)
    requires n < |d.entries| && i < |d.entries[n].lines| && |d.entries[n].lines| > 2
    ensures var item := d.entries[n];
      Apply(d, RemoveLine(n, i))
      == d.(entries := d.entries[n := item.(lines := item.lines[..i] + item.lines[i + 1..])])
  {
    DropAtIsSlices(d.entries[n].lines, i);
  }

  /** The same account, side, texts and counterparties, with perhaps another currency or rate. */
  predicate SameButRate(row: Line, row': Line) {
    row'.(currencyId := row.currencyId, rate := row.rate) == row
  }

  /** What the other edits leave as it was: entries other than the edited one; every line when an entry
      is dated or described, or a line or an entry is added; every other entry, in its order, when one
      is removed; and everything but blank currencies and rates when rates or defaults arrive. */
  lemma EditsLeaveTheRest(d: Draft, e: Edit, m: nat)
    requires m < |d.entries|
    ensures var before, after := d.entries, Apply(d, e).entries;
      && (ByIndex(e) ==> |after| == |before| && (m != e.entry ==> after[m] == before[m]))
      && (e.AddLine? && m == e.entry ==>
            after[m] == before[m].(lines := before[m].lines + [NewLine(|before[m].lines| + 1, e.currencyId, e.rate)]))
      && (e.DescribeEntry? || e.DateEntry? || e.DefaultDates? ==> |after| == |before| && after[m].lines == before[m].lines)
      && (e.AddEntry? ==> |after| == |before| + 1 && after[..|before|] == before)
      && (e.RemoveEntry? ==>
            after == if |before| > 1 && e.entry < |before| then before[..e.entry] + before[e.entry + 1..] else before)
      && (e.DatedRates? || e.DefaultCurrency? ==>
            && |after| == |before| && |after[m].lines| == |before[m].lines|
            && forall j | 0 <= j < |before[m].lines| ::
                 && SameButRate(before[m].lines[j], after[m].lines[j])
                 && (e.DefaultCurrency? && before[m].lines[j].currencyId != "" ==> after[m].lines[j] == before[m].lines[j]))
  {
    DropAtIsSlices(d.entries, if e.RemoveEntry? then e.entry else 0);
  }

  // ---- Default dates never replace a chosen one ----

  predicate KeepsDates(e: Edit) {
    !e.DateEntry? && !e.DatedRates? && !e.RemoveEntry?
  }

  lemma {:induction false} ChosenDatesStay(d: Draft, edits: seq<Edit>, m: nat)
    requires m < |d.entries| && (d.persisted || d.datesTouched)
    requires forall e | e in edits :: KeepsDates(e)
    ensures m < |Run(d, edits).entries| && Run(d, edits).entries[m].entryDate == d.entries[m].entryDate
    decreases edits
  {
    if edits != [] {
      assert KeepsDates(edits[0]);
      var next := Apply(d, edits[0]);
      assert next.entries[m].entryDate == d.entries[m].entryDate;
      ChosenDatesStay(next, edits[1..], m);
    }
  }

  // ---- Submitting ----

  function Debits(lines: seq<Line>): real {
    if lines == [] then 0.0 else Debits(lines[..|lines| - 1]) + lines[|lines| - 1].debit.value * lines[|lines| - 1].rate.value
  }

  function Credits(lines: seq<Line>): real {
    if lines == [] then 0.0 else Credits(lines[..|lines| - 1]) + lines[|lines| - 1].credit.value * lines[|lines| - 1].rate.value
  }

  function AllLines(entries: seq<Entry>): seq<Line> {
    if entries == [] then [] else AllLines(entries[..|entries| - 1]) + entries[|entries| - 1].lines
  }

  const TOLERANCE := 0.00005

  predicate Balanced(lines: seq<Line>) {
    -TOLERANCE <= Debits(lines) - Credits(lines) <= TOLERANCE
  }

  predicate ValidLine(row: Line) {
    row.accountId != "" && row.currencyId != "" && row.rate.value > 0.0 && (row.debit.value > 0.0) != (row.credit.value > 0.0)
  }

  predicate ValidEntry(item: Entry) {
    && Trim(item.description) != "" && |item.lines| >= 2
    && (forall j | 0 <= j < |item.lines| :: ValidLine(item.lines[j]))
    && Balanced(item.lines)
  }

  /** None of the form's checks reports an error. */
  predicate Accepted(entries: seq<Entry>, periodId: string, description: string) {
    && periodId != "" && Trim(description) != ""
    && entries != [] && (forall i | 0 <= i < |entries| :: ValidEntry(entries[i]))
    && Balanced(AllLines(entries))
  }

  function NonBlank(value: Option<string>): Option<string> {
    if value == Some("") then None else value
  }

  datatype SentLine = SentLine(lineNumber: nat, accountId: string, costCenterId: Option<string>, customerId: Option<string>,
                               supplierId: Option<string>, description: Option<string>, currencyId: string, rate: real,
                               debit: real, credit: real)
  datatype SentEntry = SentEntry(entryNumber: nat, entryDate: string, description: string, lines: seq<SentLine>)

  /** The nearest whole number, and of two the one further from zero. */
  function Nearest(x: real): int {
    if x < 0.0 then -(0.5 - x).Floor else (x + 0.5).Floor
  }

  /** The number toFixed(4) writes, and for rates toFixed(8). */
  function Money(x: real): real { Nearest(x * 10000.0) as real / 10000.0 }
  function Rate(x: real): real { Nearest(x * 100000000.0) as real / 100000000.0 }

  function SendLine(row: Line, number: nat): SentLine {
    SentLine(number, row.accountId, NonBlank(row.costCenterId), NonBlank(row.customerId), NonBlank(row.supplierId),
             NonBlank(Some(Trim(row.description))), row.currencyId, Rate(row.rate.value), Money(row.debit.value), Money(row.credit.value))
  }

  /** Entries and lines are numbered anew, whatever numbers the edits left behind. */
  function Payload(entries: seq<Entry>): seq<SentEntry> {
    seq(|entries|, i requires 0 <= i < |entries| =>
      var item := entries[i];
      SentEntry(i + 1, item.entryDate, Trim(item.description),
        seq(|item.lines|, j requires 0 <= j < |item.lines| => SendLine(item.lines[j], j + 1))))
  }

  /** A whole number of the steps of an input. */
  predicate OnStep(x: real, scale: real) {
    x * scale == (x * scale).Floor as real
  }

  /** The amounts and the rate that the form's inputs let through: the browser submits no form with a number
      below its input's minimum or off its step, four decimals for amounts and eight for rates. */
  predicate InputsHold(row: Line) {
    && row.debit.value >= 0.0 && OnStep(row.debit.value, 10000.0)
    && row.credit.value >= 0.0 && OnStep(row.credit.value, 10000.0)
    && row.rate.value >= 0.0 && OnStep(row.rate.value, 100000000.0)
  }

  predicate AllInputsHold(entries: seq<Entry>) {
    forall i, j | 0 <= i < |entries| && 0 <= j < |entries[i].lines| :: InputsHold(entries[i].lines[j])
  }

  /** The browser's checks come first, then the form's own. */
  function Submit(d: Draft, periodId: string, description: string): Option<seq<SentEntry>> {
    if AllInputsHold(d.entries) && Accepted(d.entries, periodId, description) then Some(Payload(d.entries)) else None
  }

  // ---- Rounding ----

  lemma NearestIsNear(x: real)
    ensures Nearest(x) > 0 <==> x >= 0.5
    ensures x == x.Floor as real ==> Nearest(x) as real == x
  {
    if x == x.Floor as real {
      var n := x.Floor;
      if x < 0.0 {
        assert 0.5 - x == (-n) as real + 0.5;
        assert ((-n) as real + 0.5).Floor == -n;
      } else {
        assert (n as real + 0.5).Floor == n;
      }
    }
  }

  lemma MoneyRounds(x: real)
    ensures Money(x) > 0.0 <==> x >= 0.00005
    ensures OnStep(x, 10000.0) ==> Money(x) == x
  {
    NearestIsNear(x * 10000.0);
    hide Nearest;
    var n := Nearest(x * 10000.0) as real;
    assert Money(x) * 10000.0 == n;
  }

  lemma RateRounds(x: real)
    ensures Rate(x) > 0.0 <==> x >= 0.000000005
    ensures OnStep(x, 100000000.0) ==> Rate(x) == x
  {
    NearestIsNear(x * 100000000.0);
    hide Nearest;
    var n := Nearest(x * 100000000.0) as real;
    assert Rate(x) * 100000000.0 == n;
  }

  /** By the form's own checks alone, a sent line has one positive side and a positive rate exactly if the
      draft's are at least half a step; what the inputs hold is. */
  lemma SentLineIsOneSidedIff(row: Line, number: nat)
    requires LineFits(row) && ValidLine(row)
    ensures var sent := SendLine(row, number);
      (sent.debit > 0.0) != (sent.credit > 0.0) && sent.rate > 0.0
      <==> (row.debit.value >= 0.00005 || row.credit.value >= 0.00005) && row.rate.value >= 0.000000005
    ensures InputsHold(row) ==>
      (row.debit.value >= 0.00005 || row.credit.value >= 0.00005) && row.rate.value >= 0.000000005
  {
    MoneyRounds(row.debit.value);
    MoneyRounds(row.credit.value);
    RateRounds(row.rate.value);
    hide Money, Rate, OnStep;
  }

  // ---- What is submitted ----

  predicate SentLineFits(row: SentLine, number: nat) {
    && row.lineNumber == number && row.accountId != "" && row.currencyId != ""
    && row.debit >= 0.0 && row.credit >= 0.0 && (row.debit > 0.0) != (row.credit > 0.0) && row.rate > 0.0
    && !(row.customerId.Some? && row.supplierId.Some?)
    && (row.description.Some? ==> row.description.value != "" && Tight(row.description.value))
  }

  predicate SentEntryFits(item: SentEntry, number: nat) {
    && item.entryNumber == number && |item.lines| >= 2
    && item.description != "" && Tight(item.description)
    && forall j | 0 <= j < |item.lines| :: SentLineFits(item.lines[j], j + 1)
  }

  /** What is sent of an entry is what the draft holds: its date, its text, and its lines in their order. */
  predicate CarriesOver(item: Entry, sent: SentEntry) {
    && sent.entryDate == item.entryDate && sent.description == Trim(item.description)
    && LinesCarryOver(item.lines, sent.lines)
  }

  predicate LinesCarryOver(lines: seq<Line>, sent: seq<SentLine>) {
    |sent| == |lines| && forall j | 0 <= j < |lines| :: LineCarriesOver(lines[j], sent[j])
  }

  predicate LineCarriesOver(row: Line, sent: SentLine) {
    && sent.accountId == row.accountId && sent.currencyId == row.currencyId
    && sent.costCenterId == NonBlank(row.costCenterId)
    && sent.customerId == NonBlank(row.customerId) && sent.supplierId == NonBlank(row.supplierId)
    && (if Trim(row.description) == "" then sent.description == None else sent.description == Some(Trim(row.description)))
    && sent.debit == row.debit.value && sent.credit == row.credit.value && sent.rate == row.rate.value
  }

  function SentDebits(lines: seq<SentLine>): real {
    if lines == [] then 0.0 else SentDebits(lines[..|lines| - 1]) + lines[|lines| - 1].debit * lines[|lines| - 1].rate
  }

  function SentCredits(lines: seq<SentLine>): real {
    if lines == [] then 0.0 else SentCredits(lines[..|lines| - 1]) + lines[|lines| - 1].credit * lines[|lines| - 1].rate
  }

  function AllSentLines(sent: seq<SentEntry>): seq<SentLine> {
    if sent == [] then [] else AllSentLines(sent[..|sent| - 1]) + sent[|sent| - 1].lines
  }

  predicate SentBalanced(lines: seq<SentLine>) {
    -0.00005 <= SentDebits(lines) - SentCredits(lines) <= 0.00005
  }

  /** A payload as the server wants it, and all that the draft holds. */
  predicate SentFrom(entries: seq<Entry>, sent: seq<SentEntry>) {
    && |sent| == |entries| && SentBalanced(AllSentLines(sent))
    && forall i | 0 <= i < |sent| ::
         SentEntryFits(sent[i], i + 1) && CarriesOver(entries[i], sent[i]) && SentBalanced(sent[i].lines)
  }

  lemma SentLineIsFit(row: Line, number: nat)
    requires LineFits(row) && ValidLine(row) && InputsHold(row)
    ensures SentLineFits(SendLine(row, number), number) && LineCarriesOver(row, SendLine(row, number))
  {
    var _, _ := TrimIsTheInnerText(row.description);
    MoneyRounds(row.debit.value);
    MoneyRounds(row.credit.value);
    RateRounds(row.rate.value);
    hide Money, Rate, Trim, Tight, OnStep;
  }

  lemma PayloadEntryIsFit(entries: seq<Entry>, i: nat)
    requires i < |entries| && EntryFits(entries[i]) && ValidEntry(entries[i])
    requires forall j | 0 <= j < |entries[i].lines| :: InputsHold(entries[i].lines[j])
    ensures SentEntryFits(Payload(entries)[i], i + 1) && CarriesOver(entries[i], Payload(entries)[i])
  {
    hide Money, Rate, Trim, Tight, SendLine, SentLineFits, LineCarriesOver, Balanced, InputsHold;
    var item := entries[i];
    var _, _ := TrimIsTheInnerText(item.description);
    forall j | 0 <= j < |item.lines|
      ensures SentLineFits(Payload(entries)[i].lines[j], j + 1) && LineCarriesOver(item.lines[j], Payload(entries)[i].lines[j])
    {
      SentLineIsFit(item.lines[j], j + 1);
    }
  }

  /** What carries over adds up to the same. */
  lemma {:induction false} SameSums(lines: seq<Line>, sent: seq<SentLine>)
    requires LinesCarryOver(lines, sent)
    ensures SentDebits(sent) == Debits(lines) && SentCredits(sent) == Credits(lines)
  {
    if lines != [] {
      var last := |lines| - 1;
      SameSums(lines[..last], sent[..last]);
      assert LineCarriesOver(lines[last], sent[last]);
    }
  }

  lemma {:induction false} AllLinesCarryOver(entries: seq<Entry>, sent: seq<SentEntry>)
    requires |sent| == |entries| && forall i | 0 <= i < |sent| :: CarriesOver(entries[i], sent[i])
    ensures LinesCarryOver(AllLines(entries), AllSentLines(sent))
  {
    hide LineCarriesOver;
    if entries != [] {
      var last := |entries| - 1;
      AllLinesCarryOver(entries[..last], sent[..last]);
      assert CarriesOver(entries[last], sent[last]);
    }
  }

  lemma SentIsBalanced(lines: seq<Line>, sent: seq<SentLine>)
    requires LinesCarryOver(lines, sent) && Balanced(lines)
    ensures SentBalanced(sent)
  {
    SameSums(lines, sent);
    hide LinesCarryOver, Debits, Credits, SentDebits, SentCredits;
  }

  /** After any edits of a fitting draft, what is submitted is the draft's entries and lines in their order with
      all they hold, numbered 1 to n at both levels: at least two lines in each entry, one positive side, a
      positive rate and at most one counterparty on each line, texts trimmed, and each entry and the whole
      within the tolerance of balance. */
  lemma SubmittedPayload(start: Draft, edits: seq<Edit>, periodId: string, description: string)
    requires Fits(start.entries)
    ensures Fits(Run(start, edits).entries)
    ensures var sent := Submit(Run(start, edits), periodId, description);
      sent.Some? ==> SentFrom(Run(start, edits).entries, sent.value)
  {
    RunKeepsFit(start, edits);
    hide Run, EntryFits, SentEntryFits, CarriesOver, LinesCarryOver, Balanced, SentBalanced, Trim, AllLines, AllSentLines;
    hide InputsHold, ValidLine;
    var entries := Run(start, edits).entries;
    if AllInputsHold(entries) && Accepted(entries, periodId, description) {
      var sent := Payload(entries);
      forall i | 0 <= i < |entries|
        ensures SentEntryFits(sent[i], i + 1) && CarriesOver(entries[i], sent[i]) && SentBalanced(sent[i].lines)
      {
        PayloadEntryIsFit(entries, i);
        EntryIsBalanced(entries[i], sent[i]);
      }
      AllLinesCarryOver(entries, sent);
      SentIsBalanced(AllLines(entries), AllSentLines(sent));
    }
  }

  lemma EntryIsBalanced(item: Entry, sent: SentEntry)
    requires CarriesOver(item, sent) && Balanced(item.lines)
    ensures SentBalanced(sent.lines)
  {
    hide LinesCarryOver;
    SentIsBalanced(item.lines, sent.lines);
  }

  /** The draft's own numbers are no substitute: removing the first of three lines and adding one
      leaves two lines numbered 3. */
  lemma DraftNumbersMayRepeat(currencyId: string, rate: Amount, date: string)
    ensures var d := NewDraft(currencyId, rate, date);
      var added := AddLine(0, currencyId, rate);
      var lines := Apply(Apply(Apply(d, added), RemoveLine(0, 0)), added).entries[0].lines;
      |lines| == 3 && lines[1].lineNumber == 3 && lines[2].lineNumber == 3
  {
    var added := AddLine(0, currencyId, rate);
    var three := Apply(NewDraft(currencyId, rate, date), added);
    RemoveTakesOneLine(three, 0, 0);
  }

  // ---- The form ----

  class JournalForm {
    const persisted: bool
    var datesTouched: bool
    var entries: seq<Entry>

    function Current(): Draft
      reads this
    {
      Draft(persisted, datesTouched, entries)
    }

    constructor (stored: Option<seq<Entry>>, currencyId: string, rate: Amount, date: string)
      requires stored.Some? ==> Fits(stored.value)
      ensures Fits(entries)
      ensures Current() == if stored.Some? then Draft(true, false, stored.value) else NewDraft(currencyId, rate, date)
    {
      NewDraftFits(currencyId, rate, date);
      persisted := stored.Some?;
      datesTouched := false;
      entries := if stored.Some? then stored.value else [NewEntry(1, currencyId, rate, date)];
    }

    method UpdateLine(n: nat, i: nat, patch: Patch)
      requires Fits(entries)
      modifies this
      ensures Current() == Apply(old(Current()), EditLine(n, i, patch)) && Fits(entries)
    {
      ApplyKeepsFit(Current(), EditLine(n, i, patch));
      entries := UpdateAt(entries, n, (item: Entry) => EditEntry(item, EditLine(n, i, patch)));
    }

    method UpdateEntry(e: Edit)
      requires Fits(entries) && ByIndex(e) && !e.EditLine?
      modifies this
      ensures Current() == Apply(old(Current()), e) && Fits(entries)
    {
      ApplyKeepsFit(Current(), e);
      datesTouched := datesTouched || e.DateEntry?;
      entries := UpdateAt(entries, e.entry, (item: Entry) => EditEntry(item, e));
    }

    method Append(currencyId: string, rate: Amount, date: string)
      requires Fits(entries)
      modifies this
      ensures Current() == Apply(old(Current()), AddEntry(currencyId, rate, date)) && Fits(entries)
    {
      ApplyKeepsFit(Current(), AddEntry(currencyId, rate, date));
      datesTouched := true;
      entries := entries + [NewEntry(|entries| + 1, currencyId, rate, date)];
    }

    method Remove(n: nat)
      requires Fits(entries)
      modifies this
      ensures Current() == Apply(old(Current()), RemoveEntry(n)) && Fits(entries)
    {
      ApplyKeepsFit(Current(), RemoveEntry(n));
      if |entries| > 1 {
        entries := DropAt(entries, n);
      }
    }

    method UseDefaults(e: Edit)
      requires Fits(entries) && (e.DefaultDates? || e.DefaultCurrency?)
      modifies this
      ensures Current() == Apply(old(Current()), e) && Fits(entries)
    {
      ApplyKeepsFit(Current(), e);
      if !persisted && (e.DefaultCurrency? || !datesTouched) {
        entries := Everywhere(entries, e);
      }
    }
  }
}

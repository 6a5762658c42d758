/** What the edits of the manual journal form put into a draft, and which drafts it submits. */
module JournalEdits {
  import opened Common
  import opened JournalDraft

  /** A line with nothing on it but its number, currency and rate. */
  predicate IsBlank(row: Line, number: nat, currencyId: string, rate: Amount) {
    && row.lineNumber == number && row.currencyId == currencyId && row.rate == rate
    && row.accountId == "" && row.description == "" && row.costCenterId.None? && row.customerId.None? && row.supplierId.None?
    && row.debit.text == "" && row.debit.value == 0.0 && row.credit.text == "" && row.credit.value == 0.0
  }

  /** An entry with two such lines. */
  predicate IsEmpty(item: Entry, number: nat, currencyId: string, rate: Amount, date: string) {
    && item.entryNumber == number && item.entryDate == date && item.description == ""
    && |item.lines| == 2 && IsBlank(item.lines[0], 1, currencyId, rate) && IsBlank(item.lines[1], 2, currencyId, rate)
  }

  /** A new form holds one empty entry. */
  lemma NewDraftIsEmpty(currencyId: string, rate: Amount, date: string)
    ensures var d := NewDraft(currencyId, rate, date);
      !d.persisted && !d.datesTouched && |d.entries| == 1 && IsEmpty(d.entries[0], 1, currencyId, rate, date)
  {
  }

  /** The date of an entry after an edit: the one given, or a default if none was chosen and nothing is stored. */
  function DateAfter(d: Draft, e: Edit, m: nat): string
    requires m < |d.entries|
  {
    if (e.DateEntry? || e.DatedRates?) && e.entry == m then e.date
    else if e.DefaultDates? && !d.persisted && !d.datesTouched then e.date
    else d.entries[m].entryDate
  }

  /** The currency and the rate of a line after rates or defaults arrive: rates are taken line by line, and a
      default fills lines without a currency unless the journal is stored. */
  predicate RatesAfter(d: Draft, e: Edit, m: nat, j: nat, row: Line)
    requires m < |d.entries| && j < |d.entries[m].lines|
  {
    var before := d.entries[m].lines[j];
    if e.DatedRates? && e.entry == m && j < |e.rates| then row.rate == e.rates[j] && row.currencyId == before.currencyId
    else if e.DefaultCurrency? && !d.persisted && before.currencyId == ""
    then row.rate == e.rate && row.currencyId == e.currencyId
    else row.rate == before.rate && row.currencyId == before.currencyId
  }

  /** What each edit but those of single lines puts in: dates, texts, rates, currencies, a blank line, an empty
      entry; and a date counts as chosen once an entry was dated or added. */
  lemma EditsPutIn(d: Draft, e: Edit)
    requires !e.RemoveEntry?
    ensures var after := Apply(d, e);
      && after.persisted == d.persisted && (after.datesTouched <==> d.datesTouched || e.DateEntry? || e.AddEntry?)
      && |after.entries| == |d.entries| + (if e.AddEntry? then 1 else 0)
      && (e.AddEntry? ==> IsEmpty(after.entries[|d.entries|], |d.entries| + 1, e.currencyId, e.rate, e.date))
      && forall m | 0 <= m < |d.entries| ::
           && after.entries[m].entryNumber == d.entries[m].entryNumber
           && after.entries[m].entryDate == DateAfter(d, e, m)
           && after.entries[m].description
              == (if e.DescribeEntry? && e.entry == m then e.description else d.entries[m].description)
  {
  }

  lemma LinesPutIn(d: Draft, e: Edit, m: nat)
    requires m < |d.entries| && !e.RemoveEntry? && !e.EditLine? && !e.RemoveLine?
    ensures m < |Apply(d, e).entries|
    ensures var before, after := d.entries[m].lines, Apply(d, e).entries[m].lines;
      && |after| == |before| + (if e.AddLine? && e.entry == m then 1 else 0)
      && (e.AddLine? && e.entry == m ==> IsBlank(after[|before|], |before| + 1, e.currencyId, e.rate))
      && forall j | 0 <= j < |before| :: SameButRate(before[j], after[j]) && RatesAfter(d, e, m, j, after[j])
  {
  }

  /** Of two lines, and of one entry, none can be taken out. */
  lemma NothingToRemove(d: Draft, n: nat, i: nat)
    ensures n < |d.entries| && |d.entries[n].lines| <= 2 ==> Apply(d, RemoveLine(n, i)).entries == d.entries
    ensures |d.entries| <= 1 ==> Apply(d, RemoveEntry(n)) == d
  {
    assert n < |d.entries| && |d.entries[n].lines| <= 2 ==> Apply(d, RemoveLine(n, i)).entries[n] == d.entries[n];
  }

  // ---- Which drafts are submitted ----

  lemma SentLineWasValid(row: Line, sent: SentLine, number: nat)
    requires SentLineFits(sent, number) && LineCarriesOver(row, sent)
    ensures ValidLine(row)
  {
  }

  lemma {:induction false} SentEntriesWereValid(entries: seq<Entry>, sent: seq<SentEntry>)
    requires SentFrom(entries, sent)
    ensures forall i | 0 <= i < |entries| :: ValidEntry(entries[i])
    ensures Balanced(AllLines(entries))
  {
    hide SentLineFits, LineCarriesOver, ValidLine, AllLines, AllSentLines, SentDebits, SentCredits, Debits, Credits, Trim;
    forall i | 0 <= i < |entries| ensures ValidEntry(entries[i]) {
      assert SentEntryFits(sent[i], i + 1) && CarriesOver(entries[i], sent[i]);
      SameSums(entries[i].lines, sent[i].lines);
      forall j | 0 <= j < |entries[i].lines| ensures ValidLine(entries[i].lines[j]) {
        SentLineWasValid(entries[i].lines[j], sent[i].lines[j], j + 1);
      }
    }
    AllLinesCarryOver(entries, sent);
    SameSums(AllLines(entries), AllSentLines(sent));
  }

  lemma OneLineCarries(row: Line, sent: SentLine, sent': SentLine, number: nat)
    requires SentLineFits(sent, number) && LineCarriesOver(row, sent)
    requires SentLineFits(sent', number) && LineCarriesOver(row, sent')
    ensures sent == sent'
  {
  }

  lemma OnePayloadCarries(entries: seq<Entry>, sent: seq<SentEntry>, sent': seq<SentEntry>)
    requires SentFrom(entries, sent) && SentFrom(entries, sent')
    ensures sent == sent'
  {
    hide SentLineFits, LineCarriesOver, AllSentLines, SentBalanced, Trim;
    forall i | 0 <= i < |sent| ensures sent[i] == sent'[i] {
      assert SentEntryFits(sent[i], i + 1) && CarriesOver(entries[i], sent[i]);
      assert SentEntryFits(sent'[i], i + 1) && CarriesOver(entries[i], sent'[i]);
      forall j | 0 <= j < |sent[i].lines| ensures sent[i].lines[j] == sent'[i].lines[j] {
        OneLineCarries(entries[i].lines[j], sent[i].lines[j], sent'[i].lines[j], j + 1);
      }
    }
  }

  /** The form sends `sent` exactly if a period is chosen, the journal is described, the inputs hold what the
      browser lets through, and `sent` is a payload as the server wants it with all that the draft holds: it
      neither lets an unfit draft through nor holds back a fit one, and there is one payload for a draft. */
  lemma SubmitsExactly(d: Draft, periodId: string, description: string, sent: seq<SentEntry>)
    requires Fits(d.entries)
    ensures Submit(d, periodId, description) == Some(sent)
      <==> periodId != "" && Trim(description) != "" && AllInputsHold(d.entries) && SentFrom(d.entries, sent)
  {
    SubmittedPayload(d, [], periodId, description);
    assert Run(d, []) == d;
    hide SentFrom, Run, Trim, AllInputsHold, ValidEntry, Balanced, AllLines, Payload, Fits;
    if SentFrom(d.entries, sent) {
      SentEntriesWereValid(d.entries, sent);
      assert d.entries != [] by { HasAnEntry(d); }
      if periodId != "" && Trim(description) != "" && AllInputsHold(d.entries) {
        OnePayloadCarries(d.entries, sent, Submit(d, periodId, description).value);
      }
    }
  }

  lemma HasAnEntry(d: Draft)
    requires Fits(d.entries)
    ensures d.entries != []
  {
  }

  // ---- A journal entered from scratch ----

  /** Describing the entry, an account and an amount on either side. */
  function Typing(text: string, debited: string, credited: string, amount: Amount): seq<Edit> {
    [DescribeEntry(0, text), EditLine(0, 0, SetAccount(debited)), EditLine(0, 0, SetDebit(amount)),
     EditLine(0, 1, SetAccount(credited)), EditLine(0, 1, SetCredit(amount))]
  }

  lemma {:induction false} RunConcat(d: Draft, edits: seq<Edit>, more: seq<Edit>)
    ensures Run(d, edits + more) == Run(Run(d, edits), more)
    decreases edits
  {
    hide Apply;
    if edits == [] {
      assert edits + more == more;
    } else {
      assert (edits + more)[1..] == edits[1..] + more;
      RunConcat(Apply(d, edits[0]), edits[1..], more);
    }
  }

  lemma RunOne(d: Draft, e: Edit)
    ensures Run(d, [e]) == Apply(d, e)
  {
    assert [e][1..] == [];
  }

  lemma TypedDraft(currencyId: string, rate: Amount, date: string, text: string, debited: string, credited: string,
                   amount: Amount)
    requires amount.value > 0.0
    ensures Run(NewDraft(currencyId, rate, date), Typing(text, debited, credited, amount))
      == Draft(false, false, [Entry(1, date, text, [
           Line(1, debited, None, None, None, "", currencyId, rate, amount, Amount("", 0.0)),
           Line(2, credited, None, None, None, "", currencyId, rate, Amount("", 0.0), amount)])])
  {
    var d0 := NewDraft(currencyId, rate, date);
    var one := Line(1, "", None, None, None, "", currencyId, rate, Amount("", 0.0), Amount("", 0.0));
    var two := one.(lineNumber := 2);
    var d1 := Draft(false, false, [Entry(1, date, text, [one, two])]);
    var d2 := Draft(false, false, [Entry(1, date, text, [one.(accountId := debited), two])]);
    var d3 := Draft(false, false, [Entry(1, date, text, [one.(accountId := debited, debit := amount), two])]);
    var first := one.(accountId := debited, debit := amount);
    var d4 := Draft(false, false, [Entry(1, date, text, [first, two.(accountId := credited)])]);
    var d5 := Draft(false, false, [Entry(1, date, text, [first, two.(accountId := credited, credit := amount)])]);
    var es := Typing(text, debited, credited, amount);
    assert Apply(d0, es[0]) == d1;
    assert Apply(d1, es[1]) == d2 by { assert Apply(d1, es[1]).entries[0].lines == d2.entries[0].lines; }
    assert Apply(d2, es[2]) == d3 by { assert Apply(d2, es[2]).entries[0].lines == d3.entries[0].lines; }
    assert Apply(d3, es[3]) == d4 by { assert Apply(d3, es[3]).entries[0].lines == d4.entries[0].lines; }
    assert Apply(d4, es[4]) == d5 by { assert Apply(d4, es[4]).entries[0].lines == d5.entries[0].lines; }
    hide Apply;
    assert es[1..][1..] == es[2..] && es[2..][1..] == es[3..] && es[3..][1..] == es[4..] && es[4..][1..] == [];
    assert Run(d0, es) == Run(d1, es[1..]) == Run(d2, es[2..]) == Run(d3, es[3..]) == Run(d4, es[4..]) == Run(d5, []);
  }

  lemma OneEntryBalances(first: SentLine, second: SentLine, item: SentEntry)
    requires item.lines == [first, second]
    requires first.debit * first.rate == second.credit * second.rate && first.credit == 0.0 && second.debit == 0.0
    ensures SentBalanced(item.lines) && SentBalanced(AllSentLines([item]))
  {
    var lines := [first, second];
    assert lines[..1] == [first] && [first][..0] == [] && [item][..0] == [];
    assert SentDebits(lines) == SentDebits([first]) == first.debit * first.rate;
    assert SentCredits(lines) == SentCredits([first]) + second.credit * second.rate;
    assert AllSentLines([item]) == [] + item.lines == item.lines;
  }

  lemma TypedLine(row: Line, sent: SentLine, number: nat)
    requires row.accountId != "" && row.currencyId != "" && row.rate.value > 0.0 && OnStep(row.rate.value, 100000000.0)
    requires row == Line(number, row.accountId, None, None, None, "", row.currencyId, row.rate, row.debit, row.credit)
    requires row.debit.value >= 0.0 && row.credit.value >= 0.0 && (row.debit.value > 0.0) != (row.credit.value > 0.0)
    requires OnStep(row.debit.value, 10000.0) && OnStep(row.credit.value, 10000.0)
    requires sent == SentLine(number, row.accountId, None, None, None, None, row.currencyId, row.rate.value,
                              row.debit.value, row.credit.value)
    ensures SentLineFits(sent, number) && LineCarriesOver(row, sent) && InputsHold(row)
  {
    hide OnStep;
  }

  lemma NothingIsOnStep(scale: real)
    ensures OnStep(0.0, scale)
  {
  }

  /** A draft of one entry with two lines is sent as `sent` if that carries it over and balances. */
  lemma OneEntryIsSent(d: Draft, item: Entry, sent: SentEntry, periodId: string, description: string)
    requires Fits(d.entries) && d.entries == [item] && periodId != "" && Trim(description) != ""
    requires |item.lines| == |sent.lines| == 2 && sent.entryNumber == 1 && sent.entryDate == item.entryDate
    requires sent.description == Trim(item.description) && sent.description != ""
    requires forall j | 0 <= j < 2 ::
      SentLineFits(sent.lines[j], j + 1) && LineCarriesOver(item.lines[j], sent.lines[j]) && InputsHold(item.lines[j])
    requires SentBalanced(sent.lines) && SentBalanced(AllSentLines([sent]))
    ensures Submit(d, periodId, description) == Some([sent])
  {
    hide SentLineFits, LineCarriesOver, InputsHold, SentBalanced, AllSentLines, Trim, Tight, Fits, Submit;
    var _, _ := TrimIsTheInnerText(item.description);
    assert SentEntryFits(sent, 1) && CarriesOver(item, sent);
    SubmitsExactly(d, periodId, description, [sent]);
  }

  lemma TwoLinesAreSent(d: Draft, item: Entry, first: SentLine, second: SentLine, periodId: string, description: string)
    requires Fits(d.entries) && d.entries == [item] && |item.lines| == 2 && Trim(item.description) != ""
    requires periodId != "" && Trim(description) != ""
    requires SentLineFits(first, 1) && LineCarriesOver(item.lines[0], first) && InputsHold(item.lines[0])
    requires SentLineFits(second, 2) && LineCarriesOver(item.lines[1], second) && InputsHold(item.lines[1])
    requires first.debit * first.rate == second.credit * second.rate && first.credit == 0.0 && second.debit == 0.0
    ensures Submit(d, periodId, description) == Some([SentEntry(1, item.entryDate, Trim(item.description), [first, second])])
  {
    hide SentLineFits, LineCarriesOver, InputsHold, SentBalanced, AllSentLines, Trim, Fits, Submit;
    var sent := SentEntry(1, item.entryDate, Trim(item.description), [first, second]);
    OneEntryBalances(first, second, sent);
    OneEntryIsSent(d, item, sent, periodId, description);
  }

  lemma TypedDraftIsSent(d: Draft, one: Line, two: Line, date: string, text: string, periodId: string, description: string)
    requires Fits(d.entries) && d.entries == [Entry(1, date, text, [one, two])]
    requires periodId != "" && Trim(description) != "" && Trim(text) != ""
    requires one.accountId != "" && two.accountId != "" && one.currencyId != ""
    requires one.rate.value > 0.0 && OnStep(one.rate.value, 100000000.0)
    requires one.debit.value > 0.0 && OnStep(one.debit.value, 10000.0)
    requires one == Line(1, one.accountId, None, None, None, "", one.currencyId, one.rate, one.debit, Amount("", 0.0))
    requires two == Line(2, two.accountId, None, None, None, "", one.currencyId, one.rate, Amount("", 0.0), one.debit)
    ensures Submit(d, periodId, description) == Some([SentEntry(1, date, Trim(text), [
      SentLine(1, one.accountId, None, None, None, None, one.currencyId, one.rate.value, one.debit.value, 0.0),
      SentLine(2, two.accountId, None, None, None, None, one.currencyId, one.rate.value, 0.0, one.debit.value)])])
  {
    hide *;
    var first := SentLine(1, one.accountId, None, None, None, None, one.currencyId, one.rate.value, one.debit.value, 0.0);
    var second := SentLine(2, two.accountId, None, None, None, None, one.currencyId, one.rate.value, 0.0, one.debit.value);
    NothingIsOnStep(10000.0);
    TypedLine(one, first, 1);
    TypedLine(two, second, 2);
    TwoLinesAreSent(d, d.entries[0], first, second, periodId, description);
  }

  /** An entry typed from scratch, an account and the same amount on either side, is sent as it was typed: the
      amount as the debit of the first account and as the credit of the second. */
  lemma TypedJournalIsSent(currencyId: string, rate: Amount, date: string, text: string, debited: string, credited: string,
                           amount: Amount, periodId: string, description: string)
    requires periodId != "" && Trim(description) != "" && Trim(text) != ""
    requires debited != "" && credited != "" && currencyId != ""
    requires rate.value > 0.0 && OnStep(rate.value, 100000000.0) && amount.value > 0.0 && OnStep(amount.value, 10000.0)
    ensures Submit(Run(NewDraft(currencyId, rate, date), Typing(text, debited, credited, amount)), periodId, description)
      == Some([SentEntry(1, date, Trim(text), [
           SentLine(1, debited, None, None, None, None, currencyId, rate.value, amount.value, 0.0),
           SentLine(2, credited, None, None, None, None, currencyId, rate.value, 0.0, amount.value)])])
  {
    var d := Run(NewDraft(currencyId, rate, date), Typing(text, debited, credited, amount));
    TypedDraft(currencyId, rate, date, text, debited, credited, amount);
    NewDraftFits(currencyId, rate, date);
    RunKeepsFit(NewDraft(currencyId, rate, date), Typing(text, debited, credited, amount));
    hide *;
    TypedDraftIsSent(d, d.entries[0].lines[0], d.entries[0].lines[1], date, text, periodId, description);
  }
}

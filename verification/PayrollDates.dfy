/** The payroll page's month arithmetic on text, and the end date of a salary agreement: the form
    works with day arithmetic, the handler with string comparison. */
module PayrollDates {
  import opened Common
  import opened Calendar

  // ---- createRun ----

  /** The text of a month input: four digits, a dash, 01 to 12. */
  predicate MonthPattern(text: string) {
    && |text| == 7 && text[4] == '-'
    && AllDigits(text[..4]) && AllDigits(text[5..])
    && 1 <= Number(text[5..]) <= 12
  }

  datatype RunRequest = Ignored | Invalid | Send(periodStart: string, periodEndExclusive: string)

  function CreateRun(month: string): RunRequest {
    if !MonthPattern(month) then Ignored
    else
      var year, monthNumber := Number(month[..4]), Number(month[5..]);
      if year < 1 || year > 9998 then Invalid
      else
        var next := if monthNumber == 12 then Pad(year + 1, 4) + "-01" else Pad(year, 4) + "-" + Pad(monthNumber + 1, 2);
        Send(month + "-01", next + "-01")
  }

  function MonthText(year: nat, month: nat): string {
    Pad(year, 4) + ("-" + Pad(month, 2))
  }

  lemma MonthTextPattern(year: nat, month: nat)
    requires year <= 9999 && 1 <= month <= 12
    ensures var t := MonthText(year, month);
      MonthPattern(t) && Number(t[..4]) == year && Number(t[5..]) == month
  {
    assert Power10(2) == 100 && Power10(4) == 10000;
    NumberPad(year, 4);
    NumberPad(month, 2);
    var t := MonthText(year, month);
    assert t[..4] == Pad(year, 4) && t[5..] == Pad(month, 2);
  }

  lemma PatternMonthText(text: string)
    requires MonthPattern(text)
    ensures text == MonthText(Number(text[..4]), Number(text[5..])) && Number(text[..4]) <= 9999
  {
    assert Power10(4) == 10000;
    PadNumber(text[..4]);
    PadNumber(text[5..]);
    assert text == text[..4] + ("-" + text[5..]);
  }

  lemma FirstOfMonth(year: nat, month: nat)
    requires year <= 9999 && 1 <= month <= 12
    ensures MonthText(year, month) + "-01" == Iso(Date(year, month, 1))
  {
    assert Pad(1, 2) == "01";
    assert "-" + "01" == "-01";
    assert Pad(year, 4) + ("-" + Pad(month, 2)) + "-01" == Pad(year, 4) + ("-" + (Pad(month, 2) + "-01"));
  }

  function MonthEnd(year: int, month: int): Date { Date(year, month, DaysInMonth(year, month)) }

  /** A run is sent for exactly the months of the years 1 to 9998, from the first of the month to
      the day after its last, which in December is in the next year. */
  lemma CreateRunSpansTheMonth(year: nat, month: nat)
    requires year <= 9999 && 1 <= month <= 12
    ensures CreateRun(MonthText(year, month)) ==
      if 1 <= year <= 9998 then Send(Iso(Date(year, month, 1)), Iso(Next(MonthEnd(year, month)))) else Invalid
  {
    MonthTextPattern(year, month);
    if 1 <= year <= 9998 {
      FirstOfMonth(year, month);
      if month == 12 {
        FirstOfMonth(year + 1, 1);
        assert Pad(1, 2) == "01" && "-" + "01" == "-01";
      } else {
        FirstOfMonth(year, month + 1);
        assert Pad(year, 4) + ("-" + Pad(month + 1, 2)) == Pad(year, 4) + "-" + Pad(month + 1, 2);
      }
    }
  }

  lemma OnlyMonthsAreSent(text: string)
    requires CreateRun(text).Send?
    ensures exists year: nat, month: nat :: 1 <= year <= 9998 && 1 <= month <= 12 && text == MonthText(year, month)
  {
    PatternMonthText(text);
  }

  function NextMonth(year: nat, month: nat): (nat, nat) {
    if month == 12 then (year + 1, 1) else (year, month + 1)
  }

  /** Consecutive runs meet: one ends where the next starts. */
  lemma RunsMeet(year: nat, month: nat)
    requires 1 <= month <= 12 && 1 <= year && NextMonth(year, month).0 <= 9998
    ensures var (y, m) := NextMonth(year, month);
      CreateRun(MonthText(year, month)).Send? && CreateRun(MonthText(y, m)).Send?
      && CreateRun(MonthText(year, month)).periodEndExclusive == CreateRun(MonthText(y, m)).periodStart
  {
    CreateRunSpansTheMonth(year, month);
    CreateRunSpansTheMonth(NextMonth(year, month).0, NextMonth(year, month).1);
  }

  /** A date, compared as text, is inside a run exactly when it is in the run's month: no day
      between two runs is left out and none is in both. */
  lemma RunsTileTime(year: nat, month: nat, d: Date)
    requires 1 <= year <= 9998 && 1 <= month <= 12 && Valid(d) && FourDigitYear(d)
    ensures CreateRun(MonthText(year, month)).Send?
    ensures var run := CreateRun(MonthText(year, month));
      !Less(Iso(d), run.periodStart) && Less(Iso(d), run.periodEndExclusive) <==> (d.year == year && d.month == month)
  {
    CreateRunSpansTheMonth(year, month);
    NextIsOneDayLater(MonthEnd(year, month));
    IsoOrder(d, Date(year, month, 1));
    IsoOrder(d, Next(MonthEnd(year, month)));
  }

  // ---- endAgreement ----

  predicate DatePattern(text: string) {
    && |text| == 10 && text[4] == '-' && text[7] == '-'
    && AllDigits(text[..4]) && AllDigits(text[5..7]) && AllDigits(text[8..])
  }

  /** What `new Date(text + "T00:00:00.000Z")` makes of a text of that pattern. A day past the end
      of its month runs into the next one; the handler rejects it by reading the date back. */
  function Parsed(text: string): Option<Date>
    requires DatePattern(text)
  {
    var year, month, day := Number(text[..4]), Number(text[5..7]), Number(text[8..]);
    if 1 <= month <= 12 && 1 <= day <= 31 then
      var excess := day - DaysInMonth(year, month);
      Some(if excess <= 0 then Date(year, month, day) else Date(year, month + 1, excess))
    else None
  }

  /** The run-over day is the day JavaScript counts to from the first of the month. */
  lemma ParsedCountsDays(text: string)
    requires DatePattern(text) && Parsed(text).Some?
    ensures Valid(Parsed(text).value) && FourDigitYear(Parsed(text).value)
    ensures var first := Date(Number(text[..4]), Number(text[5..7]), 1);
      Valid(first) && DayNumber(Parsed(text).value) == DayNumber(first) + Number(text[8..]) - 1
  {
    assert Power10(4) == 10000;
    PadNumber(text[..4]);
  }

  /** The handler's test of the end date, for an agreement from `start` to the optional `end`. */
  predicate Accepts(text: string, start: Date, end: Option<Date>)
    requires Valid(start) && FourDigitYear(start) && (end.Some? ==> Valid(end.value) && FourDigitYear(end.value))
  {
    && DatePattern(text) && Parsed(text).Some?
    && (ParsedCountsDays(text); Iso(Parsed(text).value) == text)
    && Less(Iso(start), text)
    && (end.Some? ==> Less(text, Iso(end.value)))
  }

  predicate StrictlyInside(d: Date, start: Date, end: Option<Date>) {
    Before(start, d) && (end.Some? ==> Before(d, end.value))
  }

  /** The handler accepts exactly the texts of real dates strictly inside the agreement. */
  lemma AcceptsExactlyInnerDates(text: string, start: Date, end: Option<Date>)
    requires Valid(start) && FourDigitYear(start) && (end.Some? ==> Valid(end.value) && FourDigitYear(end.value))
    ensures Accepts(text, start, end) <==>
      exists d :: Valid(d) && FourDigitYear(d) && text == Iso(d) && StrictlyInside(d, start, end)
  {
    if Accepts(text, start, end) {
      ParsedCountsDays(text);
      InsideByText(Parsed(text).value, start, end);
    }
    if d :| Valid(d) && FourDigitYear(d) && text == Iso(d) && StrictlyInside(d, start, end) {
      IsoParses(d);
      InsideByText(d, start, end);
    }
  }

  lemma InsideByText(d: Date, start: Date, end: Option<Date>)
    requires Valid(d) && FourDigitYear(d)
    requires Valid(start) && FourDigitYear(start) && (end.Some? ==> Valid(end.value) && FourDigitYear(end.value))
    ensures StrictlyInside(d, start, end) <==> Less(Iso(start), Iso(d)) && (end.Some? ==> Less(Iso(d), Iso(end.value)))
  {
    IsoOrder(start, d);
    if end.Some? {
      IsoOrder(d, end.value);
    }
  }

  lemma IsoParses(d: Date)
    requires Valid(d) && FourDigitYear(d)
    ensures DatePattern(Iso(d)) && Parsed(Iso(d)) == Some(d)
  {
    assert Power10(2) == 100 && Power10(4) == 10000;
    IsoShape(d);
    NumberPad(d.year, 4);
    NumberPad(d.month, 2);
    NumberPad(d.day, 2);
  }

  // ---- The form ----

  const FIRST_DAY := Date(1, 1, 1)
  const LAST_DAY := Date(9999, 12, 31)

  /** A date a date input can hold: the HTML Standard's dates start with the year 1 and never end. */
  predicate HtmlDate(d: Date) {
    Valid(d) && d.year >= 1
  }

  /** The text of such a date: the year takes four digits, or as many as it needs. */
  function DateText(d: Date): string
    requires HtmlDate(d)
  {
    YearText(d.year) + ("-" + (Pad(d.month, 2) + ("-" + Pad(d.day, 2))))
  }

  function YearText(year: nat): string {
    if year < 10000 then Pad(year, 4) else Decimal(year)
  }

  /** The stored dates of an agreement, as ISO text. */
  predicate Stored(start: Date, end: Option<Date>) {
    Valid(start) && FourDigitYear(start) && (end.Some? ==> Valid(end.value) && FourDigitYear(end.value))
  }

  /** A bound a browser reads from a min or max attribute: toISOString writes years past 9999 with
      a sign and six digits, the first ten characters of that are no date, and neither is a date of
      the year 0; then no bound is set. */
  function Bound(d: Date): Option<Date> {
    if HtmlDate(d) && FourDigitYear(d) then Some(d) else None
  }

  /** The dates the input offers: from the day after the start to the day before the end. */
  predicate Offers(d: Date, start: Date, end: Option<Date>) {
    var min := Bound(Next(start));
    && (min.Some? ==> UpTo(min.value, d))
    && (end.Some? ==>
      var max := Bound(Previous(end.value));
      max.Some? ==> UpTo(d, max.value))
  }

  /** The Save button compares text. */
  predicate Enabled(text: string, start: Date, end: Option<Date>)
    requires Stored(start, end)
  {
    text != "" && Less(Iso(start), text) && (end.Some? ==> Less(text, Iso(end.value)))
  }

  // ---- Years of five and more digits ----

  /** The first four digits of a number of four or more. */
  function Lead(n: nat): nat {
    if n < 10000 then n else Lead(n / 10)
  }

  /** A longer number is its first four digits and then at least one more. */
  lemma {:induction false} DecimalLead(n: nat) returns (rest: string)
    requires n >= 10000
    ensures 1000 <= Lead(n) <= 9999 && Decimal(n) == Pad(Lead(n), 4) + rest
    ensures rest != "" && IsDigit(rest[0])
  {
    if n < 100000 {
      Powers();
      DecimalIsPad(n / 10, 4);
      rest := [Digit(n % 10)];
    } else {
      rest := DecimalLead(n / 10);
      rest := rest + [Digit(n % 10)];
      assert Decimal(n) == Decimal(n / 10) + [Digit(n % 10)];
    }
  }

  function Tail(d: Date): string
    requires Valid(d)
  {
    "-" + (Pad(d.month, 2) + ("-" + Pad(d.day, 2)))
  }

  lemma LongText(d: Date) returns (rest: string)
    requires HtmlDate(d) && d.year >= 10000
    ensures 1000 <= Lead(d.year) <= 9999 && DateText(d) == Pad(Lead(d.year), 4) + rest
    ensures rest != "" && IsDigit(rest[0]) && |DateText(d)| > 10
  {
    Powers();
    var digits := DecimalLead(d.year);
    NumberPad(Lead(d.year), 4);
    NumberPad(d.month, 2);
    NumberPad(d.day, 2);
    assert |Tail(d)| == 6;
    assert DateText(d) == Decimal(d.year) + Tail(d);
    hide Lead, Pad, Tail, DateText, Decimal, Power10, Number, AllDigits;
    rest := digits + Tail(d);
    assert Pad(Lead(d.year), 4) + digits + Tail(d) == Pad(Lead(d.year), 4) + rest;
  }

  /** Against a four-digit date, such a text is placed by its first four digits; on a tie it is later. */
  lemma LongTextOrder(d: Date, stored: Date)
    requires HtmlDate(d) && d.year >= 10000 && Valid(stored) && FourDigitYear(stored)
    ensures Less(Iso(stored), DateText(d)) <==> stored.year <= Lead(d.year)
    ensures Less(DateText(d), Iso(stored)) <==> Lead(d.year) < stored.year
  {
    Powers();
    var rest := LongText(d);
    assert Iso(stored) == Pad(stored.year, 4) + Tail(stored);
    assert Tail(stored)[0] == '-';
    hide Lead, Pad, DateText, Iso, Tail, Power10;
    assert Less(Tail(stored), rest) && !Less(rest, Tail(stored));
    PadOrder(stored.year, Lead(d.year), 4, Tail(stored), rest);
    PadOrder(Lead(d.year), stored.year, 4, rest, Tail(stored));
  }

  // ---- Form and handler ----

  /** What the handler makes of a date of the input. */
  lemma AcceptsDateText(d: Date, start: Date, end: Option<Date>)
    requires HtmlDate(d) && Stored(start, end)
    ensures Accepts(DateText(d), start, end) <==> FourDigitYear(d) && StrictlyInside(d, start, end)
  {
    if FourDigitYear(d) {
      AcceptsExactlyInnerDates(DateText(d), start, end);
      if Accepts(DateText(d), start, end) {
        ParsedCountsDays(DateText(d));
        IsoParses(d);
        InsideByText(d, start, end);
      }
    } else {
      var _ := LongText(d);
    }
  }

  /** For dates of four-digit years the button is enabled exactly inside the agreement; longer years
      it takes by their first four digits. */
  lemma EnabledForDateText(d: Date, start: Date, end: Option<Date>)
    requires HtmlDate(d) && Stored(start, end)
    ensures Enabled(DateText(d), start, end) <==>
      if FourDigitYear(d) then StrictlyInside(d, start, end)
      else start.year <= Lead(d.year) && (end.Some? ==> Lead(d.year) < end.value.year)
  {
    if FourDigitYear(d) {
      IsoShape(d);
      InsideByText(d, start, end);
    } else {
      LongTextOrder(d, start);
      if end.Some? {
        LongTextOrder(d, end.value);
      }
    }
  }

  /** The button is enabled for exactly the dates the handler accepts, if and only if the agreement
      has an end and no four-digit year from 1000 on lies between, counting the start's: then no longer
      year can begin with one. So it is for an agreement that ends in the year in which it starts. */
  lemma SaveEnabledIffAccepted(start: Date, end: Option<Date>)
    requires Stored(start, end)
    ensures (forall d | HtmlDate(d) :: Enabled(DateText(d), start, end) <==> Accepts(DateText(d), start, end))
      <==> end.Some? && (end.value.year <= start.year || end.value.year <= 1000)
  {
    if end.Some? && (end.value.year <= start.year || end.value.year <= 1000) {
      forall d | HtmlDate(d) ensures Enabled(DateText(d), start, end) <==> Accepts(DateText(d), start, end) {
        AcceptsDateText(d, start, end);
        EnabledForDateText(d, start, end);
        if d.year >= 10000 {
          var _ := LongText(d);
        }
      }
    } else {
      var year := if start.year < 1000 then 1000 else start.year;
      var d := Date(10 * year, 1, 1);
      assert Lead(10 * year) == year;
      AcceptsDateText(d, start, end);
      EnabledForDateText(d, start, end);
      assert Enabled(DateText(d), start, end) && !Accepts(DateText(d), start, end);
    }
  }

  lemma LowerBound(d: Date, start: Date)
    requires HtmlDate(d) && Valid(start) && FourDigitYear(start)
    ensures (Bound(Next(start)).Some? ==> UpTo(Bound(Next(start)).value, d)) <==> (start != LAST_DAY ==> Before(start, d))
  {
    NextIsOneDayLater(start);
    hide DayNumber;
    NothingBetween(start, d);
  }

  lemma UpperBound(d: Date, end: Date)
    requires HtmlDate(d) && Valid(end) && FourDigitYear(end)
    ensures (Bound(Previous(end)).Some? ==> UpTo(d, Bound(Previous(end)).value)) <==> (Before(FIRST_DAY, end) ==> Before(d, end))
  {
    PreviousIsOneDayEarlier(end);
    hide DayNumber;
    NothingBetween(Previous(end), d);
  }

  /** The input offers the dates after the start, unless the agreement starts on the last day of the
      year 9999, and up to the end, if there is one and the day before it is a date of the input. */
  lemma OffersExactlyInnerDates(d: Date, start: Date, end: Option<Date>)
    requires HtmlDate(d) && Stored(start, end)
    ensures Offers(d, start, end) <==>
      && (start != LAST_DAY ==> Before(start, d))
      && (end.Some? && Before(FIRST_DAY, end.value) ==> Before(d, end.value))
  {
    LowerBound(d, start);
    if end.Some? {
      UpperBound(d, end.value);
    }
    hide Bound, Next, Previous, Before, UpTo;
  }

  lemma NothingBetween(a: Date, d: Date)
    requires Valid(a) && Valid(d)
    ensures UpTo(Next(a), d) <==> Before(a, d)
    ensures UpTo(d, a) <==> Before(d, Next(a))
  {
  }

  /** The input offers exactly the dates the handler accepts, if and only if both its bounds are there:
      the agreement has an end, after the first day of the year 1, and does not start on the last day
      of the year 9999. */
  lemma OfferedIffAccepted(start: Date, end: Option<Date>)
    requires Stored(start, end)
    ensures (forall d | HtmlDate(d) :: Offers(d, start, end) <==> Accepts(DateText(d), start, end))
      <==> end.Some? && Before(FIRST_DAY, end.value) && start != LAST_DAY
  {
    if end.Some? && Before(FIRST_DAY, end.value) && start != LAST_DAY {
      forall d | HtmlDate(d) ensures Offers(d, start, end) <==> Accepts(DateText(d), start, end) {
        OffersExactlyInnerDates(d, start, end);
        AcceptsDateText(d, start, end);
      }
    } else {
      var d := if end.None? then Date(30000, 1, 1) else if Before(FIRST_DAY, end.value) then FIRST_DAY else LAST_DAY;
      OffersExactlyInnerDates(d, start, end);
      AcceptsDateText(d, start, end);
      assert Offers(d, start, end) && !Accepts(DateText(d), start, end);
    }
  }

  /** Bounds and button together let through exactly what the handler accepts, if and only if the
      agreement has an end. */
  lemma FormSubmitsIffAccepted(start: Date, end: Option<Date>)
    requires Stored(start, end)
    ensures (forall d | HtmlDate(d) ::
        Offers(d, start, end) && Enabled(DateText(d), start, end) <==> Accepts(DateText(d), start, end))
      <==> end.Some?
  {
    if end.Some? {
      forall d | HtmlDate(d)
        ensures Offers(d, start, end) && Enabled(DateText(d), start, end) <==> Accepts(DateText(d), start, end)
      {
        OffersExactlyInnerDates(d, start, end);
        AcceptsDateText(d, start, end);
        EnabledForDateText(d, start, end);
        if d.year >= 10000 {
          var _ := LongText(d);
        }
      }
    } else {
      var d := Date(99990, 1, 1);
      assert Lead(99990) == 9999;
      OffersExactlyInnerDates(d, start, end);
      AcceptsDateText(d, start, end);
      EnabledForDateText(d, start, end);
      assert Offers(d, start, end) && Enabled(DateText(d), start, end) && !Accepts(DateText(d), start, end);
    }
  }

  /** The input that shows it: the year 30000, for an open-ended agreement of 2024. */
  lemma YearOfFiveDigits()
    ensures var d, start := Date(30000, 1, 1), Date(2024, 1, 1);
      Offers(d, start, None) && Enabled(DateText(d), start, None) && !Accepts(DateText(d), start, None)
  {
    var d, start := Date(30000, 1, 1), Date(2024, 1, 1);
    assert Lead(30000) == 3000;
    OffersExactlyInnerDates(d, start, None);
    EnabledForDateText(d, start, None);
    AcceptsDateText(d, start, None);
  }
}

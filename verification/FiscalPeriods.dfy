/** The twelve periods of a fiscal year: the draft the fiscal page proposes, as ISO text, and the
    rows the demonstration seed stores, as dates that are later looked up by month digits. */
module FiscalPeriods {
  import opened Calendar

  datatype PeriodDraft = PeriodDraft(periodNumber: nat, startDate: string, endDate: string)
  datatype YearDraft = YearDraft(startDate: string, endDate: string, periods: seq<PeriodDraft>)

  function NewYear(year: nat): YearDraft
    requires year >= 100
  {
    YearDraft(
      Decimal(year) + "-01-01",
      Decimal(year) + "-12-31",
      seq(12, index requires 0 <= index < 12 => NewPeriod(year, index)))
  }

  function NewPeriod(year: nat, index: nat): PeriodDraft
    requires year >= 100 && index < 12
  {
    DayZeroIsMonthEnd(year, index + 1);
    var month := Pad(index + 1, 2);
    var end := DateOf(UtcDay(year, index + 1, 0)).day;
    PeriodDraft(index + 1, Decimal(year) + "-" + month + "-01", Decimal(year) + "-" + month + "-" + Decimal(end))
  }

  function MonthStart(year: int, month: int): Date { Date(year, month, 1) }
  function MonthEnd(year: int, month: int): Date { Date(year, month, DaysInMonth(year, month)) }

  lemma DashText(y: string, m: string, d: string)
    ensures y + "-" + m + "-" + d == y + ("-" + (m + ("-" + d)))
  {
  }

  lemma FirstDayText()
    ensures "-" + Pad(1, 2) == "-01"
  {
  }

  lemma NewPeriodText(year: nat, index: nat)
    requires 1000 <= year <= 9999 && index < 12
    ensures NewPeriod(year, index) == PeriodDraft(index + 1, Iso(MonthStart(year, index + 1)), Iso(MonthEnd(year, index + 1)))
  {
    var end := MonthEnd(year, index + 1);
    var y, m := Decimal(year), Pad(index + 1, 2);
    assert Decimal(year) == Pad(year, 4) && Decimal(end.day) == Pad(end.day, 2) by {
      Powers();
      DecimalIsPad(year, 4);
      DecimalIsPad(end.day, 2);
    }
    FirstDayText();
    hide DateOf, UtcDay, Decimal, Pad;
    DayZeroIsMonthEnd(year, index + 1);
    DashText(y, m, Pad(end.day, 2));
    DashText(y, m, Pad(1, 2));
    assert y + "-" + m + "-01" == y + "-" + m + ("-" + Pad(1, 2));
  }

  /** `s <= text <= e` as the pages and the server compare ISO text. */
  predicate InRange(text: string, s: string, e: string) {
    !Less(text, s) && !Less(e, text)
  }

  lemma MonthRange(year: int, month: int, d: Date)
    requires 0 <= year <= 9999 && 1 <= month <= 12 && Valid(d) && FourDigitYear(d)
    ensures InRange(Iso(d), Iso(MonthStart(year, month)), Iso(MonthEnd(year, month))) <==> d.year == year && d.month == month
  {
    IsoOrder(d, MonthStart(year, month));
    IsoOrder(MonthEnd(year, month), d);
  }

  lemma YearText(year: nat)
    requires 1000 <= year <= 9999
    ensures NewYear(year).startDate == Iso(Date(year, 1, 1)) && NewYear(year).endDate == Iso(Date(year, 12, 31))
  {
    Powers();
    DecimalIsPad(year, 4);
    assert Pad(1, 2) == "01" && Pad(12, 2) == "12" && Pad(31, 2) == "31";
    assert "-01-01" == "-" + ("01" + ("-" + "01")) && "-12-31" == "-" + ("12" + ("-" + "31"));
  }

  ghost predicate SpansMonth(p: PeriodDraft, year: int, month: int)
    requires 0 <= year <= 9999 && 1 <= month <= 12
  {
    && p == PeriodDraft(month, Iso(MonthStart(year, month)), Iso(MonthEnd(year, month)))
    && (month < 12 ==> Next(MonthEnd(year, month)) == MonthStart(year, month + 1))
  }

  /** The draft tiles its year: the first period starts with the year, each next one on the day
      after the one before, the last ends with the year. */
  lemma NewYearTilesTheYear(year: nat)
    requires 1000 <= year <= 9999
    ensures |NewYear(year).periods| == 12
    ensures forall i | 0 <= i < 12 :: SpansMonth(NewYear(year).periods[i], year, i + 1)
    ensures NewYear(year).periods[0].startDate == NewYear(year).startDate == Iso(Date(year, 1, 1))
    ensures NewYear(year).periods[11].endDate == NewYear(year).endDate == Iso(Date(year, 12, 31))
  {
    YearText(year);
    forall i: nat | i < 12 ensures SpansMonth(NewYear(year).periods[i], year, i + 1) {
      NewPeriodText(year, i);
    }
    assert SpansMonth(NewYear(year).periods[0], year, 1);
    assert SpansMonth(NewYear(year).periods[11], year, 12);
  }

  /** A date of any year is in period i exactly when it falls in month i of this year: every day
      of the year is in one period and no other day is in any. */
  lemma PeriodsPartitionTheYear(year: nat, d: Date, i: nat)
    requires 1000 <= year <= 9999 && Valid(d) && FourDigitYear(d) && i < 12
    ensures |NewYear(year).periods| == 12
    ensures var p := NewYear(year).periods[i];
      InRange(Iso(d), p.startDate, p.endDate) <==> (d.year == year && d.month == i + 1)
  {
    NewPeriodText(year, i);
    MonthRange(year, i + 1, d);
  }

  /** Years of more or fewer than four digits give texts that are no date at all: nothing pads them. */
  lemma WellFormedExactlyForFourDigits(year: nat)
    requires year >= 100
    ensures (exists d :: Valid(d) && FourDigitYear(d) && NewYear(year).startDate == Iso(d)) <==> 1000 <= year <= 9999
  {
    Powers();
    if 1000 <= year <= 9999 {
      YearText(year);
      assert Valid(Date(year, 1, 1));
    } else {
      if year < 1000 {
        DecimalIsPad(year, 3);
      } else {
        DecimalLengthGrows(year, 4);
      }
      forall d | Valid(d) && FourDigitYear(d) ensures NewYear(year).startDate != Iso(d) {
        IsoShape(d);
      }
    }
  }

  // ---- The seed's rows ----

  datatype Period = Period(number: nat, start: Date, end: Date)

  function MonthPeriod(year: nat, month: nat): Period {
    Period(month, MonthStart(year, month), MonthEnd(year, month))
  }

  /** Day 1 of a month is its first day, and day 0 of the next one its last. */
  lemma UtcDatesOfTheMonth(year: nat, month: nat)
    requires year >= 100 && 1 <= month <= 12
    ensures UtcDay(year, month - 1, 1) >= 0 && DateOf(UtcDay(year, month - 1, 1)) == MonthStart(year, month)
    ensures UtcDay(year, month, 0) >= 0 && DateOf(UtcDay(year, month, 0)) == MonthEnd(year, month)
  {
    hide DateOf;
    DateOfDayNumber(MonthStart(year, month));
    DayZeroIsMonthEnd(year, month);
  }

  /** The seed runs this for the year 2026. */
  method StorePeriods(year: nat) returns (periods: seq<Period>)
    requires year >= 100
    ensures |periods| == 12
    ensures forall i | 0 <= i < 12 :: periods[i] == MonthPeriod(year, i + 1)
  {
    hide DateOf, UtcDay, MonthStart, MonthEnd;
    periods := [];
    for month := 1 to 13
      invariant |periods| == month - 1
      invariant forall i | 0 <= i < |periods| :: periods[i] == MonthPeriod(year, i + 1)
    {
      UtcDatesOfTheMonth(year, month);
      var start, end := DateOf(UtcDay(year, month - 1, 1)), DateOf(UtcDay(year, month, 0));
      periods := periods + [Period(month, start, end)];
    }
  }

  /** periods[Number(documentDate.slice(5, 7)) - 1]: the month digits alone choose the row. */
  function Picked(year: nat, documentDate: string): Period
    requires |documentDate| == 10 && AllDigits(documentDate[5..7]) && 1 <= Number(documentDate[5..7]) <= 12
  {
    MonthPeriod(year, Number(documentDate[5..7]))
  }

  predicate Contains(p: Period, d: Date) {
    UpTo(p.start, d) && UpTo(d, p.end)
  }

  /** The row picked by month digits contains the date exactly for dates of the stored year, and is
      then the only row that does; for any other year no row contains the date and one is picked
      all the same. */
  lemma PickedRowContainsTheDate(year: nat, d: Date)
    requires Valid(d) && FourDigitYear(d)
    ensures |Iso(d)| == 10 && AllDigits(Iso(d)[5..7]) && Number(Iso(d)[5..7]) == d.month
    ensures Contains(Picked(year, Iso(d)), d) <==> d.year == year
    ensures forall month | 1 <= month <= 12 && Contains(MonthPeriod(year, month), d) :: MonthPeriod(year, month) == Picked(year, Iso(d))
  {
    Powers();
    IsoShape(d);
    NumberPad(d.month, 2);
  }
}

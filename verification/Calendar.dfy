/** Civil dates, the day numbers JavaScript computes with, and ISO text compared as strings. */
module Calendar {

  datatype Date = Date(year: int, month: int, day: int)

  predicate Leap(y: int) {
    y % 4 == 0 && (y % 100 != 0 || y % 400 == 0)
  }

  function DaysInMonth(y: int, m: int): int {
    if m == 2 then (if Leap(y) then 29 else 28)
    else if m == 4 || m == 6 || m == 9 || m == 11 then 30
    else 31
  }

  predicate Valid(d: Date) {
    1 <= d.month <= 12 && 1 <= d.day <= DaysInMonth(d.year, d.month)
  }

  predicate Before(a: Date, b: Date) {
    || a.year < b.year
    || (a.year == b.year && a.month < b.month)
    || (a.year == b.year && a.month == b.month && a.day < b.day)
  }

  predicate UpTo(a: Date, b: Date) {
    a == b || Before(a, b)
  }

  function Next(d: Date): Date {
    if d.day < DaysInMonth(d.year, d.month) then d.(day := d.day + 1)
    else if d.month < 12 then Date(d.year, d.month + 1, 1)
    else Date(d.year + 1, 1, 1)
  }

  function Previous(d: Date): Date {
    if d.day > 1 then d.(day := d.day - 1)
    else if d.month > 1 then Date(d.year, d.month - 1, DaysInMonth(d.year, d.month - 1))
    else Date(d.year - 1, 12, 31)
  }

  // ---- Day numbers: the arithmetic behind Date.UTC and setUTCDate ----

  function DaysInYear(y: int): int {
    if Leap(y) then 366 else 365
  }

  /** Days before 1 January of year `y`, counted from 1 January of year 0. */
  function DaysBeforeYear(y: nat): int {
    if y == 0 then 0 else DaysBeforeYear(y - 1) + DaysInYear(y - 1)
  }

  function DaysBeforeMonth(y: int, m: int): int
    decreases m
  {
    if m <= 1 then 0 else DaysBeforeMonth(y, m - 1) + DaysInMonth(y, m - 1)
  }

  function DayNumber(d: Date): int
    requires d.year >= 0
  {
    DaysBeforeYear(d.year) + DaysBeforeMonth(d.year, d.month) + d.day - 1
  }

  lemma {:induction false} MonthsFillYear(y: int)
    ensures DaysBeforeMonth(y, 12) + 31 == DaysInYear(y)
  {
    assert DaysBeforeMonth(y, 3) == 31 + DaysInMonth(y, 2);
    assert DaysBeforeMonth(y, 6) == DaysBeforeMonth(y, 3) + 31 + 30 + 31;
    assert DaysBeforeMonth(y, 9) == DaysBeforeMonth(y, 6) + 30 + 31 + 31;
    assert DaysBeforeMonth(y, 12) == DaysBeforeMonth(y, 9) + 30 + 31 + 30;
  }

  /** DayFromYear(y) of ECMA-262, section "Time-related Constants and day numbers": days from 1 January 1970. */
  function DayFromYear(y: int): int {
    365 * (y - 1970) + (y - 1969) / 4 - (y - 1901) / 100 + (y - 1601) / 400
  }

  /** The days of a common year before each month, as ECMA-262 tells months from days within the year. */
  const BEFORE_MONTH: seq<int> := [0, 31, 59, 90, 120, 151, 181, 212, 243, 273, 304, 334]

  lemma {:induction false} YearsAreCounted(y: nat)
    ensures DaysBeforeYear(y) == DayFromYear(y) + 719528
  {
    if y > 0 {
      YearsAreCounted(y - 1);
      LeapCount(y - 1);
    }
  }

  /** A year adds a leap day exactly if it is leap. */
  lemma LeapCount(y: nat)
    ensures DayFromYear(y + 1) - DayFromYear(y) == if Leap(y) then 366 else 365
  {
    EveryFourth(y);
    EveryHundredth(y);
    EveryFourHundredth(y);
  }

  lemma EveryFourth(y: int)
    ensures (y + 1 - 1969) / 4 - (y - 1969) / 4 == if y % 4 == 0 then 1 else 0
  {
  }

  lemma EveryHundredth(y: int)
    ensures (y + 1 - 1901) / 100 - (y - 1901) / 100 == if y % 100 == 0 then 1 else 0
    ensures y % 100 == 0 ==> y % 4 == 0
  {
  }

  lemma EveryFourHundredth(y: int)
    ensures (y + 1 - 1601) / 400 - (y - 1601) / 400 == if y % 400 == 0 then 1 else 0
    ensures y % 400 == 0 ==> y % 100 == 0
  {
  }

  lemma MonthsAreCounted(y: int, m: int)
    requires 1 <= m <= 12
    ensures DaysBeforeMonth(y, m) == BEFORE_MONTH[m - 1] + if m > 2 && Leap(y) then 1 else 0
  {
    assert DaysBeforeMonth(y, 3) == 31 + DaysInMonth(y, 2);
    assert DaysBeforeMonth(y, 5) == DaysBeforeMonth(y, 3) + 61;
    assert DaysBeforeMonth(y, 7) == DaysBeforeMonth(y, 5) + 61;
    assert DaysBeforeMonth(y, 9) == DaysBeforeMonth(y, 7) + 62;
    assert DaysBeforeMonth(y, 11) == DaysBeforeMonth(y, 9) + 61;
  }

  /** Day numbers, and with them the lengths of months and years, are those of ECMA-262, with 1 January 1970 as
      day 719528. */
  lemma DayNumberIsEcma(d: Date)
    requires Valid(d) && d.year >= 0
    ensures DayNumber(d) == 719528 + DayFromYear(d.year) + BEFORE_MONTH[d.month - 1]
      + (if d.month > 2 && DayFromYear(d.year + 1) - DayFromYear(d.year) == 366 then 1 else 0) + d.day - 1
  {
    YearsAreCounted(d.year);
    LeapCount(d.year);
    MonthsAreCounted(d.year, d.month);
  }

  /** A month ends the day before the next one begins. */
  lemma MonthsAbut(y: nat, m: int)
    requires 1 <= m <= 12
    ensures DaysInMonth(y, m) == (if m < 12 then BEFORE_MONTH[m] else 365) - BEFORE_MONTH[m - 1]
      + if m == 2 && DayFromYear(y + 1) - DayFromYear(y) == 366 then 1 else 0
  {
    LeapCount(y);
  }

  lemma NextIsOneDayLater(d: Date)
    requires Valid(d) && d.year >= 0
    ensures Valid(Next(d)) && DayNumber(Next(d)) == DayNumber(d) + 1
    ensures Before(d, Next(d)) && Previous(Next(d)) == d
  {
    MonthsFillYear(d.year);
  }

  lemma PreviousIsOneDayEarlier(d: Date)
    requires Valid(d) && d.year >= 0
    ensures Valid(Previous(d)) && Next(Previous(d)) == d
    ensures Previous(d).year >= 0 ==> DayNumber(Previous(d)) == DayNumber(d) - 1
  {
    if Previous(d).year >= 0 {
      NextIsOneDayLater(Previous(d));
    }
  }

  lemma {:induction false} YearsGrow(y: nat, z: nat)
    requires y < z
    ensures DaysBeforeYear(y) + DaysInYear(y) <= DaysBeforeYear(z)
    decreases z
  {
    if y < z - 1 {
      YearsGrow(y, z - 1);
    }
  }

  lemma {:induction false} MonthsGrow(y: int, m: int, n: int)
    requires 1 <= m < n
    ensures DaysBeforeMonth(y, m) + DaysInMonth(y, m) <= DaysBeforeMonth(y, n)
    decreases n
  {
    if m < n - 1 {
      MonthsGrow(y, m, n - 1);
    }
  }

  lemma {:induction false} MonthInsideYear(y: int, m: int)
    requires 1 <= m <= 12
    ensures 0 <= DaysBeforeMonth(y, m) && DaysBeforeMonth(y, m) + DaysInMonth(y, m) <= DaysInYear(y)
  {
    MonthsFillYear(y);
    if m < 12 {
      MonthsGrow(y, m, 12);
    }
    if m > 1 {
      MonthsGrow(y, 1, m);
    }
  }

  lemma BeforeIsSmaller(a: Date, b: Date)
    requires Valid(a) && Valid(b) && a.year >= 0 && b.year >= 0 && Before(a, b)
    ensures DayNumber(a) < DayNumber(b)
  {
    MonthInsideYear(a.year, a.month);
    MonthInsideYear(b.year, b.month);
    if a.year < b.year {
      YearsGrow(a.year, b.year);
    } else if a.month < b.month {
      MonthsGrow(a.year, a.month, b.month);
    }
  }

  /** Day numbers order exactly as dates, so a day number has at most one date. */
  lemma DayNumberOrder(a: Date, b: Date)
    requires Valid(a) && Valid(b) && a.year >= 0 && b.year >= 0
    ensures Before(a, b) <==> DayNumber(a) < DayNumber(b)
    ensures a == b <==> DayNumber(a) == DayNumber(b)
  {
    if Before(a, b) {
      BeforeIsSmaller(a, b);
    } else if Before(b, a) {
      BeforeIsSmaller(b, a);
    }
  }

  /** The date JavaScript reads back from a day number (getUTCFullYear, getUTCMonth, getUTCDate). */
  function DateOf(n: nat): (d: Date)
    ensures Valid(d) && d.year >= 0 && DayNumber(d) == n
  {
    if n == 0 then Date(0, 1, 1)
    else
      var before := DateOf(n - 1);
      NextIsOneDayLater(before);
      Next(before)
  }

  lemma DateOfDayNumber(d: Date)
    requires Valid(d) && d.year >= 0
    ensures DayNumber(d) >= 0 && DateOf(DayNumber(d)) == d
  {
    if d != Date(0, 1, 1) {
      DayNumberOrder(Date(0, 1, 1), d);
    }
    DayNumberOrder(DateOf(DayNumber(d)), d);
  }

  /** Date.UTC(year, month0, day): months are numbered from 0 and may run one past December, and
      the day may run outside the month. Years from 100 on, where no century is added. */
  function UtcDay(year: int, month0: int, day: int): int
    requires year >= 100 && 0 <= month0 <= 12
  {
    (if month0 < 12 then DayNumber(Date(year, month0 + 1, 1)) else DayNumber(Date(year + 1, 1, 1))) + day - 1
  }

  /** Day 0 of the following month is the last day of the month, December included. */
  lemma DayZeroIsMonthEnd(year: int, month: int)
    requires year >= 100 && 1 <= month <= 12
    ensures UtcDay(year, month, 0) >= 0
    ensures DateOf(UtcDay(year, month, 0)) == Date(year, month, DaysInMonth(year, month))
  {
    hide DateOf, DaysBeforeYear, DaysBeforeMonth;
    var end := Date(year, month, DaysInMonth(year, month));
    NextIsOneDayLater(end);
    DateOfDayNumber(end);
    assert UtcDay(year, month, 0) == DayNumber(end);
  }

  // ---- ISO text ----

  predicate IsDigit(c: char) {
    '0' <= c <= '9'
  }

  function Digit(n: nat): char
    requires n < 10
  {
    '0' + n as char
  }

  function DigitValue(c: char): nat
    requires IsDigit(c)
  {
    c as int - '0' as int
  }

  function Power10(w: nat): nat {
    if w == 0 then 1 else 10 * Power10(w - 1)
  }

  /** String(n).padStart(w, "0") for a number of at most w digits. */
  function Pad(n: nat, w: nat): string {
    if w == 0 then "" else Pad(n / 10, w - 1) + [Digit(n % 10)]
  }

  predicate AllDigits(s: string) {
    forall i | 0 <= i < |s| :: IsDigit(s[i])
  }

  function Number(s: string): nat
    requires AllDigits(s)
  {
    if s == "" then 0 else Number(s[..|s| - 1]) * 10 + DigitValue(s[|s| - 1])
  }

  lemma {:induction false} NumberPad(n: nat, w: nat)
    requires n < Power10(w)
    ensures |Pad(n, w)| == w && AllDigits(Pad(n, w)) && Number(Pad(n, w)) == n
  {
    if w > 0 {
      NumberPad(n / 10, w - 1);
      assert Pad(n, w)[..w - 1] == Pad(n / 10, w - 1);
    }
  }

  lemma {:induction false} PadNumber(s: string)
    requires AllDigits(s)
    ensures Number(s) < Power10(|s|) && Pad(Number(s), |s|) == s
  {
    if s != "" {
      PadNumber(s[..|s| - 1]);
      assert s == s[..|s| - 1] + [s[|s| - 1]];
    }
  }

  /** JavaScript's rendering of a number in a template string: no padding. */
  function Decimal(n: nat): string {
    if n < 10 then [Digit(n)] else Decimal(n / 10) + [Digit(n % 10)]
  }

  lemma Powers()
    ensures Power10(1) == 10 && Power10(2) == 100 && Power10(3) == 1000 && Power10(4) == 10000
  {
  }

  lemma {:induction false} DecimalIsPad(n: nat, w: nat)
    requires w > 0 && (w == 1 || Power10(w - 1) <= n) && n < Power10(w)
    ensures Decimal(n) == Pad(n, w) && |Decimal(n)| == w
  {
    if w == 1 {
      assert Power10(1) == 10;
      assert Pad(n, 1) == Pad(0, 0) + [Digit(n)];
    } else {
      if w == 2 {
        assert Power10(1) == 10;
      }
      DecimalIsPad(n / 10, w - 1);
    }
  }

  lemma {:induction false} DecimalLengthGrows(n: nat, w: nat)
    requires Power10(w) <= n
    ensures |Decimal(n)| > w
  {
    if w > 0 {
      DecimalLengthGrows(n / 10, w - 1);
    }
  }

  /** JavaScript's `<` on strings. */
  predicate Less(s: string, t: string) {
    t != "" && (s == "" || s[0] < t[0] || (s[0] == t[0] && Less(s[1..], t[1..])))
  }

  lemma {:induction false} PadOrder(a: nat, b: nat, w: nat, x: string, y: string)
    requires a < Power10(w) && b < Power10(w)
    ensures Less(Pad(a, w) + x, Pad(b, w) + y) <==> a < b || (a == b && Less(x, y))
  {
    if w == 0 {
      assert Pad(a, w) + x == x && Pad(b, w) + y == y;
    } else {
      var s, t := [Digit(a % 10)] + x, [Digit(b % 10)] + y;
      assert a / 10 < Power10(w - 1) && b / 10 < Power10(w - 1);
      PadOrder(a / 10, b / 10, w - 1, s, t);
      assert Pad(a, w) + x == Pad(a / 10, w - 1) + s && Pad(b, w) + y == Pad(b / 10, w - 1) + t;
      assert s[1..] == x && t[1..] == y;
    }
  }

  predicate FourDigitYear(d: Date) {
    0 <= d.year < 10000
  }

  /** toISOString().slice(0, 10) of a date in the years 0 to 9999. */
  function Iso(d: Date): string
    requires Valid(d) && FourDigitYear(d)
  {
    Pad(d.year, 4) + ("-" + (Pad(d.month, 2) + ("-" + Pad(d.day, 2))))
  }

  lemma DashOrder(x: string, y: string)
    ensures Less("-" + x, "-" + y) <==> Less(x, y)
  {
    assert ("-" + x)[1..] == x && ("-" + y)[1..] == y;
  }

  /** ISO date strings order exactly as calendar dates, and no two dates share a text. */
  lemma IsoOrder(a: Date, b: Date)
    requires Valid(a) && Valid(b) && FourDigitYear(a) && FourDigitYear(b)
    ensures Less(Iso(a), Iso(b)) <==> Before(a, b)
    ensures Iso(a) == Iso(b) <==> a == b
  {
    assert Power10(2) == 100 && Power10(4) == 10000;
    IsoLess(a, b);
    IsoLess(b, a);
  }

  lemma IsoLess(a: Date, b: Date)
    requires Valid(a) && Valid(b) && FourDigitYear(a) && FourDigitYear(b)
    ensures Less(Iso(a), Iso(b)) <==> Before(a, b)
  {
    assert Power10(2) == 100 && Power10(4) == 10000;
    var dayA, dayB := Pad(a.day, 2), Pad(b.day, 2);
    var monthA, monthB := Pad(a.month, 2) + ("-" + dayA), Pad(b.month, 2) + ("-" + dayB);
    PadOrder(a.day, b.day, 2, "", "");
    assert dayA + "" == dayA && dayB + "" == dayB;
    DashOrder(dayA, dayB);
    PadOrder(a.month, b.month, 2, "-" + dayA, "-" + dayB);
    DashOrder(monthA, monthB);
    PadOrder(a.year, b.year, 4, "-" + monthA, "-" + monthB);
  }

  /** The text is ten characters, dashes in the fifth and eighth place, the digits in between
      spelling the date. */
  lemma IsoShape(d: Date)
    requires Valid(d) && FourDigitYear(d)
    ensures var s := Iso(d);
      && |s| == 10 && s[4] == '-' && s[7] == '-'
      && s[..4] == Pad(d.year, 4) && s[5..7] == Pad(d.month, 2) && s[8..] == Pad(d.day, 2)
  {
    Powers();
    NumberPad(d.year, 4);
    NumberPad(d.month, 2);
    NumberPad(d.day, 2);
    var year, month, day := Pad(d.year, 4), Pad(d.month, 2), Pad(d.day, 2);
    assert Iso(d) == year + ("-" + (month + ("-" + day)));
    hide Pad, Power10, Iso, Number, AllDigits;
    SlicesOfJoined(year, month, day);
  }

  lemma SlicesOfJoined(year: string, month: string, day: string)
    requires |year| == 4 && |month| == 2 && |day| == 2
    ensures var s := year + ("-" + (month + ("-" + day)));
      && |s| == 10 && s[4] == '-' && s[7] == '-'
      && s[..4] == year && s[5..7] == month && s[8..] == day
  {
  }
}

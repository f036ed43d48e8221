/** Proleptic Gregorian civil dates: validity, day rollover, a day count and
    ISO 8601 weekday numbering. Dates are civil values in a single zone. */
module CivilDate {

  datatype Date = Date(year: int, month: int, day: int)

  predicate IsLeapYear(y: int) {
    y % 4 == 0 && (y % 100 != 0 || y % 400 == 0)
  }

  function DaysInMonth(y: int, m: int): (n: int)
    requires 1 <= m <= 12
    ensures 28 <= n <= 31
    ensures n == 29 <==> m == 2 && IsLeapYear(y)
  {
    if m == 2 then (if IsLeapYear(y) then 29 else 28)
    else if m == 4 || m == 6 || m == 9 || m == 11 then 30
    else 31
  }

  function DaysInYear(y: int): int {
    if IsLeapYear(y) then 366 else 365
  }

  predicate Valid(d: Date) {
    1 <= d.month <= 12 && 1 <= d.day <= DaysInMonth(d.year, d.month)
  }

  /** Days from 0001-01-01 to 1 January of year y (negative before year 1). */
  function DaysBeforeYear(y: int): int {
    var p := y - 1;
    365 * p + p / 4 - p / 100 + p / 400
  }

  /** Days from 1 January to the first day of month m of year y. */
  function DaysBeforeMonth(y: int, m: int): int
    requires 1 <= m <= 12
  {
    var leap := if IsLeapYear(y) && m > 2 then 1 else 0;
    leap + (match m
      case 1 => 0 case 2 => 31 case 3 => 59 case 4 => 90
      case 5 => 120 case 6 => 151 case 7 => 181 case 8 => 212
      case 9 => 243 case 10 => 273 case 11 => 304 case _ => 334)
  }

  /** The day count of a date: 0001-01-01 is day 0. */
  function DayNumber(d: Date): int
    requires Valid(d)
  {
    DaysBeforeYear(d.year) + DaysBeforeMonth(d.year, d.month) + d.day - 1
  }

  /** JavaScript's Date.prototype.getDay: 0 is Sunday, 1 Monday, ..., 6 Saturday. */
  function JsGetDay(d: Date): int
    requires Valid(d)
  {
    (DayNumber(d) + 1) % 7
  }

  /** ISO 8601 weekday number: Monday is 1, ..., Sunday is 7. */
  function IsoWeekday(d: Date): int
    requires Valid(d)
  {
    DayNumber(d) % 7 + 1
  }

  function NextDay(d: Date): (r: Date)
    requires Valid(d)
    ensures Valid(r)
  {
    if d.day < DaysInMonth(d.year, d.month) then Date(d.year, d.month, d.day + 1)
    else if d.month < 12 then Date(d.year, d.month + 1, 1)
    else Date(d.year + 1, 1, 1)
  }

  function PrevDay(d: Date): (r: Date)
    requires Valid(d)
    ensures Valid(r)
  {
    if d.day > 1 then Date(d.year, d.month, d.day - 1)
    else if d.month > 1 then Date(d.year, d.month - 1, DaysInMonth(d.year, d.month - 1))
    else Date(d.year - 1, 12, 31)
  }

  /** The date k days after d (before d when k is negative), stepping one day at a time. */
  function AddDays(d: Date, k: int): (r: Date)
    requires Valid(d)
    ensures Valid(r)
    ensures k >= 0 ==> d.year <= r.year
    ensures k <= 0 ==> r.year <= d.year
    decreases if k < 0 then -k else k
  {
    if k == 0 then d
    else if k > 0 then AddDays(NextDay(d), k - 1)
    else AddDays(PrevDay(d), k + 1)
  }

  /** Lexicographic order on (year, month, day). */
  predicate Before(a: Date, b: Date) {
    a.year < b.year
    || (a.year == b.year && a.month < b.month)
    || (a.year == b.year && a.month == b.month && a.day < b.day)
  }

  // ---------------------------------------------------------------------------
  // Arithmetic of the day count

  lemma DivStep(y: int, k: int)
    requires k == 4 || k == 100 || k == 400
    ensures y / k - (y - 1) / k == if y % k == 0 then 1 else 0
  {
    var q, r := (y - 1) / k, (y - 1) % k;
    assert y - 1 == k * q + r && 0 <= r < k;
    if r + 1 < k {
      assert y == k * q + (r + 1);
    } else {
      assert y == k * (q + 1) + 0;
    }
  }

  /** A year contributes exactly its length to the day count. */
  lemma YearLength(y: int)
    ensures DaysBeforeYear(y + 1) == DaysBeforeYear(y) + DaysInYear(y)
  {
    DivStep(y, 4);
    DivStep(y, 100);
    DivStep(y, 400);
  }

  lemma DaysBeforeYearMonotone(a: int, b: int)
    requires a < b
    ensures DaysBeforeYear(a) + DaysInYear(a) <= DaysBeforeYear(b)
    decreases b - a
  {
    YearLength(a);
    if a + 1 < b {
      DaysBeforeYearMonotone(a + 1, b);
    }
  }

  lemma DayNumberWithinYear(d: Date)
    requires Valid(d)
    ensures DaysBeforeYear(d.year) <= DayNumber(d) < DaysBeforeYear(d.year) + DaysInYear(d.year)
  {
  }

  lemma DayNumberWithinMonth(d: Date)
    requires Valid(d)
    ensures d.month < 12 ==> DayNumber(d) < DaysBeforeYear(d.year) + DaysBeforeMonth(d.year, d.month + 1)
  {
  }

  // ---------------------------------------------------------------------------
  // Properties of rollover and of the day count

  /** The next day is one day later, across month and year boundaries. */
  lemma NextDayNumber(d: Date)
    requires Valid(d)
    ensures DayNumber(NextDay(d)) == DayNumber(d) + 1
  {
    if d.day == DaysInMonth(d.year, d.month) && d.month == 12 {
      YearLength(d.year);
    }
  }

  lemma PrevDayNumber(d: Date)
    requires Valid(d)
    ensures DayNumber(PrevDay(d)) == DayNumber(d) - 1
  {
    if d.day == 1 && d.month == 1 {
      YearLength(d.year - 1);
    }
  }

  lemma PrevNextRoundTrip(d: Date)
    requires Valid(d)
    ensures PrevDay(NextDay(d)) == d
    ensures NextDay(PrevDay(d)) == d
  {
  }

  /** Adding k days moves the day count by exactly k. */
  lemma AddDaysNumber(d: Date, k: int)
    requires Valid(d)
    ensures DayNumber(AddDays(d, k)) == DayNumber(d) + k
  {
    if k >= 0 {
      ForwardNumber(d, k);
    } else {
      BackwardNumber(d, -k);
    }
  }

  lemma {:induction false} ForwardNumber(d: Date, k: nat)
    requires Valid(d)
    ensures DayNumber(AddDays(d, k)) == DayNumber(d) + k
    decreases k
  {
    if k > 0 {
      var n := NextDay(d);
      NextDayNumber(d);
      ForwardNumber(n, k - 1);
      assert AddDays(d, k) == AddDays(n, k - 1);
    }
  }

  lemma {:induction false} BackwardNumber(d: Date, k: int)
    requires Valid(d) && k >= 0
    ensures DayNumber(AddDays(d, -k)) == DayNumber(d) - k
    decreases k
  {
    if k > 0 {
      var p := PrevDay(d);
      PrevDayNumber(d);
      BackwardNumber(p, k - 1);
      assert AddDays(d, -k) == AddDays(p, -(k - 1));
    }
  }

  /** The calendar order of valid dates is the order of their day counts. */
  lemma BeforeIffDayNumberLess(a: Date, b: Date)
    requires Valid(a) && Valid(b)
    ensures Before(a, b) <==> DayNumber(a) < DayNumber(b)
  {
    DayNumberWithinYear(a);
    DayNumberWithinYear(b);
    if a.year < b.year {
      DaysBeforeYearMonotone(a.year, b.year);
    } else if b.year < a.year {
      DaysBeforeYearMonotone(b.year, a.year);
    } else if a.month < b.month {
      DayNumberWithinMonth(a);
    } else if b.month < a.month {
      DayNumberWithinMonth(b);
    }
  }

  /** Two valid dates with the same day count are the same date. */
  lemma DayNumberInjective(a: Date, b: Date)
    requires Valid(a) && Valid(b)
    requires DayNumber(a) == DayNumber(b)
    ensures a == b
  {
    BeforeIffDayNumberLess(a, b);
    BeforeIffDayNumberLess(b, a);
  }

  lemma {:induction false} AddDaysCompose(d: Date, j: int, k: int)
    requires Valid(d)
    ensures AddDays(AddDays(d, j), k) == AddDays(d, j + k)
  {
    AddDaysNumber(d, j);
    AddDaysNumber(AddDays(d, j), k);
    AddDaysNumber(d, j + k);
    DayNumberInjective(AddDays(AddDays(d, j), k), AddDays(d, j + k));
  }

  lemma ModSevenShift(n: int)
    ensures (n + 1) % 7 == if n % 7 == 6 then 0 else n % 7 + 1
  {
  }

  /** getDay's Sunday 0 becomes ISO's 7; every other day keeps its number. */
  lemma IsoWeekdayFromJsGetDay(d: Date)
    requires Valid(d)
    ensures 1 <= IsoWeekday(d) <= 7
    ensures IsoWeekday(d) == if JsGetDay(d) == 0 then 7 else JsGetDay(d)
  {
    ModSevenShift(DayNumber(d));
  }

  lemma ModSevenAdd(n: int, k: int)
    ensures (n + k) % 7 == (n % 7 + k) % 7
  {
    var q := n / 7;
    assert n + k == 7 * q + (n % 7 + k);
  }

  /** Moving k days moves the ISO weekday by k, modulo 7. */
  lemma {:induction false} AddDaysWeekday(d: Date, k: int)
    requires Valid(d)
    ensures IsoWeekday(AddDays(d, k)) - 1 == (IsoWeekday(d) - 1 + k) % 7
  {
    AddDaysNumber(d, k);
    ModSevenAdd(DayNumber(d), k);
  }

  /** A valid date is its month's first day moved forward by day - 1 days. */
  lemma FromFirstOfMonth(d: Date)
    requires Valid(d)
    ensures AddDays(Date(d.year, d.month, 1), d.day - 1) == d
  {
    AddDaysNumber(Date(d.year, d.month, 1), d.day - 1);
    DayNumberInjective(AddDays(Date(d.year, d.month, 1), d.day - 1), d);
  }
}

/** The date window of the dashboard's order query: the calendar days a
    daily, weekly or monthly request covers, derived from a reference date
    the way the route derives them with local-time Date arithmetic, and
    written back as UTC dates. */
module DashboardWindow {
  import opened CivilDate
  import opened JsDates

  // ---------------------------------------------------------------------------
  // The window on local calendar dates

  /** `dates.getDay() === 0 ? 7 : dates.getDay()`. */
  function WeekdayNumber(d: Date): int
    requires Valid(d)
  {
    if JsGetDay(d) == 0 then 7 else JsGetDay(d)
  }

  /** The Monday of d's week: setDate(getDate() - (weekday - 1)). */
  function WeekStart(d: Date): (r: Date)
    requires Valid(d)
    ensures Valid(r)
  {
    WithDayOfMonth(d, d.day - (WeekdayNumber(d) - 1))
  }

  /** Six days after the Monday: setDate(monday.getDate() + 6). */
  function WeekEnd(d: Date): (r: Date)
    requires Valid(d)
    ensures Valid(r)
  {
    var monday := WeekStart(d);
    WithDayOfMonth(monday, monday.day + 6)
  }

  /** `new Date(getFullYear(), getMonth(), 2)`. */
  function MonthStart(d: Date): (r: Date)
    requires Valid(d)
    ensures Valid(r)
  {
    MakeDate(d.year, d.month - 1, 2)
  }

  /** `new Date(getFullYear(), getMonth() + 1, 1)`. */
  function MonthEnd(d: Date): (r: Date)
    requires Valid(d)
    ensures Valid(r)
  {
    MakeDate(d.year, d.month - 1 + 1, 1)
  }

  /** The route's weekday number is ISO's: 1..7 with Sunday as 7, never 0. */
  lemma WeekdayNumberIsIso(d: Date)
    requires Valid(d)
    ensures WeekdayNumber(d) == IsoWeekday(d)
    ensures 1 <= WeekdayNumber(d) <= 7
    ensures WeekdayNumber(d) == 7 <==> JsGetDay(d) == 0
  {
    IsoWeekdayFromJsGetDay(d);
  }

  lemma MondayNumber(n: int)
    ensures (n - n % 7) % 7 == 0
    ensures (n - n % 7 + 6) % 7 == 6
  {
    assert n - n % 7 == 7 * (n / 7);
  }

  /** The week starts on the Monday on or before the reference date. */
  lemma WeekStartIsMonday(d: Date)
    requires Valid(d)
    ensures DayNumber(WeekStart(d)) == DayNumber(d) - (IsoWeekday(d) - 1)
    ensures IsoWeekday(WeekStart(d)) == 1
    ensures 0 <= DayNumber(d) - DayNumber(WeekStart(d)) <= 6
  {
    WeekStartNumber(d);
    IsoWeekdayFromJsGetDay(d);
    WeekStartWeekday(d);
  }

  lemma WeekStartWeekday(d: Date)
    requires Valid(d)
    ensures IsoWeekday(WeekStart(d)) == 1
  {
    var n := DayNumber(d);
    WeekStartNumber(d);
    assert DayNumber(WeekStart(d)) == n - n % 7;
    MondayNumber(n);
  }

  lemma WeekStartNumber(d: Date)
    requires Valid(d)
    ensures DayNumber(WeekStart(d)) == DayNumber(d) - (IsoWeekday(d) - 1)
  {
    WeekdayNumberIsIso(d);
    WithDayOfMonthNumber(d, d.day - (IsoWeekday(d) - 1));
  }

  lemma WeekEndNumber(d: Date)
    requires Valid(d)
    ensures DayNumber(WeekEnd(d)) == DayNumber(WeekStart(d)) + 6
  {
    var monday := WeekStart(d);
    WithDayOfMonthNumber(monday, monday.day + 6);
  }

  /** The week ends six days after its Monday, on a Sunday. */
  lemma WeekEndIsSunday(d: Date)
    requires Valid(d)
    ensures DayNumber(WeekEnd(d)) == DayNumber(WeekStart(d)) + 6
    ensures IsoWeekday(WeekEnd(d)) == 7
  {
    var n := DayNumber(d);
    WeekStartIsMonday(d);
    WeekEndNumber(d);
    MondayNumber(n);
  }

  /** The reference date lies in its week: start <= date <= end in calendar order. */
  lemma WeekContainsDate(d: Date)
    requires Valid(d)
    ensures !Before(d, WeekStart(d)) && !Before(WeekEnd(d), d)
    ensures Before(WeekStart(d), WeekEnd(d))
  {
    WeekStartIsMonday(d);
    WeekEndIsSunday(d);
    BeforeIffDayNumberLess(d, WeekStart(d));
    BeforeIffDayNumberLess(WeekEnd(d), d);
    BeforeIffDayNumberLess(WeekStart(d), WeekEnd(d));
  }

  /** The monthly window runs from day 2 of the month to day 1 of the next
      month, December rolling into January of the next year (for years the
      Date constructor does not read as 19xx). */
  lemma MonthWindowBounds(d: Date)
    requires Valid(d) && !(0 <= d.year <= 99)
    ensures MonthStart(d) == Date(d.year, d.month, 2)
    ensures MonthEnd(d) == if d.month == 12 then Date(d.year + 1, 1, 1) else Date(d.year, d.month + 1, 1)
    ensures Before(MonthStart(d), MonthEnd(d))
  {
    var first := Date(d.year, d.month, 1);
    assert AddDays(first, 1) == AddDays(NextDay(first), 0);
  }

  /** The monthly window spans the month's length minus one day. */
  lemma MonthWindowLength(d: Date)
    requires Valid(d) && !(0 <= d.year <= 99)
    ensures DayNumber(MonthEnd(d)) - DayNumber(MonthStart(d)) == DaysInMonth(d.year, d.month) - 1
  {
    MonthWindowBounds(d);
    if d.month == 12 {
      YearLength(d.year);
    }
  }

  /** For years 0..99 the Date constructor reads the year as 19yy, so the
      monthly window lies in the twentieth century: day 2 of the month to day 1
      of the next, December rolling into January of 19yy + 1. */
  lemma TwoDigitYearWindow(d: Date)
    requires Valid(d) && 0 <= d.year <= 99
    ensures MonthStart(d) == Date(1900 + d.year, d.month, 2)
    ensures MonthEnd(d) == if d.month == 12 then Date(1901 + d.year, 1, 1) else Date(1900 + d.year, d.month + 1, 1)
    ensures DayNumber(MonthEnd(d)) - DayNumber(MonthStart(d)) == DaysInMonth(1900 + d.year, d.month) - 1
  {
    var first := Date(1900 + d.year, d.month, 1);
    assert MonthStart(d) == MonthStart(first) && MonthEnd(d) == MonthEnd(first);
    MonthWindowBounds(first);
    MonthWindowLength(first);
  }

  // ---------------------------------------------------------------------------
  // The window the route writes, for a zone offset

  /** The first and the last date of the view range. */
  datatype Window = Window(first: Date, last: Date)

  /** The weekly keys for reference date d (read as UTC midnight): the Monday
      and the Sunday of the local date's week, at the local time of day of
      that midnight, written as UTC dates. */
  function WeekKeys(d: Date, zone: int): (w: Window)
    requires Valid(d)
    ensures Valid(w.first) && Valid(w.last)
  {
    var t := UtcMidnight(d);
    var local := LocalDate(t, zone);
    var minute := LocalMinute(t, zone);
    Window(UtcDateAt(WeekStart(local), minute, zone), UtcDateAt(WeekEnd(local), minute, zone))
  }

  /** The monthly keys for reference date d: local midnight of day 2 of the
      local date's month and of day 1 of the next month, written as UTC dates. */
  function MonthKeys(d: Date, zone: int): (w: Window)
    requires Valid(d)
    ensures Valid(w.first) && Valid(w.last)
  {
    var local := LocalDate(UtcMidnight(d), zone);
    Window(UtcDate(LocalMidnight(MonthStart(local), zone)), UtcDate(LocalMidnight(MonthEnd(local), zone)))
  }

  lemma MonthKeysByInstants(d: Date, zone: int, first: int, last: int)
    requires Valid(d)
    requires first == LocalMidnight(MakeDate(LocalDate(UtcMidnight(d), zone).year, LocalDate(UtcMidnight(d), zone).month - 1, 2), zone)
    requires last == LocalMidnight(MakeDate(LocalDate(UtcMidnight(d), zone).year, LocalDate(UtcMidnight(d), zone).month - 1 + 1, 1), zone)
    ensures UtcDate(first) == MonthKeys(d, zone).first
    ensures UtcDate(last) == MonthKeys(d, zone).last
  {
    var local := LocalDate(UtcMidnight(d), zone);
    assert MonthStart(local) == MakeDate(local.year, local.month - 1, 2);
    assert MonthEnd(local) == MakeDate(local.year, local.month - 1 + 1, 1);
  }

  /** Proof helper: unfolds WeekEnd as the `setDate` on the Monday. */
  lemma WeekEndBySetDate(d: Date)
    requires Valid(d)
    ensures WeekEnd(d) == WithDayOfMonth(WeekStart(d), WeekStart(d).day + 6)
  {
  }

  /** The instants the route moves its Date copies to: setDate on the
      reference instant to the Monday, then on that to six days later; their
      UTC dates are the weekly keys. */
  lemma WeekKeysByInstants(d: Date, zone: int, monday: int, sunday: int)
    requires Valid(d)
    requires monday == SetDateInstant(UtcMidnight(d), LocalDate(UtcMidnight(d), zone).day
                                        - (WeekdayNumber(LocalDate(UtcMidnight(d), zone)) - 1), zone)
    requires sunday == SetDateInstant(monday, LocalDate(monday, zone).day + 6, zone)
    ensures UtcDate(monday) == WeekKeys(d, zone).first
    ensures UtcDate(sunday) == WeekKeys(d, zone).last
  {
    MondayInstant(d, zone, monday);
    SundayInstant(d, zone, monday, sunday);
  }

  lemma MondayInstant(d: Date, zone: int, monday: int)
    requires Valid(d)
    requires monday == SetDateInstant(UtcMidnight(d), LocalDate(UtcMidnight(d), zone).day
                                        - (WeekdayNumber(LocalDate(UtcMidnight(d), zone)) - 1), zone)
    ensures LocalDate(monday, zone) == WeekStart(LocalDate(UtcMidnight(d), zone))
    ensures LocalMinute(monday, zone) == LocalMinute(UtcMidnight(d), zone)
    ensures UtcDate(monday) == WeekKeys(d, zone).first
  {
    var t := UtcMidnight(d);
    var local := LocalDate(t, zone);
    SetDateTo(t, local.day - (WeekdayNumber(local) - 1), zone, WeekStart(local));
    WeekKeysAt(d, zone);
  }

  lemma SundayInstant(d: Date, zone: int, monday: int, sunday: int)
    requires Valid(d)
    requires LocalDate(monday, zone) == WeekStart(LocalDate(UtcMidnight(d), zone))
    requires LocalMinute(monday, zone) == LocalMinute(UtcMidnight(d), zone)
    requires sunday == SetDateInstant(monday, LocalDate(monday, zone).day + 6, zone)
    ensures UtcDate(sunday) == WeekKeys(d, zone).last
  {
    var local := LocalDate(UtcMidnight(d), zone);
    WeekEndBySetDate(local);
    SetDateTo(monday, LocalDate(monday, zone).day + 6, zone, WeekEnd(local));
    WeekKeysAt(d, zone);
  }

  /** Proof helper: unfolds WeekKeys at the local reading of the parsed
      instant. */
  lemma WeekKeysAt(d: Date, zone: int)
    requires Valid(d)
    ensures var local := LocalDate(UtcMidnight(d), zone);
      var minute := LocalMinute(UtcMidnight(d), zone);
      WeekKeys(d, zone) == Window(UtcDateAt(WeekStart(local), minute, zone), UtcDateAt(WeekEnd(local), minute, zone))
  {
  }

  /** At or east of UTC the weekly keys are the Monday and the Sunday of d's own week. */
  lemma WeekKeysAtOrEastOfUtc(d: Date, zone: int)
    requires Valid(d) && 0 <= zone < MinutesPerDay
    ensures WeekKeys(d, zone) == Window(WeekStart(d), WeekEnd(d))
  {
    LocalOfUtcMidnight(d, zone);
    UtcDateAtMidnightMinute(WeekStart(d), zone);
    UtcDateAtMidnightMinute(WeekEnd(d), zone);
  }

  /** West of UTC the reference date is read as the evening before and the
      keys come out one day late: the Tuesday after the previous day's Monday
      through the Monday after its Sunday. */
  lemma WeekKeysWestOfUtc(d: Date, zone: int)
    requires Valid(d) && -MinutesPerDay < zone < 0
    ensures WeekKeys(d, zone) == Window(NextDay(WeekStart(PrevDay(d))), NextDay(WeekEnd(PrevDay(d))))
    ensures IsoWeekday(WeekKeys(d, zone).first) == 2
    ensures IsoWeekday(WeekKeys(d, zone).last) == 1
  {
    var p := PrevDay(d);
    WestKeys(d, zone);
    WeekStartIsMonday(p);
    WeekEndIsSunday(p);
    NextWeekday(WeekStart(p));
    NextWeekday(WeekEnd(p));
  }

  lemma WestKeys(d: Date, zone: int)
    requires Valid(d) && -MinutesPerDay < zone < 0
    ensures WeekKeys(d, zone) == Window(NextDay(WeekStart(PrevDay(d))), NextDay(WeekEnd(PrevDay(d))))
  {
    var p := PrevDay(d);
    LocalOfUtcMidnight(d, zone);
    UtcDateAtMidnightMinute(WeekStart(p), zone);
    UtcDateAtMidnightMinute(WeekEnd(p), zone);
  }

  lemma NextWeekday(d: Date)
    requires Valid(d)
    ensures IsoWeekday(NextDay(d)) == IsoWeekday(d) % 7 + 1
  {
    NextDayNumber(d);
    ModSevenShift(DayNumber(d));
  }

  /** For every fixed zone offset the weekly keys span seven days that include the reference date. */
  lemma {:induction false} WeekKeysContainDate(d: Date, zone: int)
    requires Valid(d) && ValidZone(zone)
    ensures DayNumber(WeekKeys(d, zone).last) == DayNumber(WeekKeys(d, zone).first) + 6
    ensures !Before(d, WeekKeys(d, zone).first) && !Before(WeekKeys(d, zone).last, d)
  {
    var w := WeekKeys(d, zone);
    if zone >= 0 {
      WeekKeysAtOrEastOfUtc(d, zone);
      WeekContainsDate(d);
      WeekEndIsSunday(d);
    } else {
      var p := PrevDay(d);
      WeekKeysWestOfUtc(d, zone);
      WeekStartIsMonday(p);
      WeekEndIsSunday(p);
      NextDayNumber(WeekStart(p));
      NextDayNumber(WeekEnd(p));
      PrevDayNumber(d);
      BeforeIffDayNumberLess(d, w.first);
      BeforeIffDayNumberLess(w.last, d);
    }
  }

  /** In UTC the monthly keys run from day 2 of the month to day 1 of the next. */
  lemma MonthKeysInUtc(d: Date)
    requires Valid(d) && !(0 <= d.year <= 99)
    ensures MonthKeys(d, 0) == Window(MonthStart(d), MonthEnd(d))
    ensures MonthStart(d) == Date(d.year, d.month, 2)
  {
    LocalOfUtcMidnight(d, 0);
    UtcOfLocalMidnight(MonthStart(d), 0);
    UtcOfLocalMidnight(MonthEnd(d), 0);
    MonthWindowBounds(d);
  }

  /** East of UTC local midnight is the previous UTC day, so the monthly keys
      are exactly the first and the last day of the reference date's month. */
  lemma MonthKeysEastOfUtc(d: Date, zone: int)
    requires Valid(d) && 0 < zone < MinutesPerDay && !(0 <= d.year <= 99)
    ensures MonthKeys(d, zone) == Window(Date(d.year, d.month, 1), Date(d.year, d.month, DaysInMonth(d.year, d.month)))
  {
    LocalOfUtcMidnight(d, zone);
    UtcOfLocalMidnight(MonthStart(d), zone);
    UtcOfLocalMidnight(MonthEnd(d), zone);
    MonthWindowBounds(d);
  }

  /** West of UTC the month is that of the previous day (the 1st reads as the
      last day of the month before), from its day 2 to day 1 of the next month. */
  lemma MonthKeysWestOfUtc(d: Date, zone: int)
    requires Valid(d) && -MinutesPerDay < zone < 0 && !(0 <= PrevDay(d).year <= 99)
    ensures MonthKeys(d, zone) == Window(MonthStart(PrevDay(d)), MonthEnd(PrevDay(d)))
    ensures MonthStart(PrevDay(d)) == Date(PrevDay(d).year, PrevDay(d).month, 2)
  {
    var p := PrevDay(d);
    LocalOfUtcMidnight(d, zone);
    UtcOfLocalMidnight(MonthStart(p), zone);
    UtcOfLocalMidnight(MonthEnd(p), zone);
    MonthWindowBounds(p);
  }

  // ---------------------------------------------------------------------------
  // Worked examples

  /** Sunday 2025-11-02 has weekday number 7, giving 2025-10-27 .. 2025-11-02. */
  lemma SundayExample()
    ensures WeekdayNumber(Date(2025, 11, 2)) == 7
    ensures WeekStart(Date(2025, 11, 2)) == Date(2025, 10, 27)
    ensures WeekEnd(Date(2025, 11, 2)) == Date(2025, 11, 2)
  {
    var d := Date(2025, 11, 2);
    assert DayNumber(d) == 739556;
    WeekdayNumberIsIso(d);
    WeekStartIsMonday(d);
    WeekEndIsSunday(d);
    assert DayNumber(Date(2025, 10, 27)) == 739550;
    DayNumberInjective(WeekStart(d), Date(2025, 10, 27));
    DayNumberInjective(WeekEnd(d), d);
  }

  lemma NewYearDayNumbers()
    ensures DayNumber(Date(2025, 1, 1)) == 739251
    ensures DayNumber(Date(2024, 12, 30)) == 739249
    ensures DayNumber(Date(2025, 1, 5)) == 739255
  {
  }

  /** The window of d is (monday, sunday) once their day counts are known. */
  lemma WeekFromDayNumbers(d: Date, monday: Date, sunday: Date)
    requires Valid(d) && Valid(monday) && Valid(sunday)
    requires DayNumber(monday) == DayNumber(d) - (IsoWeekday(d) - 1)
    requires DayNumber(sunday) == DayNumber(monday) + 6
    ensures WeekStart(d) == monday && WeekEnd(d) == sunday
  {
    WeekStartIsMonday(d);
    DayNumberInjective(WeekStart(d), monday);
    WeekEndNumber(d);
    DayNumberInjective(WeekEnd(d), sunday);
  }

  /** Wednesday 2025-01-01 gives 2024-12-30 .. 2025-01-05, across the year end. */
  lemma NewYearExample()
    ensures WeekStart(Date(2025, 1, 1)) == Date(2024, 12, 30)
    ensures WeekEnd(Date(2025, 1, 1)) == Date(2025, 1, 5)
  {
    NewYearDayNumbers();
    WeekFromDayNumbers(Date(2025, 1, 1), Date(2024, 12, 30), Date(2025, 1, 5));
  }

  /** Reading "0050-03-15" gives year 50, which the Date constructor reads as 1950. */
  lemma TwoDigitYearExample()
    ensures MonthStart(Date(50, 3, 15)) == Date(1950, 3, 2)
    ensures MonthEnd(Date(50, 3, 15)) == Date(1950, 4, 1)
  {
    assert AddDays(Date(1950, 3, 1), 1) == AddDays(NextDay(Date(1950, 3, 1)), 0);
  }

  /** Western Indonesian Time (UTC+7): Sunday 2025-11-02 still gives 2025-10-27 .. 2025-11-02. */
  lemma SundayExampleUtcPlus7()
    ensures WeekKeys(Date(2025, 11, 2), 420) == Window(Date(2025, 10, 27), Date(2025, 11, 2))
  {
    SundayExample();
    WeekKeysAtOrEastOfUtc(Date(2025, 11, 2), 420);
  }

  /** UTC+7: a date in November 2025 gives exactly 2025-11-01 .. 2025-11-30. */
  lemma NovemberExampleUtcPlus7()
    ensures MonthKeys(Date(2025, 11, 15), 420) == Window(Date(2025, 11, 1), Date(2025, 11, 30))
  {
    MonthKeysEastOfUtc(Date(2025, 11, 15), 420);
  }

  /** UTC: the same request gives 2025-11-02 .. 2025-12-01. */
  lemma NovemberExampleUtc()
    ensures MonthKeys(Date(2025, 11, 15), 0) == Window(Date(2025, 11, 2), Date(2025, 12, 1))
  {
    MonthKeysInUtc(Date(2025, 11, 15));
    MonthWindowBounds(Date(2025, 11, 15));
  }
}

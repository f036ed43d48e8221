/** ISO 8601 extended calendar dates (YYYY-MM-DD, section 4.1.2.2 of ISO
    8601:2004) as Date.prototype.toISOString writes the date part, and the
    Date constructor's reading of the date-only forms YYYY, YYYY-MM and YYYY-MM-DD. */
module IsoDate {
  import opened Text
  import opened Outcomes
  import opened CivilDate

  /** The year field: four digits for 0000..9999, otherwise a sign and at
      least six digits (the expanded representation toISOString uses). */
  function YearField(y: int): (r: string)
    ensures 0 <= y <= 9999 ==> |r| == 4
  {
    if 0 <= y <= 9999 then Pad4(y)
    else if y < 0 then "-" + Pad6(-y)
    else "+" + Pad6(y)
  }

  /** The date part of toISOString: "YYYY-MM-DD". */
  function Format(d: Date): (r: string)
    requires Valid(d)
    ensures 0 <= d.year <= 9999 ==> |r| == 10 && r[4] == '-' && r[7] == '-'
  {
    YearField(d.year) + "-" + Pad2(d.month) + "-" + Pad2(d.day)
  }

  /** "YYYY": four digits. */
  predicate YearOnly(s: string) {
    |s| == 4 && IsDigit(s[0]) && IsDigit(s[1]) && IsDigit(s[2]) && IsDigit(s[3])
  }

  /** "YYYY-MM": four digits, a dash and two digits. */
  predicate YearMonth(s: string) {
    |s| == 7 && s[4] == '-'
    && IsDigit(s[0]) && IsDigit(s[1]) && IsDigit(s[2]) && IsDigit(s[3])
    && IsDigit(s[5]) && IsDigit(s[6])
  }

  /** "YYYY-MM-DD": four digits, a dash, two digits, a dash and two digits. */
  predicate WellFormed(s: string) {
    |s| == 10 && s[4] == '-' && s[7] == '-'
    && IsDigit(s[0]) && IsDigit(s[1]) && IsDigit(s[2]) && IsDigit(s[3])
    && IsDigit(s[5]) && IsDigit(s[6]) && IsDigit(s[8]) && IsDigit(s[9])
  }

  /** The year, month and day fields of "YYYY-MM-DD", not yet checked
      against the calendar. */
  function Fields(s: string): Date
    requires WellFormed(s)
  {
    Date(Parse4(s[..4]), Parse2(s[5..7]), Parse2(s[8..10]))
  }

  /** Day `day` (1..31) of month m: a day past the end of the month is
      carried into the next month, as V8 does for "2025-02-30". December
      has 31 days, so the carry never leaves the year. */
  function DayOfMonth(y: int, m: int, day: int): (r: Date)
    requires 1 <= m <= 12 && 1 <= day <= 31
    ensures Valid(r) && r.year == y
  {
    if day <= DaysInMonth(y, m) then Date(y, m, day)
    else Date(y, m + 1, day - DaysInMonth(y, m))
  }

  /** `new Date(s)` for the date-only forms of the ECMAScript date time
      string format of ECMA-262: "YYYY", "YYYY-MM" and
      "YYYY-MM-DD", each read as UTC midnight, with a missing month or day
      taken as 01. The month must be 01..12 and the day 01..31; any other
      string is None ("Invalid Date"). Date-times, expanded years and the
      engine's legacy formats are not read here. */
  function Parse(s: string): (r: Option<Date>)
    ensures r.Some? ==> Valid(r.value) && 0 <= r.value.year <= 9999
  {
    if YearOnly(s) then
      Parse4RoundTrip(s[..4]);
      Some(Date(Parse4(s[..4]), 1, 1))
    else if YearMonth(s) then
      var m := Parse2(s[5..7]);
      Parse4RoundTrip(s[..4]);
      if 1 <= m <= 12 then Some(Date(Parse4(s[..4]), m, 1)) else None
    else if WellFormed(s) then
      var f := Fields(s);
      Parse4RoundTrip(s[..4]);
      if 1 <= f.month <= 12 && 1 <= f.day <= 31 then Some(DayOfMonth(f.year, f.month, f.day)) else None
    else None
  }

  /** Formatting a date with a four-digit year and reading it back gives the date. */
  lemma FormatThenParse(d: Date)
    requires Valid(d) && 0 <= d.year <= 9999
    ensures Parse(Format(d)) == Some(d)
  {
    var s := Format(d);
    assert s[..4] == Pad4(d.year);
    assert s[5..7] == Pad2(d.month);
    assert s[8..10] == Pad2(d.day);
    Pad4RoundTrip(d.year);
    Pad2RoundTrip(d.month);
    Pad2RoundTrip(d.day);
  }

  /** A "YYYY-MM-DD" string naming a real calendar day reads as that day,
      and formatting it gives the string back. */
  lemma ParseThenFormat(s: string)
    requires WellFormed(s) && Valid(Fields(s))
    ensures Parse(s) == Some(Fields(s))
    ensures Format(Parse(s).value) == s
  {
    Parse4RoundTrip(s[..4]);
    Parse2RoundTrip(s[5..7]);
    Parse2RoundTrip(s[8..10]);
    assert s == s[..4] + "-" + s[5..7] + "-" + s[8..10];
  }

  /** Carrying a day past the month's end agrees with the day arithmetic of
      `new Date(y, m, day)`: day `day` is `day - 1` days after the first. */
  lemma DayOfMonthIsMakeDay(y: int, m: int, day: int)
    requires 1 <= m <= 12 && 1 <= day <= 31
    ensures DayOfMonth(y, m, day) == AddDays(Date(y, m, 1), day - 1)
  {
    AddDaysNumber(Date(y, m, 1), day - 1);
    DayNumberInjective(DayOfMonth(y, m, day), AddDays(Date(y, m, 1), day - 1));
  }

  /** Every "YYYY-MM-DD" string that reads as a date reads as the first of
      its month moved forward by the day field less one. */
  lemma ParseDayRollsOver(s: string)
    requires WellFormed(s) && Parse(s).Some?
    ensures Parse(s).value == AddDays(Date(Fields(s).year, Fields(s).month, 1), Fields(s).day - 1)
  {
    DayOfMonthIsMakeDay(Fields(s).year, Fields(s).month, Fields(s).day);
  }

  /** The forms the route is given: a month alone reads as its first day,
      a year alone as 1 January, a day past the end of the month rolls
      over, and a month or day out of range is Invalid Date. */
  lemma ParseExamples()
    ensures Parse("2025-11") == Some(Date(2025, 11, 1))
    ensures Parse("2025") == Some(Date(2025, 1, 1))
    ensures Parse("2025-02-30") == Some(Date(2025, 3, 2))
    ensures Parse("2025-11-02") == Some(Date(2025, 11, 2))
    ensures Parse("2025-13-01").None? && Parse("2025-11-00").None? && Parse("").None?
  {
  }
}

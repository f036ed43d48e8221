/** JavaScript Date objects as the routes use them: an instant (counted here
    in minutes from 0001-01-01T00:00Z) read and moved through the local
    calendar of a fixed zone offset, and written back in UTC by toISOString.
    The zone offset is a parameter: local time = UTC + zone minutes. */
module JsDates {
  import opened CivilDate

  const MinutesPerDay := 1440

  /** Real zone offsets lie strictly within one day of UTC. */
  predicate ValidZone(zone: int) {
    -MinutesPerDay < zone < MinutesPerDay
  }

  /** The date with day count n. */
  function DateOfDay(n: int): (r: Date)
    ensures Valid(r) && DayNumber(r) == n
  {
    AddDaysNumber(Date(1, 1, 1), n);
    AddDays(Date(1, 1, 1), n)
  }

  /** The local calendar date of instant t. */
  function LocalDate(t: int, zone: int): (r: Date)
    ensures Valid(r)
  {
    DateOfDay((t + zone) / MinutesPerDay)
  }

  /** The local time of day of instant t, in minutes after midnight. */
  function LocalMinute(t: int, zone: int): (r: int)
    ensures 0 <= r < MinutesPerDay
  {
    (t + zone) % MinutesPerDay
  }

  /** The UTC calendar date of instant t: the date part of toISOString. */
  function UtcDate(t: int): (r: Date)
    ensures Valid(r)
  {
    DateOfDay(t / MinutesPerDay)
  }

  /** The instant of UTC midnight on d: what `new Date("YYYY-MM-DD")` holds. */
  function UtcMidnight(d: Date): int
    requires Valid(d)
  {
    DayNumber(d) * MinutesPerDay
  }

  /** The instant of local midnight on d: what `new Date(y, m, day)` holds. */
  function LocalMidnight(d: Date, zone: int): int
    requires Valid(d)
  {
    DayNumber(d) * MinutesPerDay - zone
  }

  /** The UTC date of local time `minute` on local day d. */
  function UtcDateAt(d: Date, minute: int, zone: int): (r: Date)
    requires Valid(d)
    ensures Valid(r)
  {
    UtcDate(DayNumber(d) * MinutesPerDay + minute - zone)
  }

  /** `setDate(n)`: day n of the date's month, rolling into neighbouring
      months (and years) when n is outside the month. */
  function WithDayOfMonth(d: Date, n: int): (r: Date)
    requires Valid(d)
    ensures Valid(r)
  {
    AddDays(Date(d.year, d.month, 1), n - 1)
  }

  /** The calendar of `new Date(y, monthIndex, day)`: the month index counts
      from 0 and rolls over into the year; a year 0..99 means 1900..1999. */
  function MakeDate(y: int, monthIndex: int, day: int): (r: Date)
    ensures Valid(r)
  {
    var fullYear := if 0 <= y <= 99 then 1900 + y else y;
    AddDays(Date(fullYear + monthIndex / 12, monthIndex % 12 + 1, 1), day - 1)
  }

  /** The instant after `setDate(n)` on instant t: the local date becomes day n
      of its month and the local time of day stays. */
  function SetDateInstant(t: int, n: int, zone: int): int {
    DayNumber(WithDayOfMonth(LocalDate(t, zone), n)) * MinutesPerDay + LocalMinute(t, zone) - zone
  }

  // ---------------------------------------------------------------------------
  // Lemmas

  lemma DivMinutes(n: int, r: int)
    requires 0 <= r < MinutesPerDay
    ensures (n * MinutesPerDay + r) / MinutesPerDay == n
    ensures (n * MinutesPerDay + r) % MinutesPerDay == r
  {
  }

  /** DateOfDay inverts the day count. */
  lemma DateOfDayNumber(d: Date)
    requires Valid(d)
    ensures DateOfDay(DayNumber(d)) == d
  {
    DayNumberInjective(DateOfDay(DayNumber(d)), d);
  }

  /** An instant is its local date and local time of day, shifted back by the zone. */
  lemma InstantFromLocal(t: int, zone: int)
    ensures t == DayNumber(LocalDate(t, zone)) * MinutesPerDay + LocalMinute(t, zone) - zone
  {
  }

  /** Local midnight on d reads back as d at minute 0. */
  lemma LocalOfLocalMidnight(d: Date, zone: int)
    requires Valid(d)
    ensures LocalDate(LocalMidnight(d, zone), zone) == d
    ensures LocalMinute(LocalMidnight(d, zone), zone) == 0
  {
    DivMinutes(DayNumber(d), 0);
    DateOfDayNumber(d);
  }

  /** UTC midnight on d, seen in local time: the same date at minute `zone`
      east of UTC, the day before at minute 1440 + zone west of UTC. */
  lemma LocalOfUtcMidnight(d: Date, zone: int)
    requires Valid(d) && ValidZone(zone)
    ensures zone >= 0 ==> LocalDate(UtcMidnight(d), zone) == d && LocalMinute(UtcMidnight(d), zone) == zone
    ensures zone < 0 ==>
              LocalDate(UtcMidnight(d), zone) == PrevDay(d) && LocalMinute(UtcMidnight(d), zone) == MinutesPerDay + zone
  {
    var n := DayNumber(d);
    if zone >= 0 {
      DivMinutes(n, zone);
      DateOfDayNumber(d);
    } else {
      var p := PrevDay(d);
      PrevDayNumber(d);
      var m := DayNumber(p);
      assert UtcMidnight(d) + zone == m * MinutesPerDay + (MinutesPerDay + zone);
      DivMinutes(m, MinutesPerDay + zone);
      DateOfDayNumber(p);
    }
  }

  /** Local midnight on d, written in UTC: d itself at or west of UTC, the day
      before east of UTC. */
  lemma UtcOfLocalMidnight(d: Date, zone: int)
    requires Valid(d) && ValidZone(zone)
    ensures zone <= 0 ==> UtcDate(LocalMidnight(d, zone)) == d
    ensures zone > 0 ==> UtcDate(LocalMidnight(d, zone)) == PrevDay(d)
  {
    if zone <= 0 {
      UtcOfLocalMidnightWest(d, zone);
    } else {
      UtcOfLocalMidnightEast(d, zone);
    }
  }

  lemma UtcOfLocalMidnightWest(d: Date, zone: int)
    requires Valid(d) && -MinutesPerDay < zone <= 0
    ensures UtcDate(LocalMidnight(d, zone)) == d
  {
    var n := DayNumber(d);
    assert LocalMidnight(d, zone) == n * MinutesPerDay + (-zone);
    DivMinutes(n, -zone);
    DateOfDayNumber(d);
  }

  lemma UtcOfLocalMidnightEast(d: Date, zone: int)
    requires Valid(d) && 0 < zone < MinutesPerDay
    ensures UtcDate(LocalMidnight(d, zone)) == PrevDay(d)
  {
    var p := PrevDay(d);
    PrevDayNumber(d);
    var m := DayNumber(p);
    assert LocalMidnight(d, zone) == m * MinutesPerDay + (MinutesPerDay - zone);
    DivMinutes(m, MinutesPerDay - zone);
    DateOfDayNumber(p);
  }

  /** The UTC date of local day d at the time of day UTC midnight has locally:
      d itself east of (or at) UTC, the next day west of UTC. */
  lemma UtcDateAtMidnightMinute(d: Date, zone: int)
    requires Valid(d) && ValidZone(zone)
    ensures zone >= 0 ==> UtcDateAt(d, zone, zone) == d
    ensures zone < 0 ==> UtcDateAt(d, MinutesPerDay + zone, zone) == NextDay(d)
  {
    if zone >= 0 {
      UtcDateAtMidnightMinuteEast(d, zone);
    } else {
      UtcDateAtMidnightMinuteWest(d, zone);
    }
  }

  lemma UtcDateAtMidnightMinuteEast(d: Date, zone: int)
    requires Valid(d) && 0 <= zone
    ensures UtcDateAt(d, zone, zone) == d
  {
    var n := DayNumber(d);
    assert UtcDateAt(d, zone, zone) == UtcDate(n * MinutesPerDay + 0);
    DivMinutes(n, 0);
    DateOfDayNumber(d);
  }

  lemma UtcDateAtMidnightMinuteWest(d: Date, zone: int)
    requires Valid(d)
    ensures UtcDateAt(d, MinutesPerDay + zone, zone) == NextDay(d)
  {
    var n := DayNumber(d);
    assert UtcDateAt(d, MinutesPerDay + zone, zone) == UtcDate((n + 1) * MinutesPerDay + 0);
    DivMinutes(n + 1, 0);
    NextDayNumber(d);
    DateOfDayNumber(NextDay(d));
  }

  /** The UTC date of an instant, read from its local date and time of day. */
  lemma UtcDateFromLocal(t: int, zone: int, d: Date, minute: int)
    requires LocalDate(t, zone) == d && LocalMinute(t, zone) == minute
    ensures UtcDate(t) == UtcDateAt(d, minute, zone)
  {
    InstantFromLocal(t, zone);
  }

  /** setDate moves the local date to day n of its month and keeps the local time of day. */
  lemma SetDateLocal(t: int, n: int, zone: int)
    ensures LocalDate(SetDateInstant(t, n, zone), zone) == WithDayOfMonth(LocalDate(t, zone), n)
    ensures LocalMinute(SetDateInstant(t, n, zone), zone) == LocalMinute(t, zone)
  {
    var w := WithDayOfMonth(LocalDate(t, zone), n);
    DivMinutes(DayNumber(w), LocalMinute(t, zone));
    DateOfDayNumber(w);
  }

  /** setDate(n) on instant t, when day n of t's local month is `target`:
      the local date becomes target at the same local time, and the UTC date
      is the one of that local time. */
  lemma SetDateTo(t: int, n: int, zone: int, target: Date)
    requires WithDayOfMonth(LocalDate(t, zone), n) == target
    ensures LocalDate(SetDateInstant(t, n, zone), zone) == target
    ensures LocalMinute(SetDateInstant(t, n, zone), zone) == LocalMinute(t, zone)
    ensures UtcDate(SetDateInstant(t, n, zone)) == UtcDateAt(target, LocalMinute(t, zone), zone)
  {
    SetDateLocal(t, n, zone);
    UtcDateFromLocal(SetDateInstant(t, n, zone), zone, target, LocalMinute(t, zone));
  }

  /** day n of d's month has day count DayNumber(d) + (n - d.day). */
  lemma WithDayOfMonthNumber(d: Date, n: int)
    requires Valid(d)
    ensures DayNumber(WithDayOfMonth(d, n)) == DayNumber(d) + (n - d.day)
  {
    var first := Date(d.year, d.month, 1);
    assert DayNumber(first) == DayNumber(d) - (d.day - 1);
    AddDaysNumber(first, n - 1);
  }

  /** setDate with the current day of month changes nothing. */
  lemma WithSameDayOfMonth(d: Date)
    requires Valid(d)
    ensures WithDayOfMonth(d, d.day) == d
  {
    FromFirstOfMonth(d);
  }

  // ---------------------------------------------------------------------------
  // The mutable object

  /** A Date object: one instant, read through the local calendar. */
  class JsDate {
    var time: int

    /** `new Date("YYYY-MM-DD")`: a date-only ISO string is UTC midnight. */
    constructor AtUtcMidnight(d: Date)
      requires Valid(d)
      ensures time == UtcMidnight(d)
    {
      time := UtcMidnight(d);
    }

    /** `new Date(other)`: a copy of the same instant. */
    constructor Copy(other: JsDate)
      ensures time == other.time
    {
      time := other.time;
    }

    /** `new Date(y, monthIndex, day)`: local midnight of that calendar day. */
    constructor AtLocalMidnight(y: int, monthIndex: int, day: int, zone: int)
      ensures time == LocalMidnight(MakeDate(y, monthIndex, day), zone)
      ensures LocalDate(time, zone) == MakeDate(y, monthIndex, day)
    {
      time := LocalMidnight(MakeDate(y, monthIndex, day), zone);
      LocalOfLocalMidnight(MakeDate(y, monthIndex, day), zone);
    }

    /** getDay: 0 is Sunday .. 6 Saturday, in local time. */
    function GetDay(zone: int): (r: int)
      reads this
      ensures 0 <= r <= 6
    {
      JsGetDay(LocalDate(time, zone))
    }

    /** getDate: the local day of the month. */
    function GetDate(zone: int): (r: int)
      reads this
      ensures 1 <= r <= 31
    {
      LocalDate(time, zone).day
    }

    function GetFullYear(zone: int): int
      reads this
    {
      LocalDate(time, zone).year
    }

    /** getMonth counts months from 0. */
    function GetMonth(zone: int): (r: int)
      reads this
      ensures 0 <= r <= 11
    {
      LocalDate(time, zone).month - 1
    }

    /** setDate(n) in local time. */
    method SetDate(n: int, zone: int)
      modifies this
      ensures time == SetDateInstant(old(time), n, zone)
      ensures LocalDate(time, zone) == WithDayOfMonth(old(LocalDate(time, zone)), n)
      ensures LocalMinute(time, zone) == old(LocalMinute(time, zone))
    {
      SetDateLocal(time, n, zone);
      time := SetDateInstant(time, n, zone);
    }

    /** The date part of toISOString: the UTC date. */
    function IsoDatePart(): (r: Date)
      reads this
      ensures Valid(r)
    {
      UtcDate(time)
    }
  }
}

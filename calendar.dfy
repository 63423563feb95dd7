/** The proleptic Gregorian calendar behind JavaScript's `Date`, in local time with
    a zero offset and no daylight-saving shifts.

    A calendar day is a `Date` with a 0-based month, as `Date.prototype.getMonth`
    reports it. Days are counted from 1 January of year 0 (`DayNumber`), which makes
    weekdays and day differences plain integer arithmetic. */
module Calendar {
  import opened Js

  predicate Leap(y: int)
  {
    y % 4 == 0 && (y % 100 != 0 || y % 400 == 0)
  }

  /** Days in month `m` (0 = January) of year `y`. */
  function DaysInMonth(y: int, m: int): (n: int)
    requires 0 <= m < 12
    ensures 28 <= n <= 31
    ensures m == 1 ==> (n == 29 <==> Leap(y))
  {
    if m == 1 then (if Leap(y) then 29 else 28)
    else if m == 3 || m == 5 || m == 8 || m == 10 then 30
    else 31
  }

  /** Days of year `y` that lie before the first of month `m`. */
  function DaysBeforeMonth(y: int, m: int): int
    requires 0 <= m <= 12
  {
    [0, 31, 59, 90, 120, 151, 181, 212, 243, 273, 304, 334, 365][m]
      + (if m >= 2 && Leap(y) then 1 else 0)
  }

  lemma DaysBeforeNextMonth(y: int, m: int)
    requires 0 <= m < 12
    ensures DaysBeforeMonth(y, m + 1) == DaysBeforeMonth(y, m) + DaysInMonth(y, m)
  {
  }

  /** Days from 1 January of year 0 to 1 January of year `y`: 365 per year plus one
      per leap year in between (floor division keeps this right for negative years). */
  function DaysBeforeYear(y: int): int
  {
    365 * y + (y + 3) / 4 - (y + 99) / 100 + (y + 399) / 400
  }

  lemma DaysBeforeNextYear(y: int)
    ensures DaysBeforeYear(y + 1) == DaysBeforeYear(y) + DaysBeforeMonth(y, 12)
  {
    assert DaysBeforeMonth(y, 12) == 365 + (if Leap(y) then 1 else 0);
    CeilStep4(y);
    CeilStep100(y);
    CeilStep400(y);
    LeapCount(y);
    var a, b, c := (y + 3) / 4, (y + 99) / 100, (y + 399) / 400;
    assert DaysBeforeYear(y) == 365 * y + a - b + c;
    assert DaysBeforeYear(y + 1) == 365 * y + 365 + (y + 4) / 4 - (y + 100) / 100 + (y + 400) / 400;
  }

  /** The three corrections of the Gregorian rule add up to one day in a leap year. */
  lemma LeapCount(y: int)
    ensures (if y % 4 == 0 then 1 else 0) - (if y % 100 == 0 then 1 else 0) + (if y % 400 == 0 then 1 else 0)
            == (if Leap(y) then 1 else 0)
  {
    if y % 100 == 0 {
      var k := y / 100;
      assert y == 100 * k;
      assert y % 4 == 0 by {
        assert y == 4 * (25 * k);
      }
    }
  }

  lemma CeilStep4(y: int)
    ensures (y + 4) / 4 == (y + 3) / 4 + (if y % 4 == 0 then 1 else 0)
  {
    var q, r := y / 4, y % 4;
    assert y == 4 * q + r && 0 <= r < 4;
    assert (y + 4) / 4 == q + 1 + (r / 4);
    if r == 0 { assert (y + 3) / 4 == q; } else { assert (y + 3) / 4 == q + 1; }
  }

  lemma CeilStep100(y: int)
    ensures (y + 100) / 100 == (y + 99) / 100 + (if y % 100 == 0 then 1 else 0)
  {
    var q, r := y / 100, y % 100;
    assert y == 100 * q + r && 0 <= r < 100;
    if r == 0 { assert (y + 99) / 100 == q; } else { assert (y + 99) / 100 == q + 1; }
    assert (y + 100) / 100 == q + 1;
  }

  lemma CeilStep400(y: int)
    ensures (y + 400) / 400 == (y + 399) / 400 + (if y % 400 == 0 then 1 else 0)
  {
    var q, r := y / 400, y % 400;
    assert y == 400 * q + r && 0 <= r < 400;
    if r == 0 { assert (y + 399) / 400 == q; } else { assert (y + 399) / 400 == q + 1; }
    assert (y + 400) / 400 == q + 1;
  }

  /** A calendar day; `month` is 0-based. */
  datatype Date = Date(year: int, month: int, day: int)

  predicate ValidDate(d: Date)
  {
    0 <= d.month < 12 && 1 <= d.day <= DaysInMonth(d.year, d.month)
  }

  /** The number of days from 1 January of year 0 to `d`. */
  function DayNumber(d: Date): int
    requires 0 <= d.month < 12
  {
    DaysBeforeYear(d.year) + DaysBeforeMonth(d.year, d.month) + d.day - 1
  }

  /** Day number of 1 January 1970, the epoch of JavaScript time values. */
  const EpochDay: int := 719528

  /** `Date.prototype.getDay`: 0 is Sunday, 5 is Friday. */
  function Weekday(n: int): (w: int)
    ensures 0 <= w < 7
  {
    (n + 6) % 7
  }

  /** Seven days later is the same weekday; the next day is the next weekday. */
  lemma WeekdayShift(n: int)
    ensures Weekday(n + 7) == Weekday(n)
    ensures Weekday(n + 1) == (Weekday(n) + 1) % 7
  {
  }

  /** The calendar day after `d`. */
  function NextDay(d: Date): (r: Date)
    requires ValidDate(d)
    ensures ValidDate(r)
    ensures DayNumber(r) == DayNumber(d) + 1
  {
    if d.day < DaysInMonth(d.year, d.month) then Date(d.year, d.month, d.day + 1)
    else if d.month < 11 then
      DaysBeforeNextMonth(d.year, d.month);
      Date(d.year, d.month + 1, 1)
    else
      DaysBeforeNextYear(d.year);
      Date(d.year + 1, 0, 1)
  }

  /** `setDate(getDate() + k)` on a valid day: the day `k` days later. */
  function AddDays(d: Date, k: nat): (r: Date)
    requires ValidDate(d)
    ensures ValidDate(r)
    ensures DayNumber(r) == DayNumber(d) + k
    decreases k
  {
    if k == 0 then d else AddDays(NextDay(d), k - 1)
  }

  /** Valid days of years `y` lie in `[DaysBeforeYear(y), DaysBeforeYear(y + 1))`. */
  lemma DayNumberInYear(d: Date)
    requires ValidDate(d)
    ensures DaysBeforeYear(d.year) <= DayNumber(d) < DaysBeforeYear(d.year + 1)
  {
    DaysBeforeNextYear(d.year);
    DaysBeforeNextMonth(d.year, d.month);
  }

  lemma {:induction false} DaysBeforeYearMonotone(a: int, b: int)
    requires a <= b
    ensures DaysBeforeYear(a) <= DaysBeforeYear(b)
    decreases b - a
  {
    if a < b {
      DaysBeforeNextYear(a);
      DaysBeforeYearMonotone(a + 1, b);
    }
  }

  /** Different valid days have different day numbers. */
  lemma DayNumberInjective(a: Date, b: Date)
    requires ValidDate(a) && ValidDate(b)
    requires DayNumber(a) == DayNumber(b)
    ensures a == b
  {
    DayNumberInYear(a);
    DayNumberInYear(b);
    if a.year < b.year {
      DaysBeforeYearMonotone(a.year + 1, b.year);
      assert false;
    } else if b.year < a.year {
      DaysBeforeYearMonotone(b.year + 1, a.year);
      assert false;
    } else if a.month < b.month {
      MonthsApart(a.year, a.month, b.month);
      assert false;
    } else if b.month < a.month {
      MonthsApart(a.year, b.month, a.month);
      assert false;
    } else {
      assert a.day == b.day;
    }
  }

  lemma {:induction false} MonthsApart(y: int, m1: int, m2: int)
    requires 0 <= m1 < m2 < 12
    ensures DaysBeforeMonth(y, m1) + DaysInMonth(y, m1) <= DaysBeforeMonth(y, m2)
    decreases m2 - m1
  {
    DaysBeforeNextMonth(y, m1);
    if m1 + 1 < m2 {
      MonthsApart(y, m1 + 1, m2);
      DaysBeforeNextMonth(y, m1 + 1);
    }
  }

  /** The last day of month `m` of year `y`. */
  function LastDayOfMonth(y: int, m: int): (d: Date)
    requires 0 <= m < 12
    ensures ValidDate(d) && d.year == y && d.month == m
    ensures forall k :: 1 <= k <= d.day ==> ValidDate(Date(y, m, k))
    ensures !ValidDate(Date(y, m, d.day + 1))
  {
    Date(y, m, DaysInMonth(y, m))
  }

  // ---------------------------------------------------------------- time values

  const MsPerDay: int := 86400000

  /** A date with a wall-clock time of day. */
  datatype DateTime = DateTime(date: Date, hour: int, minute: int, second: int)

  predicate ValidDateTime(t: DateTime)
  {
    ValidDate(t.date) && 0 <= t.hour < 24 && 0 <= t.minute < 60 && 0 <= t.second < 60
  }

  /** A date-time whose fields are all in range, as the local-time getters of a valid
      `Date` report them. */
  type LocalDateTime = t: DateTime | ValidDateTime(t) witness DateTime(Date(1970, 0, 1), 0, 0, 0)

  /** The JavaScript time value of local time `y-m-d h:mi:s`, with out-of-range months
      carried into the year (`MakeDay`) and other fields carried by plain arithmetic. */
  function LocalTime(y: int, m: int, d: int, h: int, mi: int, s: int): int
  {
    (DayNumber(Date(y + m / 12, m % 12, d)) - EpochDay) * MsPerDay
      + h * 3600000 + mi * 60000 + s * 1000
  }

  /** `new Date(y, m, d, h, mi, s).getTime()` for integer-or-NaN arguments (`None` is NaN):
      any NaN gives NaN, years 0 to 99 mean 1900 to 1999, and time values beyond
      8.64e15 ms from the epoch are NaN. */
  function NewDate(y: Option<int>, m: Option<int>, d: Option<int>,
                   h: Option<int>, mi: Option<int>, s: Option<int>): (r: Num)
    ensures r.Fin? ==> y.Some? && m.Some? && d.Some? && h.Some? && mi.Some? && s.Some?
  {
    if y.None? || m.None? || d.None? || h.None? || mi.None? || s.None? then NaN
    else
      var year := if 0 <= y.value <= 99 then 1900 + y.value else y.value;
      var t := LocalTime(year, m.value, d.value, h.value, mi.value, s.value);
      if -8640000000000000 <= t <= 8640000000000000 then Fin(t as real) else NaN
  }

  /** For a valid date-time, the time value is its day's offset from the epoch plus
      the time of day, and the time of day stays inside that day. */
  lemma LocalTimeOfValid(t: DateTime)
    requires ValidDateTime(t)
    ensures LocalTime(t.date.year, t.date.month, t.date.day, t.hour, t.minute, t.second)
            == (DayNumber(t.date) - EpochDay) * MsPerDay + (t.hour * 3600 + t.minute * 60 + t.second) * 1000
    ensures 0 <= (t.hour * 3600 + t.minute * 60 + t.second) * 1000 < MsPerDay
  {
    assert t.date.month / 12 == 0 && t.date.month % 12 == t.date.month;
  }

  /** 1 January 1970 is day `EpochDay` and a Thursday. */
  lemma EpochIsThursday()
    ensures DayNumber(Date(1970, 0, 1)) == EpochDay
    ensures Weekday(EpochDay) == 4
  {
  }
}

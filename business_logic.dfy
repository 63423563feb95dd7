/** The warehouse calendar (hooks/useBusinessLogic.ts): the weekly stock rotation on
    Friday, the monthly stock take on the month's last Friday and the quarterly total
    check on the last Friday of March, June, September and December. "Today" is a
    parameter; days are whole calendar days, so a distance between midnights is a
    difference of day numbers. */
module BusinessLogic {
  import opened Js
  import opened Calendar
  import Text

  const Friday := 5

  /** What each card shows: `DD/MM` and the days until it. */
  datatype Deadline = Deadline(dateDisplay: string, daysLeft: int)

  /** `DD/MM` of a day, both zero-padded. */
  function DayMonth(d: Date): (r: string)
    requires ValidDate(d)
    ensures |r| == 5 && r[2] == '/'
    ensures Text.AllDigits(r[..2]) && Text.AllDigits(r[3..])
  {
    Text.Pad2(d.day) + "/" + Text.Pad2(d.month + 1)
  }

  /** The display reads back as the day and the 1-based month. */
  lemma DayMonthReadsBack(d: Date)
    requires ValidDate(d)
    ensures Text.ParseInt(DayMonth(d)[..2]) == Some(d.day)
    ensures Text.ParseInt(DayMonth(d)[3..]) == Some(d.month + 1)
  {
    var a, b := Text.Pad2(d.day), Text.Pad2(d.month + 1);
    assert DayMonth(d)[..2] == a;
    assert DayMonth(d)[3..] == b;
    Text.ParseIntPad2(d.day);
    Text.ParseIntPad2(d.month + 1);
  }

  function WeekdayOf(d: Date): int
    requires ValidDate(d)
  {
    Weekday(DayNumber(d))
  }

  /** `getLastFridayOfMonth(y, m)`: from the month's last day, back to a Friday.
      Month 12 is `new Date(y, 13, 0)`, the last day of January of `y + 1`. */
  function LastFriday(y: int, m: int): (r: Date)
    requires 0 <= m <= 12
    ensures ValidDate(r)
    ensures r.year == (if m == 12 then y + 1 else y) && r.month == m % 12
  {
    var last := if m == 12 then LastDayOfMonth(y + 1, 0) else LastDayOfMonth(y, m);
    var subtract := (WeekdayOf(last) - Friday + 7) % 7;
    Date(last.year, last.month, last.day - subtract)
  }

  /** The result is a Friday and no later day of its month is one. */
  lemma LastFridayIsLast(y: int, m: int)
    requires 0 <= m <= 12
    ensures WeekdayOf(LastFriday(y, m)) == Friday
    ensures var r := LastFriday(y, m);
      forall k :: r.day < k <= DaysInMonth(r.year, r.month) ==> WeekdayOf(Date(r.year, r.month, k)) != Friday
  {
    var r := LastFriday(y, m);
    var last := LastDayOfMonth(r.year, r.month);
    var n := DayNumber(last);
    var s := (Weekday(n) - Friday + 7) % 7;
    BackToFriday(n, s, 0);
    SameMonthDistance(r.year, r.month, last.day, r.day);
    forall k | r.day < k <= DaysInMonth(r.year, r.month)
      ensures WeekdayOf(Date(r.year, r.month, k)) != Friday
    {
      SameMonthDistance(r.year, r.month, last.day, k);
      BackToFriday(n, s, last.day - k);
    }
  }

  /** Going back `(w - 5 + 7) % 7` days from a day of weekday `w` reaches a Friday,
      and passes none before it. */
  lemma BackToFriday(n: int, s: int, j: int)
    requires s == (Weekday(n) - Friday + 7) % 7
    ensures Weekday(n - s) == Friday
    ensures 0 <= j < s ==> Weekday(n - j) != Friday
  {
  }

  /** Days of one month are as far apart as their day-of-month numbers. */
  lemma SameMonthDistance(y: int, m: int, a: int, b: int)
    requires 0 <= m < 12
    ensures DayNumber(Date(y, m, a)) == DayNumber(Date(y, m, b)) + (a - b)
  {
  }

  // ---------------------------------------------------------------- stock rotation

  /** `(5 - getDay() + 7) % 7` for weekday `w`. */
  function FridayGap(w: int): (r: int)
    requires 0 <= w < 7
    ensures 0 <= r < 7 && (r == 0 <==> w == Friday)
  {
    (Friday - w + 7) % 7
  }

  /** The days from weekday `w` to the next Friday after it. */
  function NextFridayGap(w: int): (r: int)
    requires 0 <= w < 7
    ensures 1 <= r <= 7
  {
    if FridayGap(w) == 0 then 7 else FridayGap(w)
  }

  /** `stockRotation` as written: days to the coming Friday, which is today on a
      Friday. */
  function StockRotation(today: Date): (r: Deadline)
    requires ValidDate(today)
    ensures 0 <= r.daysLeft <= 6
  {
    var days := FridayGap(WeekdayOf(today));
    Deadline(DayMonth(AddDays(today, days)), days)
  }

  /** On a Friday the rotation as written is due today, not next week. */
  lemma StockRotationOnFriday(today: Date)
    requires ValidDate(today) && WeekdayOf(today) == Friday
    ensures StockRotation(today) == Deadline(DayMonth(today), 0)
  {
  }

  /** The rotation is next week's Friday on a Friday and the coming Friday on any
      other day. */
  function StockRotationNextFriday(today: Date): (r: Deadline)
    requires ValidDate(today)
    ensures 1 <= r.daysLeft <= 7
  {
    var days := NextFridayGap(WeekdayOf(today));
    Deadline(DayMonth(AddDays(today, days)), days)
  }

  /** The corrected rotation falls on a Friday. */
  lemma StockRotationReachesFriday(today: Date)
    requires ValidDate(today)
    ensures WeekdayOf(AddDays(today, NextFridayGap(WeekdayOf(today)))) == Friday
  {
    var days := NextFridayGap(WeekdayOf(today));
    LandsOnFriday(today, AddDays(today, days), days, 0);
  }

  /** No day between today and the corrected rotation is a Friday. */
  lemma StockRotationSkipsNoFriday(today: Date, k: nat)
    requires ValidDate(today)
    requires 0 < k < NextFridayGap(WeekdayOf(today))
    ensures WeekdayOf(AddDays(today, k)) != Friday
  {
    LandsOnFriday(today, AddDays(today, k), k, k);
  }

  /** Away from Fridays the corrected rotation is the code's. */
  lemma StockRotationAgreesBeforeFriday(today: Date)
    requires ValidDate(today) && WeekdayOf(today) != Friday
    ensures StockRotationNextFriday(today) == StockRotation(today)
  {
  }

  /** The weekday `k` days on is that of the day number `k` further. */
  lemma WeekdayAfter(d: Date, k: nat)
    requires ValidDate(d)
    ensures WeekdayOf(AddDays(d, k)) == Weekday(DayNumber(d) + k)
  {
    var f := AddDays(d, k);
    assert DayNumber(f) == DayNumber(d) + k;
  }

  /** A date `k` days after `d` is a Friday when `k` is the gap to the next
      Friday, and is not one when `k` falls short of that gap. */
  lemma LandsOnFriday(d: Date, f: Date, k: int, short: int)
    requires ValidDate(d) && ValidDate(f) && DayNumber(f) == DayNumber(d) + k
    ensures k == NextFridayGap(WeekdayOf(d)) ==> WeekdayOf(f) == Friday
    ensures k == short && 0 < short < NextFridayGap(WeekdayOf(d)) ==> WeekdayOf(f) != Friday
  {
    ForwardToFriday(DayNumber(d), WeekdayOf(d), short);
  }

  /** From day number `n` of weekday `w`, the next Friday is `NextFridayGap(w)`
      days on, and no day `k` before it is a Friday. */
  lemma ForwardToFriday(n: int, w: int, k: int)
    requires w == Weekday(n)
    ensures Weekday(n + NextFridayGap(w)) == Friday
    ensures 0 < k < NextFridayGap(w) ==> Weekday(n + k) != Friday
  {
  }

  /** Monday 12 February 2024: the rotation is Friday 16 February, 4 days on. */
  lemma StockRotationFebruary12()
    ensures StockRotation(Date(2024, 1, 12)).daysLeft == 4
    ensures AddDays(Date(2024, 1, 12), 4) == Date(2024, 1, 16)
  {
    assert WeekdayOf(Date(2024, 1, 12)) == 1;
    assert FridayGap(1) == 4;
    DayNumberInjective(AddDays(Date(2024, 1, 12), 4), Date(2024, 1, 16));
  }

  /** Friday 16 February 2024: the code shows 0 days and "16/02"; the evident
      intent is 7 days and "23/02". */
  lemma FridayFebruary16()
    ensures StockRotation(Date(2024, 1, 16)).daysLeft == 0
    ensures StockRotationNextFriday(Date(2024, 1, 16)).daysLeft == 7
    ensures AddDays(Date(2024, 1, 16), 7) == Date(2024, 1, 23)
  {
    assert WeekdayOf(Date(2024, 1, 16)) == Friday;
    DayNumberInjective(AddDays(Date(2024, 1, 16), 7), Date(2024, 1, 23));
  }

  // ---------------------------------------------------------------- stock take

  /** A valid day of one month comes before every valid day of a later month. */
  lemma {:induction false} EarlierMonthFirst(a: Date, b: Date)
    requires ValidDate(a) && ValidDate(b)
    requires a.year < b.year || (a.year == b.year && a.month < b.month)
    ensures DayNumber(a) < DayNumber(b)
  {
    DayNumberInYear(a);
    DayNumberInYear(b);
    if a.year < b.year {
      DaysBeforeYearMonotone(a.year + 1, b.year);
    } else {
      MonthsApart(a.year, a.month, b.month);
    }
  }

  /** `stockCheck`: this month's last Friday, or next month's once that has passed. */
  function StockTakeDay(today: Date): (r: Date)
    requires ValidDate(today)
    ensures ValidDate(r) && WeekdayOf(r) == Friday
    ensures DayNumber(today) <= DayNumber(r)
    ensures DayNumber(today) <= DayNumber(LastFriday(today.year, today.month)) ==>
      r == LastFriday(today.year, today.month)
    ensures DayNumber(today) > DayNumber(LastFriday(today.year, today.month)) ==>
      r == LastFriday(today.year, today.month + 1)
  {
    LastFridayIsLast(today.year, today.month);
    LastFridayIsLast(today.year, today.month + 1);
    var target := LastFriday(today.year, today.month);
    if DayNumber(today) > DayNumber(target) then
      EarlierMonthFirst(today, LastFriday(today.year, today.month + 1));
      LastFriday(today.year, today.month + 1)
    else target
  }

  function StockCheck(today: Date): (r: Deadline)
    requires ValidDate(today)
    ensures r.daysLeft >= 0
  {
    var target := StockTakeDay(today);
    Deadline(DayMonth(target), DayNumber(target) - DayNumber(today))
  }

  /** Monday 12 February 2024: the stock take is Friday 23 February, 11 days on. */
  lemma StockCheckFebruary12()
    ensures StockTakeDay(Date(2024, 1, 12)) == Date(2024, 1, 23)
    ensures StockCheck(Date(2024, 1, 12)).daysLeft == 11
  {
    February2024();
    assert DayNumber(Date(2024, 1, 12)) == 739293;
  }

  /** Saturday 24 February 2024: February's has passed, so it is Friday 29 March,
      34 days on. */
  lemma StockCheckFebruary24()
    ensures StockTakeDay(Date(2024, 1, 24)) == Date(2024, 2, 29)
    ensures StockCheck(Date(2024, 1, 24)).daysLeft == 34
  {
    February2024();
    March2024();
    assert DayNumber(Date(2024, 1, 24)) == 739305;
  }

  /** The last Friday of February 2024 is the 23rd (the 29th is a Thursday). */
  lemma February2024()
    ensures LastFriday(2024, 1) == Date(2024, 1, 23)
    ensures DayNumber(Date(2024, 1, 23)) == 739304
  {
    assert DaysBeforeYear(2024) == 739251;
    assert DayNumber(Date(2024, 1, 29)) == 739310;
    assert Weekday(739310) == 4;
  }

  /** The last Friday of March 2024 is the 29th (the 31st is a Sunday). */
  lemma March2024()
    ensures LastFriday(2024, 2) == Date(2024, 2, 29)
    ensures DayNumber(Date(2024, 2, 29)) == 739339
  {
    assert DaysBeforeYear(2024) == 739251;
    assert DayNumber(Date(2024, 2, 31)) == 739341;
    assert Weekday(739341) == 0;
  }

  // ---------------------------------------------------------------- total check

  /** The last month of the quarter `m` is in: March, June, September or December. */
  function QuarterEnd(m: int): (r: int)
    requires 0 <= m < 12
    ensures r in {2, 5, 8, 11} && m <= r < m + 3
  {
    m / 3 * 3 + 2
  }

  /** `totalCheck`: the month and year whose last Friday is counted. */
  function TotalCheckMonth(today: Date): (r: (int, int))
    requires ValidDate(today)
  {
    var endMonth := QuarterEnd(today.month);
    if DayNumber(today) > DayNumber(LastFriday(today.year, endMonth)) then
      if endMonth + 3 > 11 then (today.year + 1, 2) else (today.year, endMonth + 3)
    else (today.year, endMonth)
  }

  function TotalCheckDay(today: Date): (r: Date)
    requires ValidDate(today)
    ensures ValidDate(r) && r.month in {2, 5, 8, 11}
  {
    var (y, m) := TotalCheckMonth(today);
    LastFriday(y, m)
  }

  /** `totalCheck`: the target date shown and the whole days left until it. */
  function TotalCheck(today: Date): (r: Deadline)
    requires ValidDate(today)
    ensures r.daysLeft >= 0
  {
    TotalCheckNotPast(today);
    var target := TotalCheckDay(today);
    Deadline(DayMonth(target), DayNumber(target) - DayNumber(today))
  }

  /** The counted Friday is never before today: this quarter's has not passed, or
      it is a later month's. */
  lemma TotalCheckNotPast(today: Date)
    requires ValidDate(today)
    ensures DayNumber(today) <= DayNumber(TotalCheckDay(today))
  {
    var (y, m) := TotalCheckMonth(today);
    LastFridayIsLast(y, m);
    var q := LastFriday(today.year, QuarterEnd(today.month));
    if DayNumber(today) > DayNumber(q) {
      EarlierMonthFirst(today, LastFriday(y, m));
    }
  }

  /** The total check is a Friday, never before today, in this quarter's last
      month unless that month's last Friday has passed, and then in the next
      quarter's (March of next year after December). */
  lemma TotalCheckIsNextQuarterEnd(today: Date)
    requires ValidDate(today)
    ensures var t := TotalCheckDay(today);
      WeekdayOf(t) == Friday && TotalCheck(today).daysLeft >= 0
      && var q := LastFriday(today.year, QuarterEnd(today.month));
      (DayNumber(today) <= DayNumber(q) ==> t == q)
      && (DayNumber(today) > DayNumber(q) && QuarterEnd(today.month) < 11 ==>
            t == LastFriday(today.year, QuarterEnd(today.month) + 3))
      && (DayNumber(today) > DayNumber(q) && QuarterEnd(today.month) == 11 ==>
            t == LastFriday(today.year + 1, 2))
  {
    var (y, m) := TotalCheckMonth(today);
    LastFridayIsLast(y, m);
    var t := LastFriday(y, m);
    var q := LastFriday(today.year, QuarterEnd(today.month));
    if DayNumber(today) > DayNumber(q) {
      EarlierMonthFirst(today, t);
    }
  }

  /** The three cards of the dashboard. */
  datatype Schedule = Schedule(stockRotation: Deadline, stockCheck: Deadline, totalCheck: Deadline)

  /** `useBusinessLogic` as written: the rotation is due today on a Friday. */
  function Deadlines(today: Date): (r: Schedule)
    requires ValidDate(today)
    ensures 0 <= r.stockRotation.daysLeft <= 6
    ensures r.stockRotation.daysLeft == 0 <==> WeekdayOf(today) == Friday
    ensures r.stockCheck.daysLeft >= 0 && r.totalCheck.daysLeft >= 0
    ensures r.stockCheck.daysLeft <= r.totalCheck.daysLeft
  {
    StockTakeNotAfterTotal(today);
    Schedule(StockRotation(today), StockCheck(today), TotalCheck(today))
  }

  /** The same cards with the rotation a week away on a Friday. */
  function DeadlinesNextFriday(today: Date): (r: Schedule)
    requires ValidDate(today)
    ensures 1 <= r.stockRotation.daysLeft <= 7
    ensures r.stockRotation.daysLeft == 7 <==> WeekdayOf(today) == Friday
    ensures r.stockCheck.daysLeft >= 0 && r.totalCheck.daysLeft >= 0
    ensures r.stockCheck.daysLeft <= r.totalCheck.daysLeft
  {
    StockTakeNotAfterTotal(today);
    Schedule(StockRotationNextFriday(today), StockCheck(today), TotalCheck(today))
  }

  /** The quarterly check is itself a month-end Friday not before today, so the
      monthly stock take never comes after it. */
  lemma StockTakeNotAfterTotal(today: Date)
    requires ValidDate(today)
    ensures DayNumber(StockTakeDay(today)) <= DayNumber(TotalCheckDay(today))
  {
    TotalCheckIsNextQuarterEnd(today);
    var (y, m) := TotalCheckMonth(today);
    FirstMonthEndFriday(today, y, m);
  }

  /** The stock take comes no later than any month-end Friday from today on. */
  lemma FirstMonthEndFriday(today: Date, y: int, m: int)
    requires ValidDate(today) && 0 <= m < 12
    requires y > today.year || (y == today.year && m >= today.month)
    requires DayNumber(today) <= DayNumber(LastFriday(y, m))
    ensures DayNumber(StockTakeDay(today)) <= DayNumber(LastFriday(y, m))
  {
    var s, t := StockTakeDay(today), LastFriday(y, m);
    var thisOne := LastFriday(today.year, today.month);
    var s2 := LastFriday(today.year, today.month + 1);
    if y == today.year && m == today.month {
      assert t == thisOne;
      assert s == thisOne;
    } else if s == thisOne {
      EarlierMonthFirst(thisOne, t);
    } else {
      assert s == s2;
      if s2.year == y && s2.month == m {
        NextMonthFriday(today.year, today.month, y, m);
      } else {
        assert t.year > s2.year || (t.year == s2.year && t.month > s2.month);
        EarlierMonthFirst(s2, t);
      }
    }
  }

  /** The month after `mo` of `yr`, named by its own year and month, has the same
      last Friday. */
  lemma NextMonthFriday(yr: int, mo: int, y: int, m: int)
    requires 0 <= mo < 12 && 0 <= m < 12
    requires LastFriday(yr, mo + 1).year == y && LastFriday(yr, mo + 1).month == m
    ensures LastFriday(yr, mo + 1) == LastFriday(y, m)
  {
  }
}

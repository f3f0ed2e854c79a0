/**
 * Calendar arithmetic of toggl.py on local day numbers: day 0 is
 * 1970-01-01 (a Thursday), and weekdays are numbered as Python's
 * `weekday()` numbers them, Monday 0 to Sunday 6.
 */
module TogglCalendar {

  /** Python's weekday() of 1970-01-01. */
  const EpochWeekday := 3

  /** TRACKING_START_DATE, 2025-04-09, as a local day number. */
  const TrackingStartDay := 20187

  function Weekday(day: int): (w: int)
    ensures 0 <= w < 7
  {
    (day + EpochWeekday) % 7
  }

  lemma WeekdayShift(day: int, k: int)
    ensures Weekday(day + 7 * k) == Weekday(day)
  {
    assert (day + 7 * k) + EpochWeekday == (day + EpochWeekday) + 7 * k;
  }

  lemma TrackingStartIsWednesday()
    ensures Weekday(TrackingStartDay) == 2
  {
  }

  /**
   * `.date()` of a local datetime: the day number of a reading of the local
   * clock, given in seconds since local midnight of 1970-01-01.
   */
  function LocalDay(wallSeconds: int): (d: int)
    ensures d * 86400 <= wallSeconds < d * 86400 + 86400
  {
    wallSeconds / 86400
  }

  /** `d - timedelta(days=d.weekday())`: the Monday at or before `day`. */
  function MondayOf(day: int): (m: int)
    ensures Weekday(m) == 0 && m <= day < m + 7
  {
    day - Weekday(day)
  }

  /** The Monday of a week is unique, so two days share one iff they lie in the same Monday-to-Sunday week. */
  lemma SameWeekIffSameMonday(d1: int, d2: int)
    ensures MondayOf(d1) == MondayOf(d2) <==> MondayOf(d1) <= d2 < MondayOf(d1) + 7
  {
    var m1, m2 := MondayOf(d1), MondayOf(d2);
    if m1 <= d2 < m1 + 7 && m1 != m2 {
      MondaysSevenApart(m1, m2);
    }
  }

  lemma MondaysSevenApart(m1: int, m2: int)
    requires Weekday(m1) == 0 && Weekday(m2) == 0
    ensures (m1 - m2) % 7 == 0
  {
  }

  /**
   * The local-midnight boundaries of get_productivity_data, as local day
   * numbers: each field is the local day whose midnight it stands for.
   */
  datatype Bounds = Bounds(
    startOfToday: int, endOfToday: int,
    startOfYesterday: int, endOfYesterday: int,
    startOfThisWeek: int, endOfThisWeek: int,
    startOfLastWeek: int, endOfLastWeek: int)

  /** toggl.py:119-126 for a `now` whose local date is `today`. */
  function DayBounds(today: int): (b: Bounds)
    ensures b.startOfToday == today
    ensures b.endOfYesterday == b.startOfToday == b.startOfYesterday + 1
    ensures b.endOfToday == b.startOfToday + 1
    ensures Weekday(b.startOfThisWeek) == 0 && b.startOfThisWeek <= today < b.startOfThisWeek + 7
    ensures b.endOfThisWeek == b.startOfThisWeek + 7
    ensures b.endOfLastWeek == b.startOfThisWeek && b.startOfLastWeek == b.startOfThisWeek - 7
    ensures Weekday(b.startOfLastWeek) == 0
  {
    var startOfToday := today;
    var startOfThisWeek := startOfToday - Weekday(startOfToday);
    WeekdayShift(startOfThisWeek, -1);
    Bounds(startOfToday, startOfToday + 1,
           startOfToday - 1, startOfToday,
           startOfThisWeek, startOfThisWeek + 7,
           startOfThisWeek - 7, startOfThisWeek)
  }

  /** The number of days among `first, ..., first + n - 1` that fall Monday to Friday. */
  function CountWeekdays(first: int, n: int): (c: int)
    ensures 0 <= c <= if n <= 0 then 0 else n
    decreases n
  {
    if n <= 0 then 0
    else CountWeekdays(first, n - 1) + (if Weekday(first + n - 1) < 5 then 1 else 0)
  }

  /**
   * `sum(1 for i in range((end - start).days + 1) if (start + i days).weekday() < 5)`
   * (toggl.py:158-161): the weekdays from `startDay` through `endDay`, both included.
   */
  function WeekdaysThrough(startDay: int, endDay: int): (c: int)
    ensures endDay < startDay ==> c == 0
    ensures 0 <= c <= if endDay < startDay then 0 else endDay - startDay + 1
  {
    CountWeekdays(startDay, endDay - startDay + 1)
  }

  lemma {:induction false} CountWeekdaysSplit(first: int, n: nat, m: nat)
    ensures CountWeekdays(first, n + m) == CountWeekdays(first, n) + CountWeekdays(first + n, m)
    decreases m
  {
    if m > 0 {
      CountWeekdaysSplit(first, n, m - 1);
      assert first + (n + m) - 1 == (first + n) + m - 1;
    }
  }

  lemma WeekdayNext(day: int)
    ensures Weekday(day + 1) == if Weekday(day) == 6 then 0 else Weekday(day) + 1
  {
  }

  /** Any seven consecutive days hold exactly five weekdays. */
  lemma SevenDaysFiveWeekdays(first: int)
    ensures CountWeekdays(first, 7) == 5
  {
    WeekdayNext(first);
    WeekdayNext(first + 1);
    WeekdayNext(first + 2);
    WeekdayNext(first + 3);
    WeekdayNext(first + 4);
    WeekdayNext(first + 5);
    assert CountWeekdays(first, 1) == (if Weekday(first) < 5 then 1 else 0);
    assert CountWeekdays(first, 2) == CountWeekdays(first, 1) + (if Weekday(first + 1) < 5 then 1 else 0);
    assert CountWeekdays(first, 3) == CountWeekdays(first, 2) + (if Weekday(first + 2) < 5 then 1 else 0);
    assert CountWeekdays(first, 4) == CountWeekdays(first, 3) + (if Weekday(first + 3) < 5 then 1 else 0);
    assert CountWeekdays(first, 5) == CountWeekdays(first, 4) + (if Weekday(first + 4) < 5 then 1 else 0);
    assert CountWeekdays(first, 6) == CountWeekdays(first, 5) + (if Weekday(first + 5) < 5 then 1 else 0);
    assert CountWeekdays(first, 7) == CountWeekdays(first, 6) + (if Weekday(first + 6) < 5 then 1 else 0);
  }

  /** Whole weeks count five weekdays each: the count over `7k + r` days. */
  lemma {:induction false} CountWeekdaysWeeks(first: int, k: nat, r: nat)
    ensures CountWeekdays(first, 7 * k + r) == 5 * k + CountWeekdays(first + 7 * k, r)
    decreases k
  {
    if k > 0 {
      CountWeekdaysSplit(first, 7, 7 * (k - 1) + r);
      SevenDaysFiveWeekdays(first);
      CountWeekdaysWeeks(first + 7, k - 1, r);
      assert first + 7 + 7 * (k - 1) == first + 7 * k;
    }
  }

  /** A week-aligned bound: `n` days hold between `5 * (n / 7)` and `5 * (n / 7) + n % 7` weekdays. */
  lemma CountWeekdaysBounds(first: int, n: nat)
    ensures 5 * (n / 7) <= CountWeekdays(first, n) <= 5 * (n / 7) + n % 7
  {
    CountWeekdaysWeeks(first, n / 7, n % 7);
  }

  /** From Wednesday 2025-04-09 through Tuesday 2025-04-15: Wed, Thu, Fri, Mon and Tue. */
  lemma FirstWeekExample()
    ensures WeekdaysThrough(TrackingStartDay, TrackingStartDay + 6) == 5
  {
    SevenDaysFiveWeekdays(TrackingStartDay);
  }
}

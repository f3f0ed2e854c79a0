/**
 * The entry points of toggl.py: `get_best_from_start`,
 * `get_productivity_data` and `get_total_debt`.  The clock, the time zone
 * and the configuration are parameters: `now` is the current instant, and
 * an Env carries the fetch oracle, MAX_DATE_RANGE_DAYS and the two
 * conversions the Europe/Vienna zone provides.  Local dates are those of
 * the local clock, as `.date()` of a Vienna datetime gives them.
 */
module Toggl {
  import opened Wrappers
  import opened Buckets
  import opened TogglEntries
  import opened TogglFetch
  import opened TogglCalendar
  import opened TogglBest

  /** DAILY_GOAL_MIN. */
  const DailyGoalMin := 390

  datatype Env = Env(
    fetch: Fetcher,
    maxDays: nat,
    /** The Vienna clock at a UTC instant, in seconds since local midnight of 1970-01-01. */
    wall: int -> int,
    /** The UTC instant of a local day's midnight. */
    midnight: int -> int)

  /** The local calendar date of a UTC instant. */
  function DayOf(env: Env, t: int): int {
    LocalDay(env.wall(t))
  }

  /** The label of a best pair in the result record. */
  datatype Label = NoData | Key(key: int)

  datatype BestPair = BestPair(name: Label, minutes: int)

  /** `("No data", 0)`. */
  const NoDataPair := BestPair(NoData, 0)

  /** `best if best[0] else ("No data", 0)` (toggl.py:146-147). */
  function Relabel(b: ScanBest): (p: BestPair)
    ensures p.name.NoData? <==> b.key.None?
    ensures p.name.NoData? ==> p == NoDataPair
    ensures p.name.Key? ==> p.name.key == b.key.value && p.minutes == b.minutes
  {
    match b.key
    case None => NoDataPair
    case Some(k) => BestPair(Key(k), b.minutes)
  }

  /**
   * The best pair as reported: `("No data", 0)` exactly when no fetched
   * entry is complete; otherwise a day (week) that has entries, with their
   * clock minutes, and no day (week) holds more.
   */
  lemma ReportedBestIsLargestBucket(es: seq<Entry>, wall: int -> int, g: Grouping)
    requires BestOf(es, wall).Some?
    ensures var p := Relabel(if g == ByDay then BestOf(es, wall).value.0 else BestOf(es, wall).value.1);
      && (p == NoDataPair <==> forall i :: 0 <= i < |es| ==> !Complete(es[i]))
      && (p.name.Key? ==> Occurs(es, g, wall, p.name.key) && p.minutes == MinutesAt(es, g, wall, p.name.key))
      && (p.name.Key? ==> forall k :: Occurs(es, g, wall, k) ==> MinutesAt(es, g, wall, k) <= p.minutes)
  {
    BestIsLargestBucket(es, wall, g);
  }

  /** The `results` dict of get_productivity_data. */
  datatype Metrics = Metrics(
    today: int, yesterday: int, thisWeek: int, lastWeek: int,
    bestDay: BestPair, bestWeek: BestPair)

  /** toggl.py:130-137. */
  const DefaultMetrics := Metrics(0, 0, 0, 0, NoDataPair, NoDataPair)

  function Totals(m: Metrics): seq<int> {
    [m.today, m.yesterday, m.thisWeek, m.lastWeek]
  }

  /**
   * The four UTC ranges fetched for today, yesterday, this week and last
   * week: local midnights converted by the zone, except that this week's
   * range ends at `now`.
   */
  function FetchRanges(env: Env, now: int): (rs: seq<(int, int)>)
    ensures |rs| == 4
    ensures var today := DayOf(env, now);
      && rs[0] == (env.midnight(today), env.midnight(today + 1))
      && rs[1] == (env.midnight(today - 1), env.midnight(today))
      && rs[2] == (env.midnight(MondayOf(today)), now)
      && rs[3] == (env.midnight(MondayOf(today) - 7), env.midnight(MondayOf(today)))
  {
    var b := DayBounds(DayOf(env, now));
    [(env.midnight(b.startOfToday), env.midnight(b.endOfToday)),
     (env.midnight(b.startOfYesterday), env.midnight(b.endOfYesterday)),
     (env.midnight(b.startOfThisWeek), now),
     (env.midnight(b.startOfLastWeek), env.midnight(b.endOfLastWeek))]
  }

  /** `total_minutes(get_time_entries(a, b))`, or None when it raises. */
  function RangeTotal(env: Env, r: (int, int)): Option<int> {
    Total(Fetched(env.fetch, r.0, r.1, env.maxDays))
  }

  /** The outcome of each of the four calendar totals. */
  function StageTotals(env: Env, now: int): (outs: seq<Option<int>>)
    ensures |outs| == 4
  {
    var rs := FetchRanges(env, now);
    [RangeTotal(env, rs[0]), RangeTotal(env, rs[1]), RangeTotal(env, rs[2]), RangeTotal(env, rs[3])]
  }

  /** The first `n` stages all returned. */
  predicate Succeeds(outs: seq<Option<int>>, n: nat)
    requires n <= |outs|
  {
    forall j :: 0 <= j < n ==> outs[j].Some?
  }

  /** What get_best_from_start fetches: TRACKING_START_DATE's local midnight up to now. */
  function HistoryEntries(env: Env, now: int): seq<Entry> {
    Fetched(env.fetch, env.midnight(TrackingStartDay), now, env.maxDays)
  }

  /** get_best_from_start (toggl.py:71-113). */
  method GetBestFromStart(env: Env, now: int) returns (r: Option<(ScanBest, ScanBest)>)
    ensures r == BestOf(HistoryEntries(env, now), env.wall)
  {
    var entries := GetTimeEntries(env.fetch, env.midnight(TrackingStartDay), now, env.maxDays);
    if |entries| == 0 {
      return Some((ScanBest(None, 0), ScanBest(None, 0)));
    }
    var byDay := EmptyTally<int>();
    var byWeek := EmptyTally<int>();
    for i := 0 to |entries|
      invariant byDay == Grouped(entries[..i], ByDay, env.wall)
      invariant byWeek == Grouped(entries[..i], ByWeek, env.wall)
      invariant !HasNonObject(entries[..i])
    {
      var entry := entries[i];
      if entry.NotAnObject? {
        assert entries[i].NotAnObject?;
        return None;
      }
      ObjectPrefix(entries, i);
      GroupedPrefixStep(entries, i, ByDay, env.wall);
      GroupedPrefixStep(entries, i, ByWeek, env.wall);
      // Both timestamps present: the truncated clock minutes go under the start's day and ISO week.
      if Complete(entry) {
        var duration := ScanMinutes(env.wall, entry);
        byDay := byDay.Add(KeyOf(ByDay, env.wall, entry), duration);
        byWeek := byWeek.Add(KeyOf(ByWeek, env.wall, entry), duration);
      }
    }
    assert entries[..|entries|] == entries;
    r := Some((Pick(byDay), Pick(byWeek)));
  }

  /**
   * The record get_productivity_data returns for the given stage outcomes:
   * the stages run in order inside one `try`, so a stage that raises leaves
   * its field and every later one at the default.
   */
  function StageMetrics(outs: seq<Option<int>>, best: Option<(ScanBest, ScanBest)>): (m: Metrics)
    requires |outs| == 4
    ensures forall i :: 0 <= i < 4 ==> Totals(m)[i] == if Succeeds(outs, i + 1) then outs[i].value else 0
    ensures (m.bestDay, m.bestWeek) == if Succeeds(outs, 4) && best.Some?
      then (Relabel(best.value.0), Relabel(best.value.1)) else (NoDataPair, NoDataPair)
  {
    if outs[0].None? then DefaultMetrics
    else if outs[1].None? then DefaultMetrics.(today := outs[0].value)
    else if outs[2].None? then DefaultMetrics.(today := outs[0].value, yesterday := outs[1].value)
    else
      var totals := Metrics(outs[0].value, outs[1].value, outs[2].value, 0, NoDataPair, NoDataPair);
      if outs[3].None? then totals
      else if best.None? then totals.(lastWeek := outs[3].value)
      else totals.(lastWeek := outs[3].value, bestDay := Relabel(best.value.0), bestWeek := Relabel(best.value.1))
  }

  /** get_productivity_data (toggl.py:115-152). */
  method GetProductivityData(env: Env, now: int) returns (m: Metrics)
    ensures m == StageMetrics(StageTotals(env, now), BestOf(HistoryEntries(env, now), env.wall))
  {
    var b := DayBounds(DayOf(env, now));
    ghost var outs := StageTotals(env, now);
    m := DefaultMetrics;
    var entries := GetTimeEntries(env.fetch, env.midnight(b.startOfToday), env.midnight(b.endOfToday), env.maxDays);
    var total := TotalMinutes(entries);
    assert total == outs[0];
    if total.None? {
      return;
    }
    m := m.(today := total.value);
    entries := GetTimeEntries(env.fetch, env.midnight(b.startOfYesterday), env.midnight(b.endOfYesterday), env.maxDays);
    total := TotalMinutes(entries);
    assert total == outs[1];
    if total.None? {
      return;
    }
    m := m.(yesterday := total.value);
    entries := GetTimeEntries(env.fetch, env.midnight(b.startOfThisWeek), now, env.maxDays);
    total := TotalMinutes(entries);
    assert total == outs[2];
    if total.None? {
      return;
    }
    m := m.(thisWeek := total.value);
    entries := GetTimeEntries(env.fetch, env.midnight(b.startOfLastWeek), env.midnight(b.endOfLastWeek), env.maxDays);
    total := TotalMinutes(entries);
    assert total == outs[3];
    if total.None? {
      return;
    }
    m := m.(lastWeek := total.value);
    var best := GetBestFromStart(env, now);
    if best.None? {
      return;
    }
    m := m.(bestDay := Relabel(best.value.0), bestWeek := Relabel(best.value.1));
  }

  /** The days from TRACKING_START_DATE through today that carry the daily goal. */
  function RequiredMinutes(env: Env, now: int): (r: int)
    ensures 0 <= r <= DailyGoalMin * (if DayOf(env, now) < TrackingStartDay then 0 else DayOf(env, now) - TrackingStartDay + 1)
  {
    WeekdaysThrough(TrackingStartDay, DayOf(env, now)) * DailyGoalMin
  }

  /** get_total_debt (toggl.py:154-169); None when total_minutes raises, which it does not catch. */
  method GetTotalDebt(env: Env, now: int) returns (debt: Option<int>)
    ensures var actual := Total(HistoryEntries(env, now));
      debt == if actual.None? then None else Some(RequiredMinutes(env, now) - actual.value)
    ensures DayOf(env, now) < TrackingStartDay && debt.Some? ==> debt.value == -Total(HistoryEntries(env, now)).value
  {
    var weekdays := WeekdaysThrough(TrackingStartDay, DayOf(env, now));
    var required := weekdays * DailyGoalMin;
    var entries := GetTimeEntries(env.fetch, env.midnight(TrackingStartDay), now, env.maxDays);
    var actual := TotalMinutes(entries);
    if actual.None? {
      return None;
    }
    return Some(required - actual.value);
  }

  /** Whole weeks since the start owe 5 * 390 minutes each before anything tracked is subtracted. */
  lemma RequiredPerWeek(env: Env, now: int, k: nat)
    requires DayOf(env, now) == TrackingStartDay + 7 * k - 1
    ensures RequiredMinutes(env, now) == k * 5 * DailyGoalMin
  {
    CountWeekdaysWeeks(TrackingStartDay, k, 0);
  }

  /** From Wednesday 2025-04-09 through the following Tuesday with nothing tracked, the debt is 5 * 390. */
  lemma FirstWeekDebt(env: Env, now: int)
    requires DayOf(env, now) == TrackingStartDay + 6
    requires Total(HistoryEntries(env, now)) == Some(0)
    ensures RequiredMinutes(env, now) - Total(HistoryEntries(env, now)).value == 1950
  {
    FirstWeekExample();
  }
}

/**
 * The historical-best scanner of toggl.py (`get_best_from_start`,
 * toggl.py:71-113) as functions: the day and week buckets it fills and the
 * pair it reports for each.  The loop itself is Toggl.GetBestFromStart.
 */
module TogglBest {
  import opened Wrappers
  import opened Buckets
  import opened TogglEntries
  import opened TogglCalendar

  /** `by_day` is keyed by local start date, `by_week` by ISO year-week. */
  datatype Grouping = ByDay | ByWeek

  /**
   * The bucket key of a complete entry: the local date of its start, or for
   * weeks the Monday of that date (an ISO year-week names exactly one Monday).
   * `wall` reads the Europe/Vienna clock at a UTC instant, in seconds since
   * local midnight of 1970-01-01.
   */
  function KeyOf(g: Grouping, wall: int -> int, e: Entry): (k: int)
    requires Complete(e)
    ensures g == ByDay ==> k == LocalDay(wall(e.start.seconds))
    ensures g == ByWeek ==> Weekday(k) == 0 && k <= LocalDay(wall(e.start.seconds)) < k + 7
  {
    var day := LocalDay(wall(e.start.seconds));
    if g == ByDay then day else MondayOf(day)
  }

  /**
   * What the scan adds for one entry: `int((stop - start).total_seconds() / 60)`
   * of the two timestamps converted to Europe/Vienna.  Both carry the same
   * cached zone object, and Python subtracts two datetimes of one zone as
   * naive clock readings, so these are minutes on the local clock and not
   * elapsed minutes: an entry across a change of the UTC offset gains or
   * loses the hour the clocks jump.
   */
  function ScanMinutes(wall: int -> int, e: Entry): (m: int)
    ensures !Complete(e) ==> m == 0
    ensures Complete(e) && wall(e.start.seconds) <= wall(e.stop.seconds) ==>
      0 <= m * 60 <= wall(e.stop.seconds) - wall(e.start.seconds) < m * 60 + 60
    ensures Complete(e) && wall(e.stop.seconds) < wall(e.start.seconds) ==>
      m * 60 - 60 < wall(e.stop.seconds) - wall(e.start.seconds) <= m * 60 <= 0
  {
    if Complete(e) then TruncMinutes(wall(e.stop.seconds) - wall(e.start.seconds)) else 0
  }

  /** The local clock's offset from UTC is the same at the start and at the stop of a complete entry. */
  predicate SteadyOffset(wall: int -> int, e: Entry) {
    Complete(e) ==> wall(e.stop.seconds) - e.stop.seconds == wall(e.start.seconds) - e.start.seconds
  }

  /** Without an offset change inside the entry, clock minutes are elapsed minutes, as total_minutes counts them. */
  lemma ScanMinutesElapsed(wall: int -> int, e: Entry)
    requires SteadyOffset(wall, e)
    ensures ScanMinutes(wall, e) == Contribution(e)
  {
    if Complete(e) {
      assert wall(e.stop.seconds) - wall(e.start.seconds) == e.stop.seconds - e.start.seconds;
    }
  }

  /** The Europe/Vienna clock around 2025-03-30 01:00 UTC, when it jumps from CET to CEST. */
  function SpringClock(t: int): int {
    if t < 1743296400 then t + 3600 else t + 7200
  }

  /** The Europe/Vienna clock around 2025-10-26 01:00 UTC, when it falls back from CEST to CET. */
  function AutumnClock(t: int): int {
    if t < 1761440400 then t + 7200 else t + 3600
  }

  /**
   * One elapsed hour across each change: 00:30 to 01:30 UTC.  The scan books
   * it as 120 minutes on 2025-03-30 and as 0 minutes on 2025-10-26, while
   * total_minutes counts 60 both times.
   */
  lemma OffsetChangeMinutes()
    ensures var e := Record(At(1743294600), At(1743298200));
      ScanMinutes(SpringClock, e) == 120 && Contribution(e) == 60
    ensures var e := Record(At(1761438600), At(1761442200));
      ScanMinutes(AutumnClock, e) == 0 && Contribution(e) == 60
  {
  }

  /** Reference definition: the scan's minutes of all the entries. */
  function ScanSum(es: seq<Entry>, wall: int -> int): int
  {
    if es == [] then 0 else ScanSum(es[..|es| - 1], wall) + ScanMinutes(wall, es[|es| - 1])
  }

  /** When no entry spans an offset change, the scan's minutes add up to total_minutes' sum. */
  lemma {:induction false} ScanSumElapsed(es: seq<Entry>, wall: int -> int)
    requires forall i :: 0 <= i < |es| ==> SteadyOffset(wall, es[i])
    ensures ScanSum(es, wall) == SumMinutes(es)
  {
    if es != [] {
      ScanSumElapsed(es[..|es| - 1], wall);
      ScanMinutesElapsed(wall, es[|es| - 1]);
    }
  }

  /** The `bucket[key] += duration` steps of the scan, in entry order. */
  function Durations(es: seq<Entry>, g: Grouping, wall: int -> int): seq<(int, int)>
  {
    if es == [] then []
    else
      var e := es[|es| - 1];
      Durations(es[..|es| - 1], g, wall) + (if Complete(e) then [(KeyOf(g, wall, e), ScanMinutes(wall, e))] else [])
  }

  /** The `by_day` or `by_week` dict after the scan of `es`. */
  function Grouped(es: seq<Entry>, g: Grouping, wall: int -> int): Tally<int>
  {
    OfPairs(Durations(es, g, wall))
  }

  /** One iteration of the scan: a complete entry adds its minutes under its key, any other changes nothing. */
  lemma GroupedStep(es: seq<Entry>, g: Grouping, wall: int -> int)
    requires es != []
    ensures var e := es[|es| - 1]; var before := Grouped(es[..|es| - 1], g, wall);
      Grouped(es, g, wall) == if Complete(e) then before.Add(KeyOf(g, wall, e), ScanMinutes(wall, e)) else before
  {
    var e := es[|es| - 1];
    var ps := Durations(es[..|es| - 1], g, wall);
    if Complete(e) {
      var qs := ps + [(KeyOf(g, wall, e), ScanMinutes(wall, e))];
      assert Durations(es, g, wall) == qs;
      assert qs[..|qs| - 1] == ps;
      assert Last(qs) == (KeyOf(g, wall, e), ScanMinutes(wall, e));
    } else {
      assert Durations(es, g, wall) == ps;
    }
  }

  /** Reference definition: the minutes of the complete entries whose key is `k`. */
  function MinutesAt(es: seq<Entry>, g: Grouping, wall: int -> int, k: int): int
  {
    if es == [] then 0
    else
      var e := es[|es| - 1];
      MinutesAt(es[..|es| - 1], g, wall, k) + (if Complete(e) && KeyOf(g, wall, e) == k then ScanMinutes(wall, e) else 0)
  }

  /** Some complete entry has key `k`. */
  predicate Occurs(es: seq<Entry>, g: Grouping, wall: int -> int, k: int)
  {
    exists i :: 0 <= i < |es| && Complete(es[i]) && KeyOf(g, wall, es[i]) == k
  }

  /** A reported best: `(key or None, minutes)`. */
  datatype ScanBest = ScanBest(key: Option<int>, minutes: int)

  /** `key = max(d, key=d.get, default=None)`, then `(key, int(d.get(key, 0)))`. */
  function Pick(t: Tally<int>): (b: ScanBest)
    requires t.Valid()
    ensures b.key.None? <==> t.keys == []
    ensures b.key.None? ==> b.minutes == 0
    ensures b.key.Some? ==> b.key.value in t.sums && b.minutes == t.sums[b.key.value]
    ensures b.key.Some? ==> forall k :: k in t.sums ==> t.sums[k] <= b.minutes
    ensures b.key.Some? ==> AheadOfEqual(t.keys, t.sums, b.key.value)
  {
    match t.ArgMax()
    case None => ScanBest(None, 0)
    case Some(k) => ScanBest(Some(k), t.sums[k])
  }

  /** The outcome of get_best_from_start on the fetched entries; None when it raises. */
  function BestOf(es: seq<Entry>, wall: int -> int): Option<(ScanBest, ScanBest)>
  {
    if es == [] then Some((ScanBest(None, 0), ScanBest(None, 0)))
    else if HasNonObject(es) then None
    else Some((Pick(Grouped(es, ByDay, wall)), Pick(Grouped(es, ByWeek, wall))))
  }

  /** The scan's last step: a complete entry appends its pair, any other appends nothing. */
  lemma DurationsLast(es: seq<Entry>, g: Grouping, wall: int -> int)
    requires es != []
    ensures var e := es[|es| - 1]; var ps := Durations(es[..|es| - 1], g, wall);
      Durations(es, g, wall) == if Complete(e) then ps + [(KeyOf(g, wall, e), ScanMinutes(wall, e))] else ps
  {
    var ps := Durations(es[..|es| - 1], g, wall);
    assert ps + [] == ps;
  }

  lemma {:induction false} DurationsSumFor(es: seq<Entry>, g: Grouping, wall: int -> int, k: int)
    ensures SumFor(Durations(es, g, wall), k) == MinutesAt(es, g, wall, k)
  {
    if es != [] {
      var e := es[|es| - 1];
      DurationsSumFor(es[..|es| - 1], g, wall, k);
      DurationsLast(es, g, wall);
      if Complete(e) {
        AppendPair(Durations(es[..|es| - 1], g, wall), (KeyOf(g, wall, e), ScanMinutes(wall, e)), k);
      }
    }
  }

  lemma {:induction false} DurationsKeys(es: seq<Entry>, g: Grouping, wall: int -> int, k: int)
    ensures k in KeysOf(Durations(es, g, wall)) <==> Occurs(es, g, wall, k)
  {
    if es != [] {
      var init := es[..|es| - 1];
      var e := es[|es| - 1];
      DurationsKeys(init, g, wall, k);
      DurationsLast(es, g, wall);
      if Complete(e) {
        AppendPair(Durations(init, g, wall), (KeyOf(g, wall, e), ScanMinutes(wall, e)), k);
      }
      OccursLast(es, g, wall, k);
    }
  }

  lemma OccursLast(es: seq<Entry>, g: Grouping, wall: int -> int, k: int)
    requires es != []
    ensures var e := es[|es| - 1];
      Occurs(es, g, wall, k) <==> Occurs(es[..|es| - 1], g, wall, k) || (Complete(e) && KeyOf(g, wall, e) == k)
  {
    var init := es[..|es| - 1];
    if Occurs(es, g, wall, k) && !Occurs(init, g, wall, k) {
      var i :| 0 <= i < |es| && Complete(es[i]) && KeyOf(g, wall, es[i]) == k;
      assert i == |es| - 1;
    }
    if Occurs(init, g, wall, k) {
      var i :| 0 <= i < |init| && Complete(init[i]) && KeyOf(g, wall, init[i]) == k;
      assert es[i] == init[i];
    }
  }

  lemma {:induction false} DurationsTotal(es: seq<Entry>, g: Grouping, wall: int -> int)
    ensures SumValues(Durations(es, g, wall)) == ScanSum(es, wall)
  {
    if es != [] {
      var e := es[|es| - 1];
      DurationsTotal(es[..|es| - 1], g, wall);
      DurationsLast(es, g, wall);
      if Complete(e) {
        AppendPair(Durations(es[..|es| - 1], g, wall), (KeyOf(g, wall, e), ScanMinutes(wall, e)), 0);
      }
    }
  }

  /**
   * The scan's pairs against the reference definitions: per key they sum to
   * the minutes of the entries with that key, a key occurs iff some complete
   * entry has it, and all pairs together sum to the scan's minutes.
   */
  lemma DurationsMatchEntries(es: seq<Entry>, g: Grouping, wall: int -> int, k: int)
    ensures SumFor(Durations(es, g, wall), k) == MinutesAt(es, g, wall, k)
    ensures k in KeysOf(Durations(es, g, wall)) <==> Occurs(es, g, wall, k)
    ensures SumValues(Durations(es, g, wall)) == ScanSum(es, wall)
  {
    DurationsSumFor(es, g, wall, k);
    DurationsKeys(es, g, wall, k);
    DurationsTotal(es, g, wall);
  }

  /** One iteration of the scan over a prefix of the entries. */
  lemma GroupedPrefixStep(es: seq<Entry>, i: int, g: Grouping, wall: int -> int)
    requires 0 <= i < |es|
    ensures Grouped(es[..i + 1], g, wall) ==
      if Complete(es[i]) then Grouped(es[..i], g, wall).Add(KeyOf(g, wall, es[i]), ScanMinutes(wall, es[i]))
      else Grouped(es[..i], g, wall)
  {
    var seen := es[..i + 1];
    assert seen[..i] == es[..i] && seen[i] == es[i];
    GroupedStep(seen, g, wall);
  }

  /** An object entry extends a prefix free of non-objects by one more. */
  lemma ObjectPrefix(es: seq<Entry>, i: int)
    requires 0 <= i < |es| && !es[i].NotAnObject?
    requires !HasNonObject(es[..i])
    ensures !HasNonObject(es[..i + 1])
  {
    assert forall j :: 0 <= j < i + 1 ==> es[..i + 1][j] == es[j];
  }

  /**
   * Each bucket holds the minutes of exactly the complete entries that fall
   * on its day (or in its week), and a key is present iff such an entry exists.
   */
  lemma BucketHoldsItsEntries(es: seq<Entry>, g: Grouping, wall: int -> int, k: int)
    ensures k in Grouped(es, g, wall).sums <==> Occurs(es, g, wall, k)
    ensures k in Grouped(es, g, wall).sums ==> Grouped(es, g, wall).sums[k] == MinutesAt(es, g, wall, k)
  {
    OfPairsAt(Durations(es, g, wall), k);
    DurationsMatchEntries(es, g, wall, k);
  }

  /**
   * Every entry adds the same minutes to both dicts, so all days and all
   * weeks hold the same total; it is total_minutes' sum when no entry spans
   * a change of the UTC offset.
   */
  lemma DayAndWeekTotalsAgree(es: seq<Entry>, wall: int -> int)
    ensures Grouped(es, ByDay, wall).Total() == Grouped(es, ByWeek, wall).Total() == ScanSum(es, wall)
    ensures (forall i :: 0 <= i < |es| ==> SteadyOffset(wall, es[i])) ==>
      Grouped(es, ByDay, wall).Total() == SumMinutes(es)
  {
    OfPairsTotal(Durations(es, ByDay, wall));
    DurationsMatchEntries(es, ByDay, wall, 0);
    OfPairsTotal(Durations(es, ByWeek, wall));
    DurationsMatchEntries(es, ByWeek, wall, 0);
    if forall i :: 0 <= i < |es| ==> SteadyOffset(wall, es[i]) {
      ScanSumElapsed(es, wall);
    }
  }

  /**
   * The reported best day (week) is a day (week) with an entry, its minutes
   * are that bucket's, and no bucket holds more; with no complete entry
   * there is no key and 0 minutes.
   */
  lemma BestIsLargestBucket(es: seq<Entry>, wall: int -> int, g: Grouping)
    requires BestOf(es, wall).Some?
    ensures var b := if g == ByDay then BestOf(es, wall).value.0 else BestOf(es, wall).value.1;
      && (b.key.None? <==> forall i :: 0 <= i < |es| ==> !Complete(es[i]))
      && (b.key.None? ==> b.minutes == 0)
      && (b.key.Some? ==> Occurs(es, g, wall, b.key.value) && b.minutes == MinutesAt(es, g, wall, b.key.value))
      && (b.key.Some? ==> forall k :: Occurs(es, g, wall, k) ==> MinutesAt(es, g, wall, k) <= b.minutes)
  {
    var b := if g == ByDay then BestOf(es, wall).value.0 else BestOf(es, wall).value.1;
    if es != [] {
      var t := Grouped(es, g, wall);
      assert b == Pick(t);
      if b.key.Some? {
        BucketHoldsItsEntries(es, g, wall, b.key.value);
        forall k | Occurs(es, g, wall, k) ensures MinutesAt(es, g, wall, k) <= b.minutes {
          BucketHoldsItsEntries(es, g, wall, k);
        }
        var i :| 0 <= i < |es| && Complete(es[i]) && KeyOf(g, wall, es[i]) == b.key.value;
      } else {
        forall i | 0 <= i < |es| ensures !Complete(es[i]) {
          if Complete(es[i]) {
            BucketHoldsItsEntries(es, g, wall, KeyOf(g, wall, es[i]));
            assert false;
          }
        }
      }
    }
  }
}

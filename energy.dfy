/**
 * The meter differencing of energy_dashboard.py: meter readings sorted by
 * date, each one's consumption measured against the reading before it
 * (the first against the starting reading), summed per calendar month;
 * the month before the current one; and the cheapest month.
 *
 * Readings are whole kWh and prices whole cents per kWh, so a month's cost
 * is the exact integer `usage * price` in cents.
 */
module Energy {
  import opened Wrappers
  import opened Buckets

  /* ---- calendar ---- */

  datatype Date = Date(year: int, month: int, day: int)

  /** The `"%Y-%m"` key of a date. */
  datatype Month = Month(year: int, month: int)

  function MonthOf(d: Date): Month {
    Month(d.year, d.month)
  }

  predicate IsLeapYear(y: int) {
    y % 4 == 0 && (y % 100 != 0 || y % 400 == 0)
  }

  /** Gregorian month lengths, as Python's `datetime` uses. */
  function DaysInMonth(y: int, m: int): (n: int)
    requires 1 <= m <= 12
    ensures 28 <= n <= 31
    ensures n == 29 <==> m == 2 && IsLeapYear(y)
  {
    if m == 2 then (if IsLeapYear(y) then 29 else 28)
    else if m == 4 || m == 6 || m == 9 || m == 11 then 30
    else 31
  }

  predicate ValidDate(d: Date) {
    1 <= d.month <= 12 && 1 <= d.day <= DaysInMonth(d.year, d.month)
  }

  /** `d + timedelta(days=1)`. */
  function DayAfter(d: Date): (n: Date)
    requires ValidDate(d)
    ensures ValidDate(n)
  {
    if d.day < DaysInMonth(d.year, d.month) then Date(d.year, d.month, d.day + 1)
    else if d.month < 12 then Date(d.year, d.month + 1, 1)
    else Date(d.year + 1, 1, 1)
  }

  /** `d - timedelta(days=1)`: the one date whose next day is `d`. */
  function DayBefore(d: Date): (p: Date)
    requires ValidDate(d)
    ensures ValidDate(p) && DayAfter(p) == d
  {
    if d.day > 1 then Date(d.year, d.month, d.day - 1)
    else if d.month > 1 then Date(d.year, d.month - 1, DaysInMonth(d.year, d.month - 1))
    else Date(d.year - 1, 12, 31)
  }

  lemma DayBeforeAfter(d: Date)
    requires ValidDate(d)
    ensures DayBefore(DayAfter(d)) == d
  {
  }

  /** Months in calendar order. */
  predicate MonthLt(a: Month, b: Month) {
    a.year < b.year || (a.year == b.year && a.month < b.month)
  }

  predicate MonthLe(a: Month, b: Month) {
    a == b || MonthLt(a, b)
  }

  /**
   * `(now.replace(day=1) - timedelta(days=1)).strftime("%Y-%m")`
   * (energy_dashboard.py:69): the month of the day before the first of this
   * month, which is the previous calendar month.
   */
  function LastMonth(now: Date): (k: Month)
    requires ValidDate(now)
    ensures k == if now.month == 1 then Month(now.year - 1, 12) else Month(now.year, now.month - 1)
    ensures MonthLt(k, MonthOf(now))
    ensures forall x: Month :: 1 <= x.month <= 12 && MonthLt(k, x) ==> MonthLe(MonthOf(now), x)
  {
    MonthOf(DayBefore(Date(now.year, now.month, 1)))
  }

  /* ---- readings and their order ---- */

  /** A `(datetime, reading_kwh)` record; Python compares these as tuples. */
  datatype Reading = Reading(date: Date, kwh: int)

  predicate ReadingLe(a: Reading, b: Reading) {
    var x, y := a.date, b.date;
    || x.year < y.year
    || (x.year == y.year && x.month < y.month)
    || (x.year == y.year && x.month == y.month && x.day < y.day)
    || (x == y && a.kwh <= b.kwh)
  }

  predicate SortedReadings(s: seq<Reading>) {
    forall i, j :: 0 <= i < j < |s| ==> ReadingLe(s[i], s[j])
  }

  /** Whatever is inserted after a sorted list's head is no smaller than the head. */
  lemma HeadBelowInsert(h: Reading, r: Reading, tail: seq<Reading>, t: seq<Reading>)
    requires SortedReadings([h] + tail) && ReadingLe(h, r)
    requires multiset(t) == multiset(tail) + multiset{r}
    ensures forall j :: 0 <= j < |t| ==> ReadingLe(h, t[j])
  {
    forall j | 0 <= j < |t| ensures ReadingLe(h, t[j]) {
      assert t[j] in multiset(t);
      if t[j] != r {
        assert t[j] in multiset(tail);
        var k :| 0 <= k < |tail| && tail[k] == t[j];
        var whole := [h] + tail;
        assert whole[0] == h && whole[k + 1] == t[j];
        assert ReadingLe(whole[0], whole[k + 1]);
      }
    }
  }

  function Insert(r: Reading, s: seq<Reading>): (t: seq<Reading>)
    requires SortedReadings(s)
    ensures SortedReadings(t) && multiset(t) == multiset(s) + multiset{r}
  {
    if s == [] then [r]
    else if ReadingLe(r, s[0]) then [r] + s
    else
      var rest := Insert(r, s[1..]);
      assert s == [s[0]] + s[1..];
      HeadBelowInsert(s[0], r, s[1..], rest);
      [s[0]] + rest
  }

  /** `records.sort()`: the readings in ascending order, as a permutation of the input. */
  function SortReadings(s: seq<Reading>): (t: seq<Reading>)
    ensures SortedReadings(t) && multiset(t) == multiset(s)
  {
    if s == [] then []
    else
      assert s == [s[0]] + s[1..];
      Insert(s[0], SortReadings(s[1..]))
  }

  lemma ReadingLeAntisymmetric(a: Reading, b: Reading)
    requires ReadingLe(a, b) && ReadingLe(b, a)
    ensures a == b
  {
  }

  /** The head of a sorted list is below everything in it. */
  lemma SortedHeadLeast(s: seq<Reading>, x: Reading)
    requires SortedReadings(s) && x in multiset(s)
    ensures ReadingLe(s[0], x)
  {
    var i :| 0 <= i < |s| && s[i] == x;
    if i > 0 {
      assert ReadingLe(s[0], s[i]);
    }
  }

  /**
   * Readings are totally ordered, so there is only one sorted arrangement of
   * them: any sorting algorithm gives the list SortReadings gives.
   */
  lemma {:induction false} SortedUnique(a: seq<Reading>, b: seq<Reading>)
    requires SortedReadings(a) && SortedReadings(b) && multiset(a) == multiset(b)
    ensures a == b
  {
    if a == [] {
      assert |b| == |multiset(b)| == 0;
    } else {
      assert a[0] in multiset(a);
      assert b != [];
      assert b[0] in multiset(b);
      SortedHeadLeast(a, b[0]);
      SortedHeadLeast(b, a[0]);
      ReadingLeAntisymmetric(a[0], b[0]);
      assert a == [a[0]] + a[1..];
      assert b == [b[0]] + b[1..];
      assert multiset(a[1..]) == multiset(a) - multiset{a[0]};
      assert multiset(b[1..]) == multiset(b) - multiset{b[0]};
      SortedUnique(a[1..], b[1..]);
    }
  }

  /* ---- differencing ---- */

  /** The value of `previous` after the records `rs`. */
  function PrevReading(rs: seq<Reading>, startKwh: int): int {
    if rs == [] then startKwh else Last(rs).kwh
  }

  /** The `(month_key, usage)` pairs the loop adds to `monthly_usage`, in order. */
  function Deltas(rs: seq<Reading>, startKwh: int): (ps: seq<(Month, int)>)
    ensures |ps| == |rs|
  {
    if rs == [] then []
    else
      var init := rs[..|rs| - 1];
      Deltas(init, startKwh) + [(MonthOf(Last(rs).date), Last(rs).kwh - PrevReading(init, startKwh))]
  }

  /** Each reading is measured against the one before it, the first against the start reading. */
  lemma {:induction false} DeltaAt(rs: seq<Reading>, startKwh: int, i: int)
    requires 0 <= i < |rs|
    ensures Deltas(rs, startKwh)[i] ==
      (MonthOf(rs[i].date), rs[i].kwh - (if i == 0 then startKwh else rs[i - 1].kwh))
  {
    var init := rs[..|rs| - 1];
    if i < |rs| - 1 {
      DeltaAt(init, startKwh, i);
    }
  }

  /** The deltas telescope: together they are the last reading minus the start reading. */
  lemma {:induction false} DeltasTelescope(rs: seq<Reading>, startKwh: int)
    ensures SumValues(Deltas(rs, startKwh)) == PrevReading(rs, startKwh) - startKwh
  {
    if rs != [] {
      var init := rs[..|rs| - 1];
      var ps := Deltas(rs, startKwh);
      assert ps[..|ps| - 1] == Deltas(init, startKwh);
      DeltasTelescope(init, startKwh);
    }
  }

  /** One iteration of the summary loop over a prefix of the sorted records. */
  lemma DeltasPrefixStep(rs: seq<Reading>, startKwh: int, i: int)
    requires 0 <= i < |rs|
    ensures Deltas(rs[..i + 1], startKwh) ==
      Deltas(rs[..i], startKwh) + [(MonthOf(rs[i].date), rs[i].kwh - PrevReading(rs[..i], startKwh))]
    ensures PrevReading(rs[..i + 1], startKwh) == rs[i].kwh
  {
    var seen := rs[..i + 1];
    assert seen[..i] == rs[..i] && Last(seen) == rs[i];
  }

  /**
   * One iteration of the summary loop: adding this reading's delta to the
   * usage so far gives the usage of one more reading, and it becomes the
   * previous reading.
   */
  lemma UsageStep(rs: seq<Reading>, startKwh: int, i: int, usage: Tally<Month>, previous: int)
    requires 0 <= i < |rs|
    requires usage == OfPairs(Deltas(rs[..i], startKwh))
    requires previous == PrevReading(rs[..i], startKwh)
    ensures usage.Valid()
    ensures usage.Add(MonthOf(rs[i].date), rs[i].kwh - previous) == OfPairs(Deltas(rs[..i + 1], startKwh))
    ensures PrevReading(rs[..i + 1], startKwh) == rs[i].kwh
  {
    DeltasPrefixStep(rs, startKwh, i);
    OfPairsSnoc(Deltas(rs[..i], startKwh), Deltas(rs[..i + 1], startKwh), MonthOf(rs[i].date), rs[i].kwh - previous);
  }

  /**
   * get_monthly_summary (energy_dashboard.py:22-33): the usage per month of
   * the sorted readings' deltas, and the cost per month in cents.
   */
  method GetMonthlySummary(entries: seq<Reading>, startKwh: int, priceCents: int)
    returns (usage: Tally<Month>, costs: Tally<Month>)
    ensures usage == MonthlyUsage(entries, startKwh)
    ensures costs.Valid() && costs.keys == usage.keys && costs.sums.Keys == usage.sums.Keys
    ensures forall k :: k in usage.sums ==> costs.sums[k] == usage.sums[k] * priceCents
  {
    var records := SortReadings(entries);
    usage := EmptyTally();
    var previous := startKwh;
    for i := 0 to |records|
      invariant usage == OfPairs(Deltas(records[..i], startKwh))
      invariant previous == PrevReading(records[..i], startKwh)
    {
      UsageStep(records, startKwh, i, usage, previous);
      usage := usage.Add(MonthOf(records[i].date), records[i].kwh - previous);
      previous := records[i].kwh;
    }
    assert records[..|records|] == records;
    costs := usage.Scale(priceCents);
  }

  /** The usage map get_monthly_summary returns. */
  function MonthlyUsage(entries: seq<Reading>, startKwh: int): (t: Tally<Month>)
    ensures t.Valid()
  {
    OfPairs(Deltas(SortReadings(entries), startKwh))
  }

  /** `entries[i]` is a greatest reading: no reading comes after it by date, then by value. */
  predicate Latest(entries: seq<Reading>, i: int) {
    0 <= i < |entries| && forall j :: 0 <= j < |entries| ==> ReadingLe(entries[j], entries[i])
  }

  /**
   * Summed over all months, usage is the latest reading (by date, then by
   * value) minus the start reading; with no readings the map is empty.
   */
  lemma UsageTelescopes(entries: seq<Reading>, startKwh: int)
    ensures entries == [] ==> MonthlyUsage(entries, startKwh).keys == []
    ensures entries != [] ==>
      exists i :: Latest(entries, i) &&
        MonthlyUsage(entries, startKwh).Total() == entries[i].kwh - startKwh
  {
    SortedUsageTelescopes(SortReadings(entries), entries, startKwh);
  }

  /** UsageTelescopes for any sorted permutation of the readings. */
  lemma SortedUsageTelescopes(rs: seq<Reading>, entries: seq<Reading>, startKwh: int)
    requires SortedReadings(rs) && multiset(rs) == multiset(entries)
    ensures entries == [] ==> OfPairs(Deltas(rs, startKwh)).keys == []
    ensures entries != [] ==>
      exists i :: Latest(entries, i) &&
        OfPairs(Deltas(rs, startKwh)).Total() == entries[i].kwh - startKwh
  {
    if entries == [] {
      assert rs == [];
    } else {
      SortedLastGreatest(rs, entries);
      UsageTotal(rs, startKwh);
    }
  }

  /** The usage of a list of readings sums to its last reading minus the start reading. */
  lemma UsageTotal(rs: seq<Reading>, startKwh: int)
    ensures OfPairs(Deltas(rs, startKwh)).Total() == PrevReading(rs, startKwh) - startKwh
  {
    OfPairsTotal(Deltas(rs, startKwh));
    DeltasTelescope(rs, startKwh);
  }

  /** A reading at position `j` of one list occurs somewhere in any permutation of it. */
  lemma PermutationIndex(a: seq<Reading>, b: seq<Reading>, j: int) returns (i: int)
    requires multiset(a) == multiset(b) && 0 <= j < |a|
    ensures 0 <= i < |b| && b[i] == a[j]
  {
    assert a[j] in multiset(b);
    i :| 0 <= i < |b| && b[i] == a[j];
  }

  /** The last reading of a sorted permutation is a greatest reading of the original list. */
  lemma SortedLastGreatest(rs: seq<Reading>, entries: seq<Reading>)
    requires SortedReadings(rs) && multiset(rs) == multiset(entries) && entries != []
    ensures rs != []
    ensures exists i :: Latest(entries, i) && entries[i] == Last(rs)
  {
    assert |rs| == |entries| by {
      assert |multiset(rs)| == |multiset(entries)|;
    }
    var i := PermutationIndex(rs, entries, |rs| - 1);
    forall j | 0 <= j < |entries| ensures ReadingLe(entries[j], entries[i]) {
      var k := PermutationIndex(entries, rs, j);
      if k < |rs| - 1 {
        assert ReadingLe(rs[k], rs[|rs| - 1]);
      }
    }
  }

  /** A month has a usage entry iff some reading falls in it. */
  lemma UsageKeys(entries: seq<Reading>, startKwh: int, k: Month)
    ensures k in MonthlyUsage(entries, startKwh).sums <==>
      exists i :: 0 <= i < |entries| && MonthOf(entries[i].date) == k
  {
    PermutedUsageKeys(SortReadings(entries), entries, startKwh, k);
  }

  /** UsageKeys for any permutation of the readings. */
  lemma PermutedUsageKeys(rs: seq<Reading>, entries: seq<Reading>, startKwh: int, k: Month)
    requires multiset(rs) == multiset(entries)
    ensures k in OfPairs(Deltas(rs, startKwh)).sums <==>
      exists i :: 0 <= i < |entries| && MonthOf(entries[i].date) == k
  {
    var ps := Deltas(rs, startKwh);
    OfPairsAt(ps, k);
    KeysOfIndex(ps, k);
    if k in OfPairs(ps).sums {
      var j :| 0 <= j < |ps| && ps[j].0 == k;
      DeltaAt(rs, startKwh, j);
      var i := PermutationIndex(rs, entries, j);
      assert MonthOf(entries[i].date) == k;
    }
    if exists i :: 0 <= i < |entries| && MonthOf(entries[i].date) == k {
      var i :| 0 <= i < |entries| && MonthOf(entries[i].date) == k;
      var j := PermutationIndex(entries, rs, i);
      DeltaAt(rs, startKwh, j);
      assert ps[j].0 == k;
    }
  }

  /** Strictly increasing months: each at most once, in calendar order. */
  predicate MonthsIncreasing(ks: seq<Month>) {
    forall i, j :: 0 <= i < j < |ks| ==> MonthLt(ks[i], ks[j])
  }

  lemma {:induction false} OfPairsIncreasing(ps: seq<(Month, int)>)
    requires forall i, j :: 0 <= i < j < |ps| ==> MonthLe(ps[i].0, ps[j].0)
    ensures MonthsIncreasing(OfPairs(ps).keys)
  {
    if ps != [] {
      var init := ps[..|ps| - 1];
      var t := OfPairs(init);
      var k := Last(ps).0;
      OfPairsIncreasing(init);
      assert OfPairs(ps) == t.Add(k, Last(ps).1);
      if k !in t.sums {
        forall i | 0 <= i < |t.keys| ensures MonthLt(t.keys[i], k) {
          assert t.keys[i] in t.sums && t.keys[i] != k;
          EarlierKeyBelow(ps, t.keys[i]);
        }
        AppendIncreasing(t.keys, k);
        assert OfPairs(ps).keys == t.keys + [k];
      } else {
        assert OfPairs(ps).keys == t.keys;
      }
    }
  }

  /** A month already in the dict before the last pair is no later than the last pair's month. */
  lemma EarlierKeyBelow(ps: seq<(Month, int)>, key: Month)
    requires forall i, j :: 0 <= i < j < |ps| ==> MonthLe(ps[i].0, ps[j].0)
    requires ps != [] && key in OfPairs(ps[..|ps| - 1]).sums
    ensures MonthLe(key, ps[|ps| - 1].0)
  {
    var init := ps[..|ps| - 1];
    OfPairsKeys(init);
    KeysOfIndex(init, key);
    var j :| 0 <= j < |init| && init[j].0 == key;
    assert init[j] == ps[j];
  }

  /** Appending a month later than every key keeps the keys strictly increasing. */
  lemma AppendIncreasing(ks: seq<Month>, k: Month)
    requires MonthsIncreasing(ks)
    requires forall i :: 0 <= i < |ks| ==> MonthLt(ks[i], k)
    ensures MonthsIncreasing(ks + [k])
  {
  }

  /** Months appear in the usage map in calendar order, each once. */
  lemma UsageMonthsIncreasing(entries: seq<Reading>, startKwh: int)
    ensures var ks := MonthlyUsage(entries, startKwh).keys;
      forall i, j :: 0 <= i < j < |ks| ==> MonthLt(ks[i], ks[j])
  {
    var rs := SortReadings(entries);
    var ps := Deltas(rs, startKwh);
    forall i, j | 0 <= i < j < |ps| ensures MonthLe(ps[i].0, ps[j].0) {
      DeltaAt(rs, startKwh, i);
      DeltaAt(rs, startKwh, j);
      assert ReadingLe(rs[i], rs[j]);
    }
    OfPairsIncreasing(ps);
    assert MonthlyUsage(entries, startKwh) == OfPairs(ps);
  }

  /* ---- the cheapest month ---- */

  /** `best_month`: a month key and its cost, `(None, 0)` when there is none. */
  datatype BestMonth = BestMonth(month: Option<Month>, cost: int)

  /**
   * `min(costs.items(), key=lambda x: x[1], default=(None, 0))`
   * (energy_dashboard.py:70): the first month, in dict order, of least cost.
   */
  function CheapestMonth(costs: Tally<Month>): (b: BestMonth)
    requires costs.Valid()
    ensures b.month.None? <==> costs.keys == []
    ensures b.month.None? ==> b.cost == 0
    ensures b.month.Some? ==> b.month.value in costs.sums && b.cost == costs.sums[b.month.value]
    ensures b.month.Some? ==> forall k :: k in costs.sums ==> b.cost <= costs.sums[k]
    ensures b.month.Some? ==>
      exists i :: 0 <= i < |costs.keys| && costs.keys[i] == b.month.value &&
        forall j :: 0 <= j < i ==> b.cost < costs.sums[costs.keys[j]]
  {
    if costs.keys == [] then BestMonth(None, 0)
    else
      var i := MinIndex(costs.keys, costs.sums);
      BestMonth(Some(costs.keys[i]), costs.sums[costs.keys[i]])
  }

  /** The cheapest month, when there is one, always has a usage entry to draw. */
  lemma CheapestMonthHasUsage(entries: seq<Reading>, startKwh: int, priceCents: int, k: Month)
    requires CheapestMonth(MonthlyUsage(entries, startKwh).Scale(priceCents)).month == Some(k)
    ensures k in MonthlyUsage(entries, startKwh).sums
    ensures exists i :: 0 <= i < |entries| && MonthOf(entries[i].date) == k
  {
    UsageKeys(entries, startKwh, k);
  }
}

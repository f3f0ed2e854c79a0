/**
 * Time entries as the toggl service returns them, and the duration reducer
 * `total_minutes` of toggl.py.  Instants are whole seconds since the Unix
 * epoch (UTC).
 */
module TogglEntries {
  import opened Wrappers

  /**
   * One timestamp field of an entry: missing or empty (falsy in Python),
   * present but rejected by `datetime.fromisoformat`, or a parsed instant.
   */
  datatype Stamp = Absent | Malformed | At(seconds: int)

  /**
   * One element of the JSON array.  `NotAnObject` stands for an element that
   * is not a JSON object: calling `.get` on it raises outside the `try`.
   */
  datatype Entry = Record(start: Stamp, stop: Stamp) | NotAnObject

  /** An entry that counts: an object whose start and stop both parse. */
  predicate Complete(e: Entry) {
    e.Record? && e.start.At? && e.stop.At?
  }

  /** `int(seconds / 60)`: float division, then truncation toward zero. */
  function TruncMinutes(seconds: int): (m: int)
    ensures seconds >= 0 ==> 0 <= m * 60 <= seconds < m * 60 + 60
    ensures seconds < 0 ==> m * 60 - 60 < seconds <= m * 60 <= 0
  {
    if seconds >= 0 then seconds / 60 else -((-seconds) / 60)
  }

  /**
   * What one entry adds to `total` in total_minutes: nothing without both
   * stamps, otherwise the whole minutes between them, rounded toward zero.
   */
  function Contribution(e: Entry): (m: int)
    ensures !Complete(e) ==> m == 0
    ensures Complete(e) && e.start.seconds <= e.stop.seconds ==>
      0 <= m * 60 <= e.stop.seconds - e.start.seconds < m * 60 + 60
    ensures Complete(e) && e.stop.seconds < e.start.seconds ==>
      m * 60 - 60 < e.stop.seconds - e.start.seconds <= m * 60 <= 0
  {
    if Complete(e) then TruncMinutes(e.stop.seconds - e.start.seconds) else 0
  }

  /** The sum of the contributions of the entries, taken in order. */
  function SumMinutes(es: seq<Entry>): int
  {
    if es == [] then 0 else SumMinutes(es[..|es| - 1]) + Contribution(es[|es| - 1])
  }

  /** Some element makes `e.get` raise. */
  predicate HasNonObject(es: seq<Entry>) {
    exists i :: 0 <= i < |es| && es[i].NotAnObject?
  }

  /** The outcome of total_minutes: its value, or None when it raises. */
  function Total(es: seq<Entry>): Option<int> {
    if HasNonObject(es) then None else Some(SumMinutes(es))
  }

  /** total_minutes (toggl.py:59-69). */
  method TotalMinutes(entries: seq<Entry>) returns (total: Option<int>)
    ensures total == Total(entries)
    ensures total.Some? && entries == [] ==> total.value == 0
  {
    var sum := 0;
    for i := 0 to |entries|
      invariant sum == SumMinutes(entries[..i])
      invariant forall j :: 0 <= j < i ==> !entries[j].NotAnObject?
    {
      var e := entries[i];
      assert entries[..i + 1][..i] == entries[..i];
      if e.NotAnObject? {
        return None;
      }
      if e.start.At? && e.stop.At? {
        sum := sum + TruncMinutes(e.stop.seconds - e.start.seconds);
      }
    }
    assert entries[..|entries|] == entries;
    return Some(sum);
  }

  /** Truncation toward zero is symmetric, unlike Dafny's (and Python's) floor division. */
  lemma TruncMinutesOdd(seconds: int)
    ensures TruncMinutes(-seconds) == -TruncMinutes(seconds)
  {
  }

  lemma {:induction false} SumMinutesAppend(a: seq<Entry>, b: seq<Entry>)
    ensures SumMinutes(a + b) == SumMinutes(a) + SumMinutes(b)
  {
    if b != [] {
      var b' := b[..|b| - 1];
      assert (a + b)[..|a + b| - 1] == a + b';
      SumMinutesAppend(a, b');
    } else {
      assert a + b == a;
    }
  }

  /** Removing one occurrence of the same entry from two permutations leaves permutations. */
  lemma RemoveMatching(a: seq<Entry>, b: seq<Entry>, k: int)
    requires multiset(a) == multiset(b) && a != [] && 0 <= k < |b| && b[k] == a[|a| - 1]
    ensures multiset(a[..|a| - 1]) == multiset(b[..k] + b[k + 1..])
  {
    var x := a[|a| - 1];
    assert a == a[..|a| - 1] + [x];
    assert b == b[..k] + [x] + b[k + 1..];
    assert multiset(a[..|a| - 1]) == multiset(a) - multiset{x};
    assert multiset(b[..k] + b[k + 1..]) == multiset(b) - multiset{x};
  }

  /** The sum with one entry left out, plus that entry's minutes, is the whole sum. */
  lemma SumMinutesRemove(b: seq<Entry>, k: int)
    requires 0 <= k < |b|
    ensures SumMinutes(b) == SumMinutes(b[..k] + b[k + 1..]) + Contribution(b[k])
  {
    var p, q := b[..k], b[k + 1..];
    calc {
      SumMinutes(b);
      == { assert b == b[..k + 1] + q; SumMinutesAppend(b[..k + 1], q); }
      SumMinutes(b[..k + 1]) + SumMinutes(q);
      == { assert b[..k + 1][..k] == p; }
      SumMinutes(p) + Contribution(b[k]) + SumMinutes(q);
      == { SumMinutesAppend(p, q); }
      SumMinutes(p + q) + Contribution(b[k]);
    }
  }

  /** The reducer is a plain sum: reordering the entries does not change it. */
  lemma {:induction false} SumMinutesPermutation(a: seq<Entry>, b: seq<Entry>)
    requires multiset(a) == multiset(b)
    ensures SumMinutes(a) == SumMinutes(b)
    decreases |a|
  {
    if a == [] {
      assert |b| == |multiset(b)| == 0;
    } else {
      var x := a[|a| - 1];
      assert x in multiset(b);
      var k :| 0 <= k < |b| && b[k] == x;
      RemoveMatching(a, b, k);
      SumMinutesPermutation(a[..|a| - 1], b[..k] + b[k + 1..]);
      SumMinutesRemove(b, k);
    }
  }

  /** Non-objects do not survive reordering either, so Total is order-independent. */
  lemma TotalPermutation(a: seq<Entry>, b: seq<Entry>)
    requires multiset(a) == multiset(b)
    ensures Total(a) == Total(b)
  {
    SumMinutesPermutation(a, b);
    if HasNonObject(a) {
      var i :| 0 <= i < |a| && a[i].NotAnObject?;
      assert a[i] in multiset(b);
    }
    if HasNonObject(b) {
      var i :| 0 <= i < |b| && b[i].NotAnObject?;
      assert b[i] in multiset(a);
    }
  }

  /** Entries with no negative duration give a total that is not negative. */
  lemma {:induction false} SumMinutesNonNegative(es: seq<Entry>)
    requires forall i :: 0 <= i < |es| && Complete(es[i]) ==> es[i].start.seconds <= es[i].stop.seconds
    ensures SumMinutes(es) >= 0
  {
    if es != [] {
      SumMinutesNonNegative(es[..|es| - 1]);
    }
  }

  /** A stop before its start is not clamped: it lowers the total. */
  lemma NegativeDurationLowersTotal()
    ensures SumMinutes([Record(At(0), At(5400)), Record(At(7200), At(0))]) == -30
  {
    var es := [Record(At(0), At(5400)), Record(At(7200), At(0))];
    assert es[..1] == [Record(At(0), At(5400))];
    assert es[..1][..0] == [];
  }
}

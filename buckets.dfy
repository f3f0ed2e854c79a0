/**
 * A Python `defaultdict(int)` used as an accumulator: keys kept in insertion
 * order (the order Python iterates a dict in) together with the running sum
 * stored under each key.  Used for the day and week buckets of the toggl
 * best scanner and for the monthly usage of the energy dashboard.
 */
module Buckets {
  import opened Wrappers

  datatype Tally<K(==)> = Tally(keys: seq<K>, sums: map<K, int>) {

    /** Keys are distinct and are exactly the keys of the map. */
    predicate Valid() {
      && (forall i, j :: 0 <= i < j < |keys| ==> keys[i] != keys[j])
      && sums.Keys == (set k | k in keys)
    }

    /** `d[k] += v` on a defaultdict(int): a missing key starts at 0 and is appended to the order. */
    function Add(k: K, v: int): (t: Tally<K>)
      requires Valid()
      ensures t.Valid()
      ensures t.sums.Keys == sums.Keys + {k}
      ensures t.sums[k] == (if k in sums then sums[k] else 0) + v
      ensures forall k' :: k' in sums && k' != k ==> t.sums[k'] == sums[k']
      ensures t.keys == if k in sums then keys else keys + [k]
    {
      if k in sums then Tally(keys, sums[k := sums[k] + v])
      else Tally(keys + [k], sums[k := v])
    }

    /** The sum of all values of the dict. */
    function Total(): int
      requires Valid()
    {
      SumOver(keys, sums)
    }

    /** `{k: v * c for k, v in d.items()}`: same keys in the same order, every value scaled. */
    function Scale(c: int): (t: Tally<K>)
      requires Valid()
      ensures t.Valid() && t.keys == keys && t.sums.Keys == sums.Keys
      ensures forall k :: k in sums ==> t.sums[k] == sums[k] * c
    {
      Tally(keys, map k | k in sums :: sums[k] * c)
    }

    /** `max(d, key=d.get, default=None)`: the first key, in dict order, holding the largest value. */
    function ArgMax(): (r: Option<K>)
      requires Valid()
      ensures r.None? <==> keys == []
      ensures r.Some? ==> r.value in sums && forall k :: k in sums ==> sums[k] <= sums[r.value]
      ensures r.Some? ==> AheadOfEqual(keys, sums, r.value)
    {
      if keys == [] then None else Some(keys[MaxIndex(keys, sums)])
    }
  }

  /** `k` is one of the keys, and every key before it in `ks` holds a smaller value: ties go to the earliest key. */
  predicate AheadOfEqual<K>(ks: seq<K>, m: map<K, int>, k: K) {
    exists i :: 0 <= i < |ks| && ks[i] == k && k in m &&
      forall j :: 0 <= j < i ==> ks[j] in m && m[ks[j]] < m[k]
  }

  function EmptyTally<K(==)>(): (t: Tally<K>)
    ensures t.Valid() && t.keys == [] && t.Total() == 0
  {
    Tally([], map[])
  }

  function Last<T>(s: seq<T>): T
    requires s != []
  {
    s[|s| - 1]
  }

  function SumOver<K>(ks: seq<K>, m: map<K, int>): int
    requires forall k :: k in ks ==> k in m
  {
    if ks == [] then 0 else SumOver(ks[..|ks| - 1], m) + m[Last(ks)]
  }

  /**
   * The index Python's `max` settles on when scanning `ks` left to right and
   * replacing its candidate only by a strictly larger value.
   */
  function MaxIndex<K>(ks: seq<K>, m: map<K, int>): (i: nat)
    requires ks != [] && forall k :: k in ks ==> k in m
    ensures i < |ks|
    ensures forall j :: 0 <= j < |ks| ==> m[ks[j]] <= m[ks[i]]
    ensures forall j :: 0 <= j < i ==> m[ks[j]] < m[ks[i]]
  {
    if |ks| == 1 then 0
    else
      var b := MaxIndex(ks[..|ks| - 1], m);
      if m[Last(ks)] > m[ks[b]] then |ks| - 1 else b
  }

  /** As MaxIndex, for Python's `min`: the first index holding the smallest value. */
  function MinIndex<K>(ks: seq<K>, m: map<K, int>): (i: nat)
    requires ks != [] && forall k :: k in ks ==> k in m
    ensures i < |ks|
    ensures forall j :: 0 <= j < |ks| ==> m[ks[i]] <= m[ks[j]]
    ensures forall j :: 0 <= j < i ==> m[ks[i]] < m[ks[j]]
  {
    if |ks| == 1 then 0
    else
      var b := MinIndex(ks[..|ks| - 1], m);
      if m[Last(ks)] < m[ks[b]] then |ks| - 1 else b
  }

  /** The dict obtained by running `d[k] += v` for every pair, in order, on an empty defaultdict. */
  function OfPairs<K(==)>(ps: seq<(K, int)>): (t: Tally<K>)
    ensures t.Valid()
  {
    if ps == [] then EmptyTally() else OfPairs(ps[..|ps| - 1]).Add(Last(ps).0, Last(ps).1)
  }

  /** The keys occurring in a sequence of pairs. */
  function KeysOf<K>(ps: seq<(K, int)>): set<K>
  {
    if ps == [] then {} else KeysOf(ps[..|ps| - 1]) + {Last(ps).0}
  }

  /** The sum of all values of a sequence of pairs. */
  function SumValues<K>(ps: seq<(K, int)>): int
  {
    if ps == [] then 0 else SumValues(ps[..|ps| - 1]) + Last(ps).1
  }

  /** The sum of the values paired with key `k`. */
  function SumFor<K(==)>(ps: seq<(K, int)>, k: K): int
  {
    if ps == [] then 0
    else SumFor(ps[..|ps| - 1], k) + (if Last(ps).0 == k then Last(ps).1 else 0)
  }

  lemma {:induction false} SumOverUpdateAbsent<K>(ks: seq<K>, m: map<K, int>, k: K, x: int)
    requires forall k' :: k' in ks ==> k' in m
    requires k !in ks
    ensures SumOver(ks, m[k := x]) == SumOver(ks, m)
  {
    if ks != [] {
      SumOverUpdateAbsent(ks[..|ks| - 1], m, k, x);
    }
  }

  lemma {:induction false} SumOverUpdateOnce<K>(ks: seq<K>, m: map<K, int>, k: K, v: int)
    requires forall k' :: k' in ks ==> k' in m
    requires forall i, j :: 0 <= i < j < |ks| ==> ks[i] != ks[j]
    requires k in ks
    ensures SumOver(ks, m[k := m[k] + v]) == SumOver(ks, m) + v
  {
    var init := ks[..|ks| - 1];
    if Last(ks) == k {
      assert k !in init by {
        forall i | 0 <= i < |init| ensures init[i] != k {
          assert ks[i] != ks[|ks| - 1];
        }
      }
      SumOverUpdateAbsent(init, m, k, m[k] + v);
    } else {
      assert k in init by {
        var i :| 0 <= i < |ks| && ks[i] == k;
        assert i < |ks| - 1 && init[i] == k;
      }
      SumOverUpdateOnce(init, m, k, v);
    }
  }

  /** Adding `v` under any key raises the dict's total by exactly `v`. */
  lemma AddTotal<K>(t: Tally<K>, k: K, v: int)
    requires t.Valid()
    ensures t.Add(k, v).Total() == t.Total() + v
  {
    if k in t.sums {
      SumOverUpdateOnce(t.keys, t.sums, k, v);
    } else {
      var ks := t.keys + [k];
      assert ks[..|ks| - 1] == t.keys;
      SumOverUpdateAbsent(t.keys, t.sums, k, v);
    }
  }

  /** Accumulating pairs into a dict preserves their grand total. */
  lemma {:induction false} OfPairsTotal<K>(ps: seq<(K, int)>)
    ensures OfPairs(ps).Total() == SumValues(ps)
  {
    if ps != [] {
      OfPairsTotal(ps[..|ps| - 1]);
      AddTotal(OfPairs(ps[..|ps| - 1]), Last(ps).0, Last(ps).1);
    }
  }

  lemma {:induction false} SumForAbsent<K>(ps: seq<(K, int)>, k: K)
    requires k !in KeysOf(ps)
    ensures SumFor(ps, k) == 0
  {
    if ps != [] {
      SumForAbsent(ps[..|ps| - 1], k);
    }
  }

  /** A key is in the dict iff some pair carries it, and its value is the sum of that key's values. */
  lemma {:induction false} OfPairsAt<K>(ps: seq<(K, int)>, k: K)
    ensures k in OfPairs(ps).sums <==> k in KeysOf(ps)
    ensures k in OfPairs(ps).sums ==> OfPairs(ps).sums[k] == SumFor(ps, k)
  {
    if ps != [] {
      var init := ps[..|ps| - 1];
      OfPairsAt(init, k);
      var t := OfPairs(init);
      assert OfPairs(ps) == t.Add(Last(ps).0, Last(ps).1);
      if Last(ps).0 == k {
        if k !in t.sums {
          SumForAbsent(init, k);
        }
        assert OfPairs(ps).sums[k] == (if k in t.sums then t.sums[k] else 0) + Last(ps).1;
      } else if k in t.sums {
        assert OfPairs(ps).sums[k] == t.sums[k];
      }
    }
  }

  /** The key set of the accumulated dict is the set of keys of the pairs. */
  lemma OfPairsKeys<K>(ps: seq<(K, int)>)
    ensures OfPairs(ps).sums.Keys == KeysOf(ps)
  {
    forall k | true ensures k in OfPairs(ps).sums <==> k in KeysOf(ps) {
      OfPairsAt(ps, k);
    }
  }

  /** A key occurs in the pairs iff some position carries it. */
  lemma {:induction false} KeysOfIndex<K>(ps: seq<(K, int)>, k: K)
    ensures k in KeysOf(ps) <==> exists j :: 0 <= j < |ps| && ps[j].0 == k
  {
    if ps != [] {
      var init := ps[..|ps| - 1];
      KeysOfIndex(init, k);
      if k in KeysOf(init) {
        var j :| 0 <= j < |init| && init[j].0 == k;
        assert ps[j].0 == k;
      }
      if exists j :: 0 <= j < |ps| && ps[j].0 == k {
        var j :| 0 <= j < |ps| && ps[j].0 == k;
        if j < |init| {
          assert init[j].0 == k;
        }
      }
    }
  }

  /** Appending one pair extends the key set, the per-key sums and the grand total by that pair. */
  lemma AppendPair<K>(ps: seq<(K, int)>, p: (K, int), k: K)
    ensures OfPairs(ps + [p]) == OfPairs(ps).Add(p.0, p.1)
    ensures KeysOf(ps + [p]) == KeysOf(ps) + {p.0}
    ensures SumFor(ps + [p], k) == SumFor(ps, k) + (if p.0 == k then p.1 else 0)
    ensures SumValues(ps + [p]) == SumValues(ps) + p.1
  {
    var qs := ps + [p];
    assert qs[..|qs| - 1] == ps;
  }

  /** The dict of a sequence that ends in `(k, v)` is the dict of the rest with `v` added under `k`. */
  lemma OfPairsSnoc<K>(ps: seq<(K, int)>, qs: seq<(K, int)>, k: K, v: int)
    requires qs == ps + [(k, v)]
    ensures OfPairs(qs) == OfPairs(ps).Add(k, v)
  {
    AppendPair(ps, (k, v), k);
  }
}

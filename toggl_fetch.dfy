/**
 * The interval fetcher of toggl.py: `get_time_entries` and
 * `get_time_entries_chunked`.  The HTTP request is an oracle from the
 * queried range `[start, end]` (UTC seconds) to the decoded JSON array, or
 * None when `requests` raises; the source then logs and returns `[]`.
 */
module TogglFetch {
  import opened Wrappers
  import opened TogglEntries

  /** One GET of /me/time_entries for `start_date`, `end_date`. */
  type Fetcher = (int, int) -> Option<seq<Entry>>

  /**
   * `(end - start).days`: a timedelta's day count rounds toward minus
   * infinity.  Here and below 86400 is the number of seconds in a day,
   * written out so that `maxDays * 86400` stays linear for the solver.
   */
  function SpanDays(start: int, end: int): (d: int)
    ensures d * 86400 <= end - start < d * 86400 + 86400
  {
    (end - start) / 86400
  }

  /** The unchunked branch: the decoded array, or `[]` when the request failed. */
  function FetchOnce(fetch: Fetcher, start: int, end: int): (es: seq<Entry>)
    ensures fetch(start, end).None? ==> es == []
    ensures fetch(start, end).Some? ==> es == fetch(start, end).value
  {
    match fetch(start, end)
    case Some(es) => es
    case None => []
  }

  /** `min(current_start + timedelta(days=maxDays), end)`: where a chunk ends. */
  function ChunkEnd(start: int, end: int, maxDays: nat): int {
    Min(start + maxDays * 86400, end)
  }

  /**
   * The ranges `[current_start, current_end]` the chunking loop visits:
   * at most `maxDays` days each, the next starting one second after the
   * previous one ends.
   */
  function Chunks(start: int, end: int, maxDays: nat): seq<(int, int)>
    decreases end - start
  {
    if start < end then
      var chunkEnd := ChunkEnd(start, end, maxDays);
      [(start, chunkEnd)] + Chunks(chunkEnd + 1, end, maxDays)
    else []
  }

  /** The per-chunk results, concatenated in chunk order. */
  function Flatten(fetch: Fetcher, chunks: seq<(int, int)>): seq<Entry>
  {
    if chunks == [] then []
    else FetchOnce(fetch, chunks[0].0, chunks[0].1) + Flatten(fetch, chunks[1..])
  }

  /** What get_time_entries returns for `[start, end]`. */
  function Fetched(fetch: Fetcher, start: int, end: int, maxDays: nat): seq<Entry>
  {
    if SpanDays(start, end) > maxDays then Flatten(fetch, Chunks(start, end, maxDays))
    else FetchOnce(fetch, start, end)
  }

  /**
   * get_time_entries (toggl.py:32-47).  The measure shows that the recursion
   * through get_time_entries_chunked is at most two calls deep: every chunk
   * is short enough to take the direct branch.
   */
  method GetTimeEntries(fetch: Fetcher, start: int, end: int, maxDays: nat) returns (entries: seq<Entry>)
    ensures entries == Fetched(fetch, start, end, maxDays)
    decreases if SpanDays(start, end) > maxDays then 2 else 0
  {
    if SpanDays(start, end) > maxDays {
      entries := GetTimeEntriesChunked(fetch, start, end, maxDays);
      return;
    }
    var response := fetch(start, end);
    match response
    case Some(es) => entries := es;
    case None => entries := [];
  }

  /** One step of the chunking loop, as a fact about Chunks. */
  lemma FlattenChunksStep(fetch: Fetcher, start: int, end: int, maxDays: nat)
    requires start < end
    ensures var chunkEnd := ChunkEnd(start, end, maxDays);
      Flatten(fetch, Chunks(start, end, maxDays))
        == FetchOnce(fetch, start, chunkEnd) + Flatten(fetch, Chunks(chunkEnd + 1, end, maxDays))
  {
    var chunkEnd := ChunkEnd(start, end, maxDays);
    var cs := Chunks(start, end, maxDays);
    assert cs == [(start, chunkEnd)] + Chunks(chunkEnd + 1, end, maxDays);
    assert cs[1..] == Chunks(chunkEnd + 1, end, maxDays);
  }

  /**
   * One round of the chunking loop: the chunk is short enough for the
   * direct branch, and its entries continue what was collected so far.
   */
  lemma ChunkedStep(fetch: Fetcher, start: int, end: int, maxDays: nat, current: int, entries: seq<Entry>)
    requires current < end
    requires Flatten(fetch, Chunks(start, end, maxDays)) == entries + Flatten(fetch, Chunks(current, end, maxDays))
    ensures var chunkEnd := ChunkEnd(current, end, maxDays);
      && SpanDays(current, chunkEnd) <= maxDays
      && Flatten(fetch, Chunks(start, end, maxDays))
        == (entries + Fetched(fetch, current, chunkEnd, maxDays)) + Flatten(fetch, Chunks(chunkEnd + 1, end, maxDays))
  {
    var chunkEnd := ChunkEnd(current, end, maxDays);
    FlattenChunksStep(fetch, current, end, maxDays);
    var chunk := FetchOnce(fetch, current, chunkEnd);
    var rest := Flatten(fetch, Chunks(chunkEnd + 1, end, maxDays));
    assert entries + (chunk + rest) == (entries + chunk) + rest;
  }

  /** get_time_entries_chunked (toggl.py:49-57). */
  method GetTimeEntriesChunked(fetch: Fetcher, start: int, end: int, maxDays: nat) returns (entries: seq<Entry>)
    ensures entries == Flatten(fetch, Chunks(start, end, maxDays))
    decreases 1
  {
    entries := [];
    var currentStart := start;
    while currentStart < end
      invariant Flatten(fetch, Chunks(start, end, maxDays)) == entries + Flatten(fetch, Chunks(currentStart, end, maxDays))
      decreases end - currentStart
    {
      var currentEnd := ChunkEnd(currentStart, end, maxDays);
      ChunkedStep(fetch, start, end, maxDays, currentStart, entries);
      var chunk := GetTimeEntries(fetch, currentStart, currentEnd, maxDays);
      entries := entries + chunk;
      currentStart := currentEnd + 1;
    }
  }

  /** Every chunk lies inside `[start, end]` and spans at most `maxDays` days. */
  lemma {:induction false} ChunksInRange(start: int, end: int, maxDays: nat)
    ensures forall i :: 0 <= i < |Chunks(start, end, maxDays)| ==>
      var c := Chunks(start, end, maxDays)[i];
      start <= c.0 <= c.1 <= end && c.1 - c.0 <= maxDays * 86400 && SpanDays(c.0, c.1) <= maxDays
    decreases end - start
  {
    if start < end {
      var chunkEnd := ChunkEnd(start, end, maxDays);
      ChunksInRange(chunkEnd + 1, end, maxDays);
    }
  }

  /**
   * The chunks come in increasing order without overlapping, the first
   * starts at `start` and each starts exactly one second after its
   * predecessor ends.
   */
  lemma {:induction false} ChunksContiguous(start: int, end: int, maxDays: nat)
    ensures var cs := Chunks(start, end, maxDays);
      && (cs == [] <==> end <= start)
      && (cs != [] ==> cs[0].0 == start)
      && (forall i :: 0 <= i < |cs| ==> cs[i].0 <= cs[i].1)
      && (forall i :: 0 <= i < |cs| - 1 ==> cs[i + 1].0 == cs[i].1 + 1)
      && (forall i, j :: 0 <= i < j < |cs| ==> cs[i].1 < cs[j].0)
    decreases end - start
  {
    if start < end {
      var chunkEnd := ChunkEnd(start, end, maxDays);
      var cs := Chunks(start, end, maxDays);
      var rest := Chunks(chunkEnd + 1, end, maxDays);
      assert cs == [(start, chunkEnd)] + rest;
      ChunksContiguous(chunkEnd + 1, end, maxDays);
      ChunksInRange(chunkEnd + 1, end, maxDays);
      forall i, j | 0 <= i < j < |cs| ensures cs[i].1 < cs[j].0 {
        assert cs[j] == rest[j - 1];
        if i > 0 {
          assert cs[i] == rest[i - 1];
        }
      }
    }
  }

  lemma {:induction false} MulAtLeast(k: int, d: int)
    requires k >= 1 && d > 0
    ensures k * d >= d
  {
    if k > 1 {
      MulAtLeast(k - 1, d);
      assert k * d == (k - 1) * d + d;
    }
  }

  lemma DivModUnique(x: int, d: int, q: int, r: int)
    requires d > 0 && 0 <= r < d && x == q * d + r
    ensures x % d == r
  {
    var q0, r0 := x / d, x % d;
    assert x == q0 * d + r0;
    assert (q - q0) * d == r0 - r;
    if q > q0 {
      MulAtLeast(q - q0, d);
      assert false;
    } else if q < q0 {
      MulAtLeast(q0 - q, d);
      assert false;
    }
  }

  lemma ModShift(x: int, d: int)
    requires d > 0
    ensures (x - d) % d == x % d
  {
    var q := x / d;
    assert x == q * d + x % d;
    assert x - d == (q - 1) * d + x % d;
    DivModUnique(x - d, d, q - 1, x % d);
  }

  /**
   * Where the chunking stops.  The loop ends as soon as `current_start`
   * reaches `end`, so when a chunk ends exactly one second before `end`
   * the last second is never queried: the last chunk ends at `end - 1`
   * precisely when `end - start` is a multiple of `maxDays` days plus one
   * second, and at `end` otherwise.
   */
  lemma {:induction false} ChunksReach(start: int, end: int, maxDays: nat)
    requires start < end
    ensures var cs := Chunks(start, end, maxDays);
      cs != [] && cs[|cs| - 1].1 == if (end - start) % (maxDays * 86400 + 1) == 0 then end - 1 else end
    decreases end - start
  {
    var w := maxDays * 86400;
    var chunkEnd := ChunkEnd(start, end, maxDays);
    var cs := Chunks(start, end, maxDays);
    var rest := Chunks(chunkEnd + 1, end, maxDays);
    assert cs == [(start, chunkEnd)] + rest;
    if chunkEnd + 1 < end {
      ChunksReach(chunkEnd + 1, end, maxDays);
      assert chunkEnd == start + w;
      ModShift(end - start, w + 1);
      assert cs[|cs| - 1] == rest[|rest| - 1];
    } else if chunkEnd + 1 == end {
      assert rest == [];
      assert chunkEnd == start + w;
      DivModUnique(end - start, w + 1, 1, 0);
    } else {
      assert rest == [];
      assert chunkEnd == end;
      assert 0 < end - start < w + 1;
      DivModUnique(end - start, w + 1, 0, end - start);
    }
  }

  /** The second at `end` is missed, for a range of two days and two seconds. */
  lemma LastSecondMissed()
    ensures Chunks(0, 172802, 1) == [(0, 86400), (86401, 172801)]
  {
    assert Chunks(172802, 172802, 1) == [];
    assert Chunks(86401, 172802, 1) == [(86401, 172801)] + Chunks(172802, 172802, 1);
  }

  /**
   * Every second from `start` up to the end of the last chunk is queried
   * by a chunk (by exactly one, as chunks do not overlap).
   */
  lemma ChunksCover(start: int, end: int, maxDays: nat, t: int)
    requires start < end
    requires var cs := Chunks(start, end, maxDays); cs != [] && start <= t <= cs[|cs| - 1].1
    ensures var cs := Chunks(start, end, maxDays);
      exists i :: 0 <= i < |cs| && cs[i].0 <= t <= cs[i].1
  {
    ChunksContiguous(start, end, maxDays);
    AdjacentCover(Chunks(start, end, maxDays), t);
  }

  /** Non-empty intervals, each starting one second after its predecessor ends. */
  predicate Adjacent(cs: seq<(int, int)>) {
    && (forall i :: 0 <= i < |cs| ==> cs[i].0 <= cs[i].1)
    && (forall i :: 0 <= i < |cs| - 1 ==> cs[i + 1].0 == cs[i].1 + 1)
  }

  /** Adjacent intervals leave no gap between the first start and the last end. */
  lemma {:induction false} AdjacentCover(cs: seq<(int, int)>, t: int)
    requires Adjacent(cs)
    requires cs != [] && cs[0].0 <= t <= cs[|cs| - 1].1
    ensures exists i :: 0 <= i < |cs| && cs[i].0 <= t <= cs[i].1
  {
    var n := |cs|;
    if t < cs[n - 1].0 {
      var init := cs[..n - 1];
      assert cs[n - 1].0 == cs[n - 2].1 + 1;
      assert Adjacent(init) by {
        forall i | 0 <= i < |init| - 1 ensures init[i + 1].0 == init[i].1 + 1 {
          assert init[i] == cs[i] && init[i + 1] == cs[i + 1];
        }
      }
      AdjacentCover(init, t);
      var i :| 0 <= i < |init| && init[i].0 <= t <= init[i].1;
      assert cs[i] == init[i];
    } else {
      assert cs[n - 1].0 <= t <= cs[n - 1].1;
    }
  }

  /** The loop runs at most `(end - start) / (maxDays days + 1 second) + 1` times. */
  lemma {:induction false} ChunkCount(start: int, end: int, maxDays: nat)
    ensures var n := |Chunks(start, end, maxDays)|;
      n > 0 ==> (n - 1) * (maxDays * 86400 + 1) < end - start
    decreases end - start
  {
    if start < end {
      var chunkEnd := ChunkEnd(start, end, maxDays);
      var rest := Chunks(chunkEnd + 1, end, maxDays);
      ChunkCount(chunkEnd + 1, end, maxDays);
      assert |Chunks(start, end, maxDays)| == |rest| + 1;
      if rest != [] {
        StrideStep(|rest|, maxDays * 86400 + 1, start, end);
      }
    }
  }

  /** One more full stride of `w` seconds in front of `m - 1` strides. */
  lemma StrideStep(m: int, w: int, start: int, end: int)
    requires m >= 1 && (m - 1) * w < end - (start + w)
    ensures m * w < end - start
  {
    assert m * w == (m - 1) * w + w;
  }

  /** A failing chunk adds nothing: only the successful chunks' entries appear, in order. */
  function Succeeded(fetch: Fetcher, chunks: seq<(int, int)>): seq<(int, int)>
  {
    if chunks == [] then []
    else (if fetch(chunks[0].0, chunks[0].1).Some? then [chunks[0]] else []) + Succeeded(fetch, chunks[1..])
  }

  lemma {:induction false} FailedChunksContributeNothing(fetch: Fetcher, chunks: seq<(int, int)>)
    ensures Flatten(fetch, chunks) == Flatten(fetch, Succeeded(fetch, chunks))
    ensures forall c :: c in Succeeded(fetch, chunks) ==> c in chunks && fetch(c.0, c.1).Some?
  {
    if chunks != [] {
      FailedChunksContributeNothing(fetch, chunks[1..]);
      var s := Succeeded(fetch, chunks[1..]);
      if fetch(chunks[0].0, chunks[0].1).Some? {
        assert Succeeded(fetch, chunks) == [chunks[0]] + s;
        assert ([chunks[0]] + s)[1..] == s;
      } else {
        assert Succeeded(fetch, chunks) == s;
      }
    }
  }

  /**
   * A faithful service: entries carry the instant the service files them
   * under, and a query `[a, b]` answers those filed inside it, in order.
   */
  function InRange(store: seq<(int, Entry)>, a: int, b: int): seq<Entry>
  {
    if store == [] then []
    else
      var last := store[|store| - 1];
      InRange(store[..|store| - 1], a, b) + (if a <= last.0 <= b then [last.1] else [])
  }

  function Served(store: seq<(int, Entry)>): Fetcher
  {
    (a: int, b: int) => Some(InRange(store, a, b))
  }

  lemma {:induction false} InRangeSplit(store: seq<(int, Entry)>, a: int, b: int, c: int)
    requires a <= b + 1 && b <= c
    ensures multiset(InRange(store, a, c)) == multiset(InRange(store, a, b)) + multiset(InRange(store, b + 1, c))
  {
    if store != [] {
      InRangeSplit(store[..|store| - 1], a, b, c);
    }
  }

  /** What a faithful service answers for a sequence of chunks, concatenated. */
  function ServedConcat(store: seq<(int, Entry)>, cs: seq<(int, int)>): seq<Entry>
  {
    if cs == [] then [] else InRange(store, cs[0].0, cs[0].1) + ServedConcat(store, cs[1..])
  }

  lemma {:induction false} FlattenServed(store: seq<(int, Entry)>, cs: seq<(int, int)>)
    ensures Flatten(Served(store), cs) == ServedConcat(store, cs)
  {
    if cs != [] {
      FlattenServed(store, cs[1..]);
      assert FetchOnce(Served(store), cs[0].0, cs[0].1) == InRange(store, cs[0].0, cs[0].1);
    }
  }

  /**
   * Adjacent queries are answered, together, with the entries filed from
   * the first start to the last end.
   */
  lemma {:induction false} AdjacentServed(store: seq<(int, Entry)>, cs: seq<(int, int)>)
    requires Adjacent(cs) && cs != []
    ensures cs[0].0 <= cs[|cs| - 1].1
    ensures multiset(ServedConcat(store, cs)) == multiset(InRange(store, cs[0].0, cs[|cs| - 1].1))
  {
    if |cs| == 1 {
      assert cs[1..] == [];
    } else {
      var tail := cs[1..];
      assert Adjacent(tail) by {
        forall i | 0 <= i < |tail| - 1 ensures tail[i + 1].0 == tail[i].1 + 1 {
          assert tail[i] == cs[i + 1] && tail[i + 1] == cs[i + 2];
        }
      }
      AdjacentServed(store, tail);
      var a, b, z := cs[0].0, cs[0].1, cs[|cs| - 1].1;
      assert tail[0].0 == b + 1 && tail[|tail| - 1].1 == z;
      calc {
        multiset(ServedConcat(store, cs));
        multiset(InRange(store, a, b) + ServedConcat(store, tail));
        multiset(InRange(store, a, b)) + multiset(ServedConcat(store, tail));
        multiset(InRange(store, a, b)) + multiset(InRange(store, b + 1, z));
        { InRangeSplit(store, a, b, z); }
        multiset(InRange(store, a, z));
      }
    }
  }

  /**
   * Against a faithful service the chunked result holds exactly the
   * entries filed from `start` to the end of the last chunk.
   */
  lemma ChunkedServedMatchesRange(store: seq<(int, Entry)>, start: int, end: int, maxDays: nat)
    requires start < end
    ensures var cs := Chunks(start, end, maxDays);
      cs != [] && multiset(Flatten(Served(store), cs)) == multiset(InRange(store, start, cs[|cs| - 1].1))
  {
    var cs := Chunks(start, end, maxDays);
    FlattenServed(store, cs);
    ChunksContiguous(start, end, maxDays);
    AdjacentServed(store, cs);
  }

  /**
   * Chunking is invisible when no chunk fails, unless the chunked branch
   * meets a range that is a whole number of chunk strides: against a
   * faithful service, get_time_entries returns exactly the entries filed in
   * `[start, end]` (as a multiset), and therefore the same total_minutes.
   */
  lemma FetchedServedMatchesRange(store: seq<(int, Entry)>, start: int, end: int, maxDays: nat)
    requires SpanDays(start, end) <= maxDays || (end - start) % (maxDays * 86400 + 1) != 0
    ensures multiset(Fetched(Served(store), start, end, maxDays)) == multiset(InRange(store, start, end))
    ensures Total(Fetched(Served(store), start, end, maxDays)) == Total(InRange(store, start, end))
  {
    if SpanDays(start, end) > maxDays {
      ChunkedServedMatchesRange(store, start, end, maxDays);
      ChunksReach(start, end, maxDays);
    }
    TotalPermutation(Fetched(Served(store), start, end, maxDays), InRange(store, start, end));
  }
}

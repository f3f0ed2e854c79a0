# Productivity and energy e-ink dashboards — a Dafny model

This project models three Python scripts that drive a 480×800 e-paper display:

- **toggl.py**: the aggregation engine over Toggl time entries. It covers:
  - the range fetch that splits long ranges into chunks of at most `MAX_DATE_RANGE_DAYS` days;
  - `total_minutes`;
  - the best-day and best-ISO-week scan over the whole tracked history;
  - the four calendar totals with their defaults (`get_productivity_data`);
  - the signed productivity debt (`get_total_debt`).
- **dashboard.py**: the pure formatting and the layout arithmetic:
  - `minutes_to_str` and `format_best_entry`;
  - the daily-debt message;
  - the progress-bar fill width;
  - the vertical advance of the page.
- **energy_dashboard.py**: `get_monthly_summary`, the previous-month key and the cheapest month. The summary sorts meter readings and charges each reading's difference from the one before it (the first from the starting reading) to its calendar month.

Modelling conventions:

- **Time.** Instants are integer UTC seconds. Local calendar days are integers counted from 1970-01-01, which is a Thursday. So `Weekday(d) = (d + 3) % 7`, with Monday = 0 as in Python.
  - The tracking start, 2025-04-09, is day 20187, a Wednesday.
  - An ISO week is identified by the day number of its Monday. This is in one-to-one correspondence with the `YYYY-Www` key.
- **Time zone.** The Europe/Vienna conversion is a parameter of the model (`Toggl.Env`):
  - `wall` reads the local clock at an instant, in seconds since local midnight of 1970-01-01; the local date of an instant is `TogglCalendar.LocalDay` of that reading (`Toggl.DayOf`);
  - `midnight` maps a local day to the UTC instant of its local midnight.
- **HTTP.** The request is an oracle `fetch(start, end)`. It yields the decoded JSON list, or `None` for a `RequestException`, which becomes `[]`.
- **Entries.**
  - Each entry is either an object whose `start` and `stop` are absent, malformed or a timestamp, or a JSON value that is not an object.
  - For a non-object, the `.get` calls raise outside any `try`. `total_minutes` and `get_best_from_start` then raise. `get_productivity_data` catches this and keeps the fields it had filled so far.
  - The model makes these raising paths explicit as `Option` results.
- **Meter readings** are whole kWh and the tariff is whole cents per kWh. A month's cost is held as the exact integer `usage * price` in cents. `round(usage * price / 100, 2)` in euros denotes the same amount.
- **Python dicts** iterate in insertion order. `Buckets.Tally` keeps that order, because `max`/`min` over a dict return the first extreme key in that order.

Behaviour of the code worth knowing:

- **Weekday count.** From a Wednesday through the following Tuesday, the inclusive count in `get_total_debt` finds 5 weekdays. The debt with no tracked time is therefore 1950 (`TogglCalendar.FirstWeekExample`, `Toggl.FirstWeekDebt`).
- **Negative totals.** A stop before its start is not clamped, so a total can be negative (`TogglEntries.NegativeDurationLowersTotal`).
- **Clock minutes in the best scan.** `get_best_from_start` converts both timestamps to the one cached `ZoneInfo("Europe/Vienna")` object before subtracting (toggl.py:85-87). Python subtracts two datetimes that share a zone object as naive clock readings, so the scan counts minutes on the local clock, while `total_minutes` counts elapsed UTC minutes. An entry from 00:30 to 01:30 UTC on 2025-03-30 adds 120 minutes to its day, and on 2025-10-26 it adds 0; `total_minutes` counts 60 both times (`TogglBest.OffsetChangeMinutes`). The day and week totals always agree with each other, and they equal `total_minutes`' sum when no entry spans a change of the UTC offset (`TogglBest.DayAndWeekTotalsAgree`).
- **Chunked fetch.** Chunks are `[s, min(s + N days, end)]`, and the next chunk begins one second after the previous one ends. This covers every second of `[start, end]` except one case: when `end - start` is a multiple of `N·86400 + 1` seconds, the loop stops one second short and `end` itself is never requested (`TogglFetch.ChunksReach`, `TogglFetch.LastSecondMissed`). So chunked and unchunked fetches agree in every case but that one (`TogglFetch.FetchedServedMatchesRange`). The source's `now` carries microseconds, so for the ranges ending at `now` (this week, the best scan, the debt) the case practically never arises there; see "## Left out".

## Model

| member | source | states |
|---|---|---|
| Buckets.Tally.Add | toggl.py:91 | `d[k] += v` on a defaultdict: the key set grows by `k`; `k` holds its old value (or 0) plus `v`; other keys are unchanged; a new key is appended to the iteration order; keys stay distinct |
| Buckets.Tally.Scale | energy_dashboard.py:32 | the cost comprehension keeps the same keys in the same order, with every value multiplied by the price |
| Buckets.Tally.ArgMax | toggl.py:102-103 | `max(d, key=d.get, default=None)` is None exactly for an empty dict; otherwise it is a key whose value is at least every other value, and every key before it in dict order holds less, so ties go to the first key |
| Buckets.MaxIndex | toggl.py:102-103 | the scan's pick has the largest value, and every earlier position holds a strictly smaller one (the first maximum wins) |
| Buckets.MinIndex | energy_dashboard.py:70 | the scan's pick has the smallest value, and every earlier position holds a strictly larger one (the first minimum wins) |
| Buckets.AddTotal | toggl.py:91 | adding `v` under any key raises the dict's total by exactly `v` |
| Buckets.OfPairs | toggl.py:78-96 | the dict left by running `d[k] += v` for each pair in order on an empty defaultdict; it is well formed, and its keys, values and total are given by OfPairsAt, OfPairsKeys and OfPairsTotal |
| Buckets.OfPairsTotal | toggl.py:90-96 | accumulating a sequence of `(key, value)` pairs into a dict preserves the sum of the values |
| Buckets.OfPairsAt | toggl.py:90-96 | a key is present iff some pair carries it, and its value is the sum of that key's values |
| Buckets.OfPairsKeys | energy_dashboard.py:28-30 | the key set of the accumulated dict is exactly the set of keys of the pairs |
| Buckets.KeysOfIndex | energy_dashboard.py:28-30 | a key occurs among the pairs iff some position carries it |
| Buckets.AppendPair | toggl.py:91 | appending one pair adds its value under its key in the dict, adds its key to the key set, and raises that key's sum and the grand total by its value |
| Buckets.OfPairsSnoc | energy_dashboard.py:30 | the dict of a sequence ending in `(k, v)` is the dict of the rest with `v` added under `k` |
| TogglEntries.TruncMinutes | toggl.py:66 | `int(seconds / 60)` truncates toward zero: for non-negative seconds it is the floor, for negative seconds the ceiling, of seconds/60 |
| TogglEntries.TruncMinutesOdd | toggl.py:66 | truncation is symmetric: negating the duration negates the minutes |
| TogglEntries.Complete | toggl.py:62-65 | an entry counts iff it is an object whose `start` and `stop` are both present and parse |
| TogglEntries.Contribution | toggl.py:62-66 | an entry lacking a usable `start` or `stop` contributes 0; otherwise it contributes the whole minutes between its stamps, rounded toward zero: `m·60 ≤ stop − start < m·60 + 60` for a forward entry, `m·60 − 60 < stop − start ≤ m·60 ≤ 0` for a backward one |
| TogglEntries.TotalMinutes | toggl.py:59-69 | the loop computes the sum of all contributions, is 0 for no entries, and fails exactly when some element is not an object |
| TogglEntries.SumMinutesAppend | toggl.py:60-66 | the total of a concatenation is the sum of the totals |
| TogglEntries.SumMinutesPermutation | toggl.py:61-66 | the summed minutes do not depend on the order of the entries |
| TogglEntries.RemoveMatching | toggl.py:61 | removing an entry from both of two orderings of the same entries leaves two orderings of the same rest |
| TogglEntries.SumMinutesRemove | toggl.py:61-66 | the summed minutes are those of the other entries plus the removed entry's truncated minutes, wherever it sits |
| TogglEntries.TotalPermutation | toggl.py:59-69 | the result of total_minutes, including whether it fails, is invariant under permutation |
| TogglEntries.SumMinutesNonNegative | toggl.py:66 | when no entry stops before it starts, the total is non-negative |
| TogglEntries.NegativeDurationLowersTotal | toggl.py:66 | an entry that stops before its start lowers the total, here to -30 |
| TogglFetch.SpanDays | toggl.py:33 | `(end - start).days` is the floor of the span in days |
| TogglFetch.FetchOnce | toggl.py:41-47 | definition of one unchunked request's result: the decoded list, or `[]` when the request fails; `GetTimeEntries`, `FailedChunksContributeNothing` and `FetchedServedMatchesRange` state what the fetch then yields |
| TogglFetch.Fetched | toggl.py:32-47 | what get_time_entries returns: the chunked concatenation when the span exceeds `MAX_DATE_RANGE_DAYS` days, the single answer otherwise; GetTimeEntries is proved equal to it |
| TogglFetch.Chunks | toggl.py:52-56 | the ranges the chunk loop requests, in order; ChunksInRange, ChunksContiguous, ChunksReach and ChunkCount state their properties |
| TogglFetch.GetTimeEntries | toggl.py:32-47 | the fetch result is the oracle's answer for a span of at most `MAX_DATE_RANGE_DAYS` days, and the chunked concatenation otherwise; the recursion is at most two calls deep |
| TogglFetch.FlattenChunksStep | toggl.py:52-56 | one loop iteration fetches the first chunk and continues one second after its end |
| TogglFetch.ChunkedStep | toggl.py:52-56 | each iteration's chunk spans at most `MAX_DATE_RANGE_DAYS` days, so it takes the direct branch, and what is collected extends by that chunk's result |
| TogglFetch.GetTimeEntriesChunked | toggl.py:49-57 | the loop's result is the in-order concatenation of the per-chunk results |
| TogglFetch.ChunksInRange | toggl.py:52-54 | every chunk lies inside `[start, end]` and spans at most `MAX_DATE_RANGE_DAYS` days, so each chunk takes the unchunked branch |
| TogglFetch.ChunksContiguous | toggl.py:52-56 | chunks exist iff `start < end`; the first begins at `start`; each is non-empty; each begins one second after the previous ends; chunks are strictly ordered and disjoint |
| TogglFetch.ChunksReach | toggl.py:52-56 | the last chunk ends at `end`, or at `end - 1` exactly when `end - start` is a multiple of the chunk width plus one second |
| TogglFetch.LastSecondMissed | toggl.py:52-56 | a concrete two-day range with `MAX_DATE_RANGE_DAYS = 1` whose final second is never requested |
| TogglFetch.ChunksCover | toggl.py:52-56 | every second from `start` to the last chunk's end lies in some chunk |
| TogglFetch.AdjacentCover | toggl.py:52-56 | ranges that each begin one second after the previous one ends leave no second uncovered between the first start and the last end |
| TogglFetch.ChunkCount | toggl.py:52-56 | the number of chunks `n` satisfies `(n - 1)·(N·86400 + 1) < end - start`, which bounds the number of iterations |
| TogglFetch.FailedChunksContributeNothing | toggl.py:45-47 | the concatenation equals that of only the chunks whose request succeeded, so a failing chunk contributes `[]` |
| TogglFetch.InRangeSplit | toggl.py:52-56 | entries stamped in `[a, c]` are those in `[a, b]` plus those in `[b + 1, c]` |
| TogglFetch.FlattenServed | toggl.py:49-57 | against a server answering from a store, the chunked concatenation is the concatenation of the store's entries stamped in each chunk |
| TogglFetch.AdjacentServed | toggl.py:49-57 | adjacent ranges are answered, together, with the entries stamped from the first start to the last end (as a multiset) |
| TogglFetch.ChunkedServedMatchesRange | toggl.py:49-57 | against a server that returns the stored entries stamped in the requested closed range, the chunked fetch returns the entries of `[start, last chunk end]` (as a multiset) |
| TogglFetch.FetchedServedMatchesRange | toggl.py:32-57 | for a span taking the direct branch, or a chunked span outside the last-second case, the fetch returns exactly the stored entries of `[start, end]` as a multiset, and the same total_minutes outcome |
| TogglCalendar.Weekday | toggl.py:123 | `weekday()` lies in 0..6 |
| TogglCalendar.WeekdayShift | toggl.py:123 | weekdays repeat every 7 days |
| TogglCalendar.WeekdayNext | toggl.py:160 | the weekday of the next day is the next weekday, wrapping from Sunday to Monday |
| TogglCalendar.TrackingStartIsWednesday | toggl.py:20 | 2025-04-09 is a Wednesday |
| TogglCalendar.LocalDay | toggl.py:90 | `.date()` of a local clock reading is the day whose 86400 seconds contain it |
| TogglCalendar.MondayOf | toggl.py:123 | `start_of_today - weekday()` days is a Monday within the six days before today, or today itself |
| TogglCalendar.SameWeekIffSameMonday | toggl.py:94-96 | two days share an ISO-week key iff the second lies in the 7 days starting at the first one's Monday |
| TogglCalendar.MondaysSevenApart | toggl.py:123-125 | any two Mondays are a whole number of weeks apart |
| TogglCalendar.DayBounds | toggl.py:119-126 | yesterday ends where today starts, one day after yesterday starts; today lasts one day; this week starts on the Monday at or before today and lasts 7 days; last week is the 7 days before it |
| TogglCalendar.CountWeekdays | toggl.py:158-161 | the number of Monday–Friday days among `n` consecutive days lies between 0 and `n` |
| TogglCalendar.WeekdaysThrough | toggl.py:158-161 | the inclusive count from the start day to today is 0 when today is before the start, and at most the number of days in the range |
| TogglCalendar.CountWeekdaysSplit | toggl.py:158-161 | counts over adjacent day ranges add up |
| TogglCalendar.SevenDaysFiveWeekdays | toggl.py:158-161 | any 7 consecutive days hold exactly 5 weekdays |
| TogglCalendar.CountWeekdaysWeeks | toggl.py:158-161 | `k` whole weeks add exactly `5k` weekdays |
| TogglCalendar.CountWeekdaysBounds | toggl.py:158-161 | `n` days hold between `5·(n div 7)` and `5·(n div 7) + n mod 7` weekdays |
| TogglCalendar.FirstWeekExample | toggl.py:156-161 | from the Wednesday start through the following Tuesday there are 5 weekdays |
| TogglBest.KeyOf | toggl.py:90-95 | a day bucket is the local date of the entry's start; a week bucket is the Monday of that date, which names its ISO week |
| TogglBest.ScanMinutes | toggl.py:85-87 | an unusable entry adds 0; a usable one adds the whole minutes between the local clock readings at its start and its stop, rounded toward zero (the same two brackets as `Contribution`, over clock readings) |
| TogglBest.ScanMinutesElapsed | toggl.py:85-87 | when the UTC offset is the same at start and stop, the scan's minutes are the entry's total_minutes contribution |
| TogglBest.OffsetChangeMinutes | toggl.py:85-87 | an elapsed hour across the 2025 spring change books 120 minutes and across the autumn change 0, against 60 in total_minutes |
| TogglBest.ScanSumElapsed | toggl.py:85-96 | when no entry spans an offset change, the scan's minutes sum to total_minutes' sum |
| TogglBest.GroupedStep | toggl.py:81-96 | each loop step adds the entry's duration to its day (or week) bucket, and skips entries without usable timestamps |
| TogglBest.GroupedPrefixStep | toggl.py:81-96 | after `i + 1` entries, each dict is the one after `i` entries with the `i`-th entry's minutes added under its key if both its timestamps are usable, and unchanged otherwise |
| TogglBest.ObjectPrefix | toggl.py:81-82 | an object entry keeps the scanned prefix free of non-objects |
| TogglBest.DurationsLast | toggl.py:81-96 | the scan's last step appends one `(key, minutes)` pair for a usable entry and nothing otherwise |
| TogglBest.DurationsSumFor | toggl.py:87-96 | the durations paired with a key sum to the reference minutes of the entries with that key |
| TogglBest.OccursLast | toggl.py:90-96 | a key has a usable entry in a list iff it has one in all but the last entry, or the last entry is usable with that key |
| TogglBest.DurationsKeys | toggl.py:90-96 | a key appears among the scan's pairs iff some usable entry has that key |
| TogglBest.DurationsTotal | toggl.py:87-96 | all the scan's durations sum to the reference sum of the entries' clock minutes |
| TogglBest.DurationsMatchEntries | toggl.py:87-96 | the per-key sum of durations equals the reference sum of clock minutes over the entries whose local start falls in that key, and the grand total is the reference sum over all entries |
| TogglBest.BucketHoldsItsEntries | toggl.py:90-96 | a bucket exists iff some usable entry starts in it, and it holds exactly the clock minutes of those entries |
| TogglBest.DayAndWeekTotalsAgree | toggl.py:90-96 | the day buckets and the week buckets have the same total, the entries' clock minutes; when no entry spans an offset change it is total_minutes' sum |
| TogglBest.Pick | toggl.py:102-106 | with no buckets the pair is `(None, 0)`; otherwise it is a present key with its own value, which is at least every bucket's value, and every bucket before it in dict order holds less |
| TogglBest.BestOf | toggl.py:75-106 | the outcome of the scan: `((None, 0), (None, 0))` for no entries, a failure if an element is not an object, else the picks of the day and week dicts; BestIsLargestBucket states what they are |
| TogglBest.BestIsLargestBucket | toggl.py:75-106 | the best key is None iff no entry is usable (value 0); otherwise it is a key some entry starts in, its value is that key's reference sum of clock minutes, and no key's sum exceeds it |
| Toggl.Relabel | toggl.py:146-147 | definition of `best if best[0] else ("No data", 0)`: a key-less best becomes `("No data", 0)`, a best with a key is kept; `Toggl.ReportedBestIsLargestBucket` states what the reported pair means |
| Toggl.ReportedBestIsLargestBucket | toggl.py:146-147 | the reported best day (week) is `("No data", 0)` exactly when no fetched entry is complete; otherwise it names a day (week) with entries, carries their clock minutes, and no day (week) holds more |
| Toggl.FetchRanges | toggl.py:119-143 | the four fetched ranges run between the local midnights of today, yesterday, this week and last week; this week's range ends at `now` instead |
| Toggl.GetBestFromStart | toggl.py:71-113 | the result is the scan over all entries from the tracking start to now: `((None, 0), (None, 0))` for no entries, a failure if any element is not an object, else the largest day and week buckets of clock minutes |
| Toggl.StageMetrics | toggl.py:130-152 | each total is its stage's value when it and all earlier stages succeeded, else 0; the best pairs are relabelled when every stage and the best scan succeeded, else `("No data", 0)` |
| Toggl.GetProductivityData | toggl.py:115-152 | the record is the stage-prefix record of the four calendar totals fetched for today, yesterday, this week and last week, and of the best scan over the whole history |
| Toggl.RequiredMinutes | toggl.py:158-163 | the required minutes are 390 per weekday from the start through today: never negative, and at most 390 per day of the range |
| Toggl.GetTotalDebt | toggl.py:154-169 | the debt is the required minutes minus the tracked minutes, or a failure when the total raises; before the start date it is minus the tracked minutes |
| Toggl.RequiredPerWeek | toggl.py:158-163 | after `k` whole weeks from the start, exactly `5k·390` minutes are required |
| Toggl.FirstWeekDebt | toggl.py:154-169 | with nothing tracked, the debt at the end of the first week is 1950 |
| Dashboard.DigitChar | dashboard.py:28 | a digit value renders as the matching decimal digit character |
| Dashboard.NatToStr | dashboard.py:28 | a natural number renders as a non-empty run of decimal digits |
| Dashboard.IntToStr | dashboard.py:28 | an int renders as digits, possibly with a minus sign |
| Dashboard.ParseNatToStr | dashboard.py:28 | the decimal rendering of a natural number reads back as that number |
| Dashboard.ParseIntToStr | dashboard.py:28 | the decimal rendering of an int reads back as that int |
| Dashboard.IndexOf | dashboard.py:28 | a found position holds the sought character |
| Dashboard.IndexOfAfter | dashboard.py:28 | the first `h` of the text is the one after the hours, since digits and the sign are never `h` |
| Dashboard.HoursMinutesRoundTrip | dashboard.py:28 | `"{h}h {m}m"` reads back as `(h, m)` |
| Dashboard.MinutesToStr | dashboard.py:24-28 | the text reads back as hours and minutes with `0 <= minutes < 60` and `hours·60 + minutes` equal to the number given, whether bare or the second half of a pair |
| Dashboard.MinutesToStrInjective | dashboard.py:24-28 | different minute counts render differently |
| Dashboard.FormatBestEntry | dashboard.py:30-34 | the text is `"No data"` iff the entry is missing or its label is falsy; otherwise it is `"{label} ({minutes_to_str})"` |
| Dashboard.NoDataPairShowsTime | dashboard.py:30-34 | the default pair `("No data", 0)` has a true label and is shown as `"No data (0h 0m)"` |
| Dashboard.DailyDebtLine | dashboard.py:82-83 | "You owe" is chosen iff today's minutes are below 390, with a positive amount that brings them up to 390 |
| Dashboard.DebtText | dashboard.py:83-86 | the goal-reached text appears iff no debt is owed; otherwise the text is "You owe: …" with the amount's `minutes_to_str` |
| Dashboard.FillWidth | dashboard.py:45-47 | the filled bar width never exceeds 280; it is full at or above the goal; below the goal it is 280·minutes/goal rounded toward zero |
| Dashboard.FloorDivBounds | dashboard.py:47 | for non-negative numerators, the floor quotient brackets the true quotient |
| Dashboard.ScaledBelow | dashboard.py:45-47 | below the goal, the bar is not overfull |
| Dashboard.DrawLabelValue | dashboard.py:36-38 | the next line starts below this line's text, exactly one line spacing under its line height |
| Dashboard.BarFitsPage | dashboard.py:46-47 | the bar outline lies right of the label margin and inside the 480-pixel width, and for a non-negative total the filled part stays within the outline, for the daily and the weekly goal |
| Dashboard.DrawLabelBar | dashboard.py:40-48 | a label with a bar advances `y` by a line, the bar and the spacing, and the bar ends above the next line |
| Dashboard.PageLayout | dashboard.py:62-86 | the ten lines of the page start at `Y_START`, each begins at least a line height below the previous one, and the last fits within the 800-pixel height |
| Energy.DaysInMonth | energy_dashboard.py:69 | Gregorian month lengths: 28 to 31 days, with 29 exactly for February of a leap year |
| Energy.DayAfter | energy_dashboard.py:69 | the next day of a valid date is a valid date |
| Energy.DayBefore | energy_dashboard.py:69 | `date - timedelta(days=1)` is a valid date whose next day is the given date |
| Energy.DayBeforeAfter | energy_dashboard.py:69 | stepping a day forward and back returns the same date |
| Energy.LastMonth | energy_dashboard.py:69 | the month of the day before the first of this month is `(y, m-1)`, or `(y-1, 12)` in January; it is the month immediately before this one |
| Energy.HeadBelowInsert | energy_dashboard.py:24 | whatever is inserted after a sorted list's head is no smaller than the head |
| Energy.ReadingLe | energy_dashboard.py:24 | Python's tuple order on `(date, kwh)`: by year, month and day, then by reading |
| Energy.Insert | energy_dashboard.py:24 | inserting into a sorted list keeps it sorted and adds exactly that reading |
| Energy.SortReadings | energy_dashboard.py:24 | `records.sort()` yields a sorted permutation of the readings |
| Energy.ReadingLeAntisymmetric | energy_dashboard.py:24 | readings ordered both ways are equal |
| Energy.SortedHeadLeast | energy_dashboard.py:24 | the head of a sorted list is at most every member |
| Energy.SortedUnique | energy_dashboard.py:24 | two sorted permutations of the same readings are equal, so any sort gives the same records |
| Energy.Deltas | energy_dashboard.py:26-31 | there is one delta per reading |
| Energy.DeltaAt | energy_dashboard.py:26-31 | each reading's usage is its value minus the previous reading's, and the first reading's is its value minus `start_kwh`, charged to its own month |
| Energy.DeltasTelescope | energy_dashboard.py:26-31 | the deltas sum to the last reading minus `start_kwh` |
| Energy.DeltasPrefixStep | energy_dashboard.py:27-31 | the deltas of one more reading are the earlier deltas plus that reading's month and its value minus the previous reading; it then becomes the previous reading |
| Energy.UsageStep | energy_dashboard.py:27-31 | one loop iteration adds `reading - previous` under the reading's month and yields the usage of one more reading |
| Energy.GetMonthlySummary | energy_dashboard.py:22-33 | the usage map accumulates the sorted readings' deltas per month; the cost map has the same keys in the same order, each usage times the price |
| Energy.MonthlyUsage | energy_dashboard.py:22-33 | the usage map is a well-formed insertion-ordered dict |
| Energy.UsageTotal | energy_dashboard.py:26-31 | the usage of any list of readings sums to its last reading minus `start_kwh` (0 when there is none) |
| Energy.PermutationIndex | energy_dashboard.py:24 | a reading of the original list occurs in the sorted one, and conversely |
| Energy.SortedLastGreatest | energy_dashboard.py:24 | the last of the sorted records is a reading no other reading comes after |
| Energy.SortedUsageTelescopes | energy_dashboard.py:24-31 | for any sorted permutation of the readings, no readings give an empty map, and otherwise the total usage is a latest reading minus `start_kwh` |
| Energy.UsageTelescopes | energy_dashboard.py:26-31 | with no readings the map is empty; otherwise total usage is the latest reading minus `start_kwh` |
| Energy.UsageKeys | energy_dashboard.py:28-30 | a month has a usage entry iff some reading falls in it |
| Energy.PermutedUsageKeys | energy_dashboard.py:24-30 | for any permutation of the readings, a month has a usage entry iff some reading falls in it |
| Energy.OfPairsIncreasing | energy_dashboard.py:28-30 | accumulating pairs with non-decreasing months gives strictly increasing dict keys |
| Energy.UsageMonthsIncreasing | energy_dashboard.py:24-30 | months appear in the usage dict in calendar order, each once |
| Energy.CheapestMonth | energy_dashboard.py:70 | `(None, 0)` iff there are no costs; otherwise the first month in dict order of least cost, with that cost |
| Energy.CheapestMonthHasUsage | energy_dashboard.py:70-77 | the cheapest month always has a usage entry, and some reading falls in it |

## Left out

- HTTP, authentication, headers and timeouts (toggl.py:26-30, 42-44). The request is an oracle parameter that answers or fails.
- Configuration loading through Hydra and OmegaConf, and environment variables (toggl.py:9-18, energy_dashboard.py:9). `MAX_DATE_RANGE_DAYS`, the readings and the tariff are parameters.
- `MAX_DATE_RANGE_DAYS` is a natural number in the model. With a negative value the source's chunk loop walks backwards, one request per step, until the datetime arithmetic raises `OverflowError`.
- Time-zone conversion, `datetime.now`, `fromisoformat`, `strftime` and `strptime`. These become:
  - the `wall` and `midnight` functions of `Toggl.Env`;
  - a `now` parameter;
  - entries with absent, malformed or integer-second timestamps;
  - already-parsed reading dates.
- Sub-second precision. Timestamps are whole seconds, so `total_seconds()` has no fractional part. The source's `now` carries microseconds: a range ending at `now` is then practically never a whole number of chunk strides, and the source requests one more short chunk from the last whole second to `now`. With an integer `now` the model meets the last-second case (TogglFetch.ChunksReach) for one value of `now` in every `N·86400 + 1`.
- Float arithmetic:
  - `/ 60` before truncation is exact division in the model. Binary floating point agrees for realistic durations.
  - The progress-bar ratio is an exact quotient in `Dashboard.FillWidth`.
  - The cost in euros is `round(usage * price / 100, 2)` in the source. The model keeps exact integer cents and rules out fractional prices and kWh.
  - The energy bar length `min(int(cost * 5), 280)` is not modelled.
- `get_best_from_start` reads the clock a second time (toggl.py:72), so its range can end a moment after the range used by `get_total_debt` or `get_productivity_data`. The model passes one `now` to each operation.
- Drawing with PIL, the fonts and the e-paper driver (dashboard.py:1-3, 19-21, 50-59, 89-91; energy_dashboard.py:35-57, 72-81). Only the `y` arithmetic and the chosen texts and widths are kept. Which of the three energy bars `render_dashboard` draws is not modelled.
- Warning prints and the "Top 5 weeks" debug listing (toggl.py:46, 68, 99, 108-111, 150).
- An exception raised by `fromisoformat` inside the `try` is caught, so that entry is skipped. The model represents such an entry as `Malformed` and skips it in the same way.
- `records.sort()` sorts the list in place. It is modelled as a function returning the sorted permutation. `Energy.SortedUnique` shows that the sorting method cannot change the result.
- `LastMonth` cannot express Python's `OverflowError` for January of year 1.
- TogglFetch.FetchedServedMatchesRange: for a span that takes the chunked branch, assumes `end - start` is not a multiple of `N·86400 + 1` seconds, because in that case the chunked fetch misses the range's final second (TogglFetch.ChunksReach).

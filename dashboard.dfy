/**
 * The pure formatting and layout arithmetic of dashboard.py: the
 * "Xh Ym" rendering of minutes, the best-entry label, the daily-debt line
 * and the vertical advance of the page layout.  Drawing itself is not
 * modelled; the layout helpers keep only the `y` they return.
 */
module Dashboard {
  import opened Wrappers

  const DailyGoalMin := 390
  const WeeklyGoalMin := DailyGoalMin * 5

  const BarWidth := 280
  const BarHeight := 16
  const LineHeight := 26
  const LineSpacing := 12
  const XMargin := 20
  const XBar := 160
  const YStart := 30
  /** The bitmap is `Image.new('1', (480, 800), 255)`. */
  const ImageWidth := 480
  const ImageHeight := 800

  const NoDataText := "No data"
  /** The goal text exactly as the file spells it (an emoji stored in a mis-decoded form). */
  const GoalReachedText := "\U{e2}\U{153}\U{2026} Daily goal reached!"

  /* ---- Python's str() of an int, and its inverse ---- */

  predicate IsDigit(c: char) {
    '0' <= c <= '9'
  }

  predicate AllDigits(s: string) {
    forall i :: 0 <= i < |s| ==> IsDigit(s[i])
  }

  function DigitChar(d: int): (c: char)
    requires 0 <= d < 10
    ensures IsDigit(c) && c as int - '0' as int == d
  {
    (d + '0' as int) as char
  }

  /** Decimal digits of a natural number, most significant first, no leading zeros. */
  function NatToStr(n: nat): (s: string)
    ensures |s| > 0 && AllDigits(s)
  {
    if n < 10 then [DigitChar(n)] else NatToStr(n / 10) + [DigitChar(n % 10)]
  }

  /** `f"{i}"` for an int. */
  function IntToStr(i: int): (s: string)
    ensures |s| > 0 && forall k :: 0 <= k < |s| ==> IsDigit(s[k]) || s[k] == '-'
  {
    if i < 0 then "-" + NatToStr(-i) else NatToStr(i)
  }

  function ParseNat(s: string): nat
    requires |s| > 0 && AllDigits(s)
  {
    var d := s[|s| - 1] as int - '0' as int;
    if |s| == 1 then d else ParseNat(s[..|s| - 1]) * 10 + d
  }

  /** Python's int() on an optionally signed run of decimal digits. */
  function ParseInt(s: string): Option<int>
  {
    if |s| > 1 && s[0] == '-' && AllDigits(s[1..]) then Some(-(ParseNat(s[1..]) as int))
    else if |s| > 0 && AllDigits(s) then Some(ParseNat(s) as int)
    else None
  }

  lemma {:induction false} ParseNatToStr(n: nat)
    ensures ParseNat(NatToStr(n)) == n
  {
    if n >= 10 {
      var s := NatToStr(n);
      assert s[..|s| - 1] == NatToStr(n / 10);
      ParseNatToStr(n / 10);
    }
  }

  /** The decimal rendering reads back as the number it renders. */
  lemma ParseIntToStr(i: int)
    ensures ParseInt(IntToStr(i)) == Some(i)
  {
    if i < 0 {
      var s := IntToStr(i);
      assert s[1..] == NatToStr(-i);
      ParseNatToStr(-i);
    } else {
      ParseNatToStr(i);
    }
  }

  /* ---- minutes_to_str ---- */

  /** The argument of minutes_to_str: a bare number or a `(label, minutes)` tuple. */
  datatype MinutesValue = Bare(minutes: int) | Tagged(tag: Option<string>, minutes: int)

  function IndexOf(s: string, c: char): (r: Option<nat>)
    ensures r.Some? ==> r.value < |s| && s[r.value] == c
  {
    if s == [] then None
    else if s[0] == c then Some(0)
    else match IndexOf(s[1..], c)
      case None => None
      case Some(k) => Some(k + 1)
  }

  lemma {:induction false} IndexOfAfter(a: string, b: string, c: char)
    requires forall i :: 0 <= i < |a| ==> a[i] != c
    requires |b| > 0 && b[0] == c
    ensures IndexOf(a + b, c) == Some(|a|)
  {
    if a != [] {
      assert (a + b)[1..] == a[1..] + b;
      IndexOfAfter(a[1..], b, c);
    } else {
      assert a + b == b;
    }
  }

  /** Reads "{h}h {m}m" back into `(h, m)`. */
  function ParseHoursMinutes(s: string): Option<(int, int)>
  {
    match IndexOf(s, 'h')
    case None => None
    case Some(k) =>
      if k + 2 <= |s| - 1 && s[k + 1] == ' ' && s[|s| - 1] == 'm' then
        match (ParseInt(s[..k]), ParseInt(s[k + 2..|s| - 1]))
        case (Some(h), Some(m)) => Some((h, m))
        case _ => None
      else None
  }

  lemma HoursMinutesRoundTrip(h: int, m: int)
    ensures ParseHoursMinutes(IntToStr(h) + "h " + IntToStr(m) + "m") == Some((h, m))
  {
    var a, b := IntToStr(h), IntToStr(m);
    var s := a + "h " + b + "m";
    assert s == a + ("h " + b + "m");
    IndexOfAfter(a, "h " + b + "m", 'h');
    var k := |a|;
    assert s[..k] == a;
    assert s[k + 2..|s| - 1] == b;
    ParseIntToStr(h);
    ParseIntToStr(m);
  }

  /**
   * minutes_to_str (dashboard.py:24-28): floor division and remainder by 60.
   * The text reads back as hours and minutes with `0 <= minutes < 60` that
   * recombine to the number given, bare or as the second half of a pair.
   */
  function MinutesToStr(v: MinutesValue): (s: string)
    ensures var hm := ParseHoursMinutes(s);
      hm.Some? && hm.value.0 * 60 + hm.value.1 == v.minutes && 0 <= hm.value.1 < 60
  {
    var mins := v.minutes;
    HoursMinutesRoundTrip(mins / 60, mins % 60);
    IntToStr(mins / 60) + "h " + IntToStr(mins % 60) + "m"
  }

  /** The rendering determines the minutes: distinct counts print differently. */
  lemma MinutesToStrInjective(a: MinutesValue, b: MinutesValue)
    requires MinutesToStr(a) == MinutesToStr(b)
    ensures a.minutes == b.minutes
  {
  }

  /* ---- format_best_entry ---- */

  /** A best day or week as the result record holds it: `(label, minutes)`. */
  datatype BestEntry = BestEntry(tag: Option<string>, minutes: int)

  /** A label Python treats as false: None or the empty string. */
  predicate Falsy(tag: Option<string>) {
    tag.None? || tag.value == ""
  }

  /** format_best_entry (dashboard.py:30-34); None is an empty or missing entry. */
  function FormatBestEntry(entry: Option<BestEntry>): (s: string)
    ensures s == NoDataText <==> entry.None? || Falsy(entry.value.tag)
    ensures entry.Some? && !Falsy(entry.value.tag) ==>
      s == entry.value.tag.value + " (" + MinutesToStr(Bare(entry.value.minutes)) + ")"
  {
    if entry.None? || Falsy(entry.value.tag) then NoDataText
    else
      var s := entry.value.tag.value + " (" + MinutesToStr(Tagged(entry.value.tag, entry.value.minutes)) + ")";
      assert s[|s| - 1] == ')';
      s
  }

  /**
   * The default best pair of the result record, `("No data", 0)`, has a
   * true label, so it is shown with a time rather than as the bare sentinel.
   */
  lemma NoDataPairShowsTime()
    ensures FormatBestEntry(Some(BestEntry(Some(NoDataText), 0))) == "No data (0h 0m)"
  {
    assert IntToStr(0) == "0";
  }

  /* ---- the daily debt line (dashboard.py:82-86) ---- */

  datatype DebtLine = YouOwe(amount: int) | GoalReached

  function DailyDebtLine(today: int): (d: DebtLine)
    ensures d.YouOwe? <==> today < DailyGoalMin
    ensures d.YouOwe? ==> d.amount > 0 && today + d.amount == DailyGoalMin
  {
    var debt := DailyGoalMin - today;
    if debt > 0 then YouOwe(debt) else GoalReached
  }

  function DebtText(d: DebtLine): (s: string)
    ensures s == GoalReachedText <==> d.GoalReached?
    ensures d.YouOwe? ==> s == "You owe: " + MinutesToStr(Bare(d.amount)) + " today"
  {
    match d
    case YouOwe(amount) =>
      var s := "You owe: " + MinutesToStr(Bare(amount)) + " today";
      assert s[0] == 'Y';
      s
    case GoalReached => GoalReachedText
  }

  /* ---- layout ---- */

  /** draw_label_value (dashboard.py:36-38): one text line and its spacing. */
  function DrawLabelValue(y: int): (next: int)
    ensures y + LineHeight < next
    ensures next - (y + LineHeight) == LineSpacing
  {
    y + LineHeight + LineSpacing
  }

  /**
   * The filled width of a progress bar, `int(BAR_WIDTH * min(minutes / goal, 1.0))`,
   * with the quotient taken exactly and `int` truncating toward zero.
   */
  function FillWidth(minutes: int, goal: int): (w: int)
    requires goal > 0
    ensures w <= BarWidth
    ensures minutes >= goal ==> w == BarWidth
    ensures 0 <= minutes < goal ==> 0 <= w && w * goal <= BarWidth * minutes < (w + 1) * goal
    ensures minutes < 0 ==> w <= 0 && -w * goal <= BarWidth * -minutes < (-w + 1) * goal
  {
    if minutes >= goal then BarWidth
    else if minutes >= 0 then
      FloorDivBounds(BarWidth * minutes, goal);
      ScaledBelow(minutes, goal);
      BarWidth * minutes / goal
    else
      FloorDivBounds(BarWidth * -minutes, goal);
      -((BarWidth * -minutes) / goal)
  }

  lemma FloorDivBounds(a: int, b: int)
    requires a >= 0 && b > 0
    ensures 0 <= a / b && (a / b) * b <= a < (a / b + 1) * b
  {
    assert a == (a / b) * b + a % b;
  }

  /** Below the goal the bar is not full. */
  lemma ScaledBelow(minutes: int, goal: int)
    requires 0 <= minutes < goal
    ensures BarWidth * minutes / goal <= BarWidth
  {
    var q := BarWidth * minutes / goal;
    FloorDivBounds(BarWidth * minutes, goal);
    assert BarWidth * minutes < BarWidth * goal;
    if q > BarWidth {
      assert false;
    }
  }

  /**
   * The bar's outline runs from X_BAR to X_BAR + BAR_WIDTH, right of the
   * label margin and inside the 480-pixel width, and for a non-negative
   * total the filled part starts at X_BAR and stays within the outline,
   * for both goals the page uses.
   */
  lemma BarFitsPage(minutes: int, goal: int)
    requires goal == DailyGoalMin || goal == WeeklyGoalMin
    ensures XMargin < XBar && XBar + BarWidth <= ImageWidth
    ensures minutes >= 0 ==> XBar <= XBar + FillWidth(minutes, goal) <= XBar + BarWidth
  {
  }

  /** The top of the progress bar drawn by draw_label_bar at `y`. */
  function BarTop(y: int): int {
    y + LineHeight
  }

  /** draw_label_bar (dashboard.py:40-48): a text line, then the bar under it, then spacing. */
  function DrawLabelBar(y: int): (next: int)
    ensures BarTop(y) + BarHeight < next
    ensures next == y + LineHeight + BarHeight + LineSpacing
  {
    var barY := y + LineHeight;
    barY + BarHeight + LineSpacing
  }

  /**
   * The `y` of every line the script draws (dashboard.py:62-86): three
   * headings, six labelled values and the debt line.  Each line starts
   * below the previous one (and below its bar), and the last fits on the
   * 800-pixel page.
   */
  method PageLayout() returns (rows: seq<int>)
    ensures |rows| == 10 && rows[0] == YStart
    ensures forall i :: 0 <= i < |rows| - 1 ==> rows[i] + LineHeight <= rows[i + 1]
    ensures rows[|rows| - 1] + LineHeight <= ImageHeight
  {
    var y := YStart;
    rows := [y];
    y := y + LineHeight + LineSpacing;
    rows := rows + [y];
    y := DrawLabelBar(y);
    rows := rows + [y];
    y := DrawLabelValue(y);
    rows := rows + [y];
    y := DrawLabelValue(y);

    y := y + LineHeight;
    rows := rows + [y];
    y := y + LineHeight + LineSpacing;
    rows := rows + [y];
    y := DrawLabelBar(y);
    rows := rows + [y];
    y := DrawLabelValue(y);
    rows := rows + [y];
    y := DrawLabelValue(y);

    y := y + LineHeight;
    rows := rows + [y];
    y := y + LineHeight + LineSpacing;
    rows := rows + [y];
  }
}

/** The bar chart of `apps/web/components/workspace-renderer.tsx`, over the reals: groups of bars
    side by side or stacked, in a plot area from (54, 54) to (594, 238). */
module BarChart {
  import opened JsText

  /** One validated series: the values of its points. */
  type Series = seq<real>

  const MAX_SERIES := 8
  const MAX_POINTS := 64

  /** `recordList` */
  function First<T>(items: seq<T>, limit: nat): (first: seq<T>)
    ensures |first| <= limit && first <= items
  {
    if |items| > limit then items[..limit] else items
  }

  /** The numeric values of the first 64 records; None stands for a record without one. */
  function NumericPoints(records: seq<Option<real>>): (points: Series)
    ensures |points| <= MAX_POINTS
  {
    Numbers(First(records, MAX_POINTS))
  }

  function Numbers(records: seq<Option<real>>): (points: Series)
    ensures |points| <= |records|
  {
    if records == [] then []
    else (if records[0].Some? then [records[0].value] else []) + Numbers(records[1..])
  }

  function WithPoints(entries: seq<seq<Option<real>>>): (kept: seq<Series>)
    ensures |kept| <= |entries|
    ensures forall s :: s in kept ==> 0 < |s| <= MAX_POINTS
  {
    if entries == [] then []
    else
      var points := NumericPoints(entries[0]);
      (if points != [] then [points] else []) + WithPoints(entries[1..])
  }

  /** `numericSeries`: at most eight entries count, those without points are dropped, and with none
      left the payload's own points are one series. */
  function NumericSeries(entries: seq<seq<Option<real>>>, own: seq<Option<real>>)
    : (series: seq<Series>)
    ensures |series| <= MAX_SERIES
    ensures forall s :: s in series ==> 0 < |s| <= MAX_POINTS
  {
    var kept := WithPoints(First(entries, MAX_SERIES));
    if kept != [] then kept
    else if NumericPoints(own) != [] then [NumericPoints(own)] else []
  }

  // ---- The layout ------------------------------------------------------------------------------

  datatype Bar = Bar(group: nat, series: nat, x: real, y: real, width: real, height: real)

  function Max(a: real, b: real): (m: real)
    ensures a <= m && b <= m && (m == a || m == b)
  {
    if a < b then b else a
  }

  function Min(a: real, b: real): (m: real)
    ensures m <= a && m <= b && (m == a || m == b)
  {
    if a < b then a else b
  }

  function MaximumOf(values: seq<real>): (m: real)
    ensures m >= 1.0 && forall i :: 0 <= i < |values| ==> values[i] <= m
  {
    if values == [] then 1.0
    else
      var later := MaximumOf(values[1..]);
      assert forall i :: 0 < i < |values| ==> values[i] == values[1..][i - 1];
      Max(values[0], later)
  }

  /** The largest value, and at least one. */
  function Maximum(series: seq<Series>): (m: real)
    ensures m >= 1.0
    ensures forall s, i :: 0 <= s < |series| && 0 <= i < |series[s]| ==> series[s][i] <= m
  {
    if series == [] then 1.0
    else
      var later := Maximum(series[1..]);
      assert forall s :: 0 < s < |series| ==> series[s] == series[1..][s - 1];
      Max(MaximumOf(series[0]), later)
  }

  /** The number of groups: the length of the longest series. */
  function Groups(series: seq<Series>): (n: nat)
    ensures forall s :: s in series ==> |s| <= n
    ensures n == 0 || exists s :: s in series && |s| == n
  {
    if series == [] then 0
    else
      var later := Groups(series[1..]);
      if |series[0]| > later then |series[0]| else later
  }

  function GroupWidth(count: nat): real {
    540.0 / (if count > 1 then count as real else 1.0)
  }

  function Height(value: real, maximum: real, n: nat, stacked: bool): real
    requires maximum >= 1.0 && n > 0
  {
    Max(1.0, Max(0.0, value) / maximum * (if stacked then 184.0 / n as real else 184.0))
  }

  function Width(groupWidth: real, n: nat, stacked: bool): real
    requires n > 0
  {
    if stacked then Min(48.0, groupWidth * 0.62) else Min(38.0, groupWidth * 0.7 / n as real)
  }

  function BarX(groupWidth: real, p: nat, s: nat, width: real, stacked: bool): real {
    54.0 + p as real * groupWidth + if stacked then groupWidth * 0.18 else s as real * width
  }

  /** Everything the bars of one chart share. */
  datatype Chart = Chart(series: seq<Series>, stacked: bool, maximum: real, groupWidth: real)

  function ChartOf(series: seq<Series>, stacked: bool): Chart {
    Chart(series, stacked, Maximum(series), GroupWidth(Groups(series)))
  }

  predicate Valid(c: Chart) {
    c.series != [] && c.maximum >= 1.0
  }

  /** The bar of series `s` in group `p`, on top of a stack that has reached `stackY`. */
  function BarAt(c: Chart, p: nat, s: nat, stackY: real): Bar
    requires Valid(c) && s < |c.series| && p < |c.series[s]|
  {
    var height := Height(c.series[s][p], c.maximum, |c.series|, c.stacked);
    var width := Width(c.groupWidth, |c.series|, c.stacked);
    Bar(p, s, BarX(c.groupWidth, p, s, width, c.stacked),
        (if c.stacked then stackY else 238.0) - height, width, height)
  }

  function StackAfter(c: Chart, p: nat, s: nat, stackY: real): real
    requires Valid(c) && s < |c.series|
  {
    if c.stacked && p < |c.series[s]| then BarAt(c, p, s, stackY).y else stackY
  }

  /** The bars of group `p` from series `s` on. */
  function GroupBars(c: Chart, p: nat, s: nat, stackY: real): seq<Bar>
    requires Valid(c) && s <= |c.series|
    decreases |c.series| - s
  {
    if s == |c.series| then []
    else (if p < |c.series[s]| then [BarAt(c, p, s, stackY)] else [])
         + GroupBars(c, p, s + 1, StackAfter(c, p, s, stackY))
  }

  function BarsFrom(c: Chart, p: nat, count: nat): seq<Bar>
    requires Valid(c)
    decreases count - p
  {
    if p >= count then [] else GroupBars(c, p, 0, 238.0) + BarsFrom(c, p + 1, count)
  }

  function Layout(series: seq<Series>, stacked: bool): seq<Bar>
    requires series != []
  {
    BarsFrom(ChartOf(series, stacked), 0, Groups(series))
  }

  method LayOutGroup(c: Chart, p: nat) returns (bars: seq<Bar>)
    requires Valid(c)
    ensures bars == GroupBars(c, p, 0, 238.0)
  {
    bars := [];
    var stackY := 238.0;
    ghost var goal := GroupBars(c, p, 0, 238.0);
    assert [] + goal == goal;
    for s := 0 to |c.series|
      invariant bars + GroupBars(c, p, s, stackY) == goal
    {
      ghost var rest := GroupBars(c, p, s + 1, StackAfter(c, p, s, stackY));
      if p < |c.series[s]| {
        var height := Height(c.series[s][p], c.maximum, |c.series|, c.stacked);
        var width := Width(c.groupWidth, |c.series|, c.stacked);
        var x := BarX(c.groupWidth, p, s, width, c.stacked);
        var y := (if c.stacked then stackY else 238.0) - height;
        Associate(bars, [Bar(p, s, x, y, width, height)], rest);
        bars := bars + [Bar(p, s, x, y, width, height)];
        if c.stacked { stackY := y; }
      } else {
        assert [] + rest == rest;
      }
    }
    assert bars + [] == bars;
  }

  method LayOutBars(series: seq<Series>, stacked: bool) returns (bars: seq<Bar>)
    requires series != []
    ensures bars == Layout(series, stacked)
  {
    bars := [];
    var c, count := ChartOf(series, stacked), Groups(series);
    ghost var goal := BarsFrom(c, 0, count);
    assert [] + goal == goal;
    for p := 0 to count
      invariant bars + BarsFrom(c, p, count) == goal
    {
      var group := LayOutGroup(c, p);
      Associate(bars, group, BarsFrom(c, p + 1, count));
      bars := bars + group;
    }
    assert bars + [] == bars;
  }
}

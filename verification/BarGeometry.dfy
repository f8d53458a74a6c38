/** The bars of a chart by their numbers: the series that are drawn, the scales they share, and the
    place, width and height of each bar. */
module BarGeometry {
  import opened JsText
  import opened Selections
  import opened BarChart
  import opened BarLayout

  // ---- The series ----------------------------------------------------------------------------------

  predicate IsNumber(record: Option<real>) { record.Some? }

  function NumberIn(record: Option<real>): real {
    if record.Some? then record.value else 0.0
  }

  function Among<T>(items: seq<T>, limit: nat): seq<T> {
    items[..if |items| < limit then |items| else limit]
  }

  /** The numbers among the first 64 records, in order. */
  ghost predicate PointsOf(records: seq<Option<real>>, points: Series) {
    Selects(Among(records, 64), IsNumber, NumberIn, points)
  }

  predicate IsSeries(records: seq<Option<real>>) { NumericPoints(records) != [] }

  /** The series drawn: those with a number among the first eight entries, in order, or else the
      payload's own points. */
  ghost predicate SeriesOf(entries: seq<seq<Option<real>>>, own: seq<Option<real>>, series: seq<Series>) {
    || (series != [] && Selects(Among(entries, 8), IsSeries, NumericPoints, series))
    || (Selects(Among(entries, 8), IsSeries, NumericPoints, [])
        && series == if NumericPoints(own) != [] then [NumericPoints(own)] else [])
  }

  lemma {:induction false} NumbersPicked(records: seq<Option<real>>)
    ensures Numbers(records) == Picked(records, IsNumber, NumberIn)
  {
    if records != [] {
      var n := |records| - 1;
      NumbersPicked(records[..n]);
      NumbersConcat(records[..n], [records[n]]);
      FrontAndLast(records);
      assert [records[n]][1..] == [];
    }
  }

  lemma {:induction false} NumbersConcat(a: seq<Option<real>>, b: seq<Option<real>>)
    ensures Numbers(a + b) == Numbers(a) + Numbers(b)
  {
    if a == [] {
      WithEmpty(b);
    } else {
      DropWithin(a, b, 1);
      NumbersConcat(a[1..], b);
      Associate(if a[0].Some? then [a[0].value] else [], Numbers(a[1..]), Numbers(b));
    }
  }

  lemma {:induction false} SeriesPicked(entries: seq<seq<Option<real>>>)
    ensures WithPoints(entries) == Picked(entries, IsSeries, NumericPoints)
  {
    if entries != [] {
      var n := |entries| - 1;
      SeriesPicked(entries[..n]);
      WithPointsConcat(entries[..n], [entries[n]]);
      FrontAndLast(entries);
      OneSeries(entries[n]);
    }
  }

  lemma OneSeries(records: seq<Option<real>>)
    ensures WithPoints([records]) == if IsSeries(records) then [NumericPoints(records)] else []
  {
    var none: seq<seq<Option<real>>> := [];
    assert [records][1..] == none && WithPoints(none) == [];
    WithEmpty(if IsSeries(records) then [NumericPoints(records)] else []);
  }

  lemma {:induction false} WithPointsConcat(a: seq<seq<Option<real>>>, b: seq<seq<Option<real>>>)
    ensures WithPoints(a + b) == WithPoints(a) + WithPoints(b)
  {
    if a == [] {
      WithEmpty(b);
    } else {
      DropWithin(a, b, 1);
      WithPointsConcat(a[1..], b);
      Associate(if IsSeries(a[0]) then [NumericPoints(a[0])] else [], WithPoints(a[1..]), WithPoints(b));
    }
  }

  lemma FirstIsAmong<T>(items: seq<T>, limit: nat)
    ensures First(items, limit) == Among(items, limit)
  {
  }

  /** What is drawn of a payload, exactly. */
  lemma SeriesExactly(entries: seq<seq<Option<real>>>, own: seq<Option<real>>, series: seq<Series>)
    ensures series == NumericSeries(entries, own) <==> SeriesOf(entries, own, series)
    ensures forall records, points: Series :: points == NumericPoints(records) <==> PointsOf(records, points)
  {
    forall records, points: Series
      ensures points == NumericPoints(records) <==> PointsOf(records, points)
    {
      FirstIsAmong(records, 64);
      NumbersPicked(Among(records, 64));
      SelectsExactly(Among(records, 64), IsNumber, NumberIn, points);
    }
    FirstIsAmong(entries, 8);
    SeriesPicked(Among(entries, 8));
    SelectsExactly(Among(entries, 8), IsSeries, NumericPoints, series);
    SelectsExactly(Among(entries, 8), IsSeries, NumericPoints, []);
  }

  // ---- The scales ----------------------------------------------------------------------------------

  predicate HasValue(series: seq<Series>, value: real) {
    exists s, p :: 0 <= s < |series| && 0 <= p < |series[s]| && series[s][p] == value
  }

  /** `maximum` is the largest value, or one if no value is larger; `count` is the length of the
      longest series. */
  predicate Scales(series: seq<Series>, maximum: real, count: nat) {
    && maximum >= 1.0 && (maximum == 1.0 || HasValue(series, maximum))
    && (forall s, p :: 0 <= s < |series| && 0 <= p < |series[s]| ==> series[s][p] <= maximum)
    && (forall s :: 0 <= s < |series| ==> |series[s]| <= count)
    && exists s :: 0 <= s < |series| && |series[s]| == count
  }

  lemma {:induction false} LargestIsThere(values: seq<real>)
    ensures MaximumOf(values) == 1.0
            || exists i :: 0 <= i < |values| && values[i] == MaximumOf(values)
  {
    if values != [] {
      LargestIsThere(values[1..]);
      if i :| 0 <= i < |values[1..]| && values[1..][i] == MaximumOf(values[1..]) {
        assert values[i + 1] == MaximumOf(values[1..]);
      }
    }
  }

  lemma {:induction false} MaximumIsThere(series: seq<Series>)
    ensures Maximum(series) == 1.0 || HasValue(series, Maximum(series))
  {
    if series != [] {
      LargestIsThere(series[0]);
      MaximumIsThere(series[1..]);
      if HasValue(series[1..], Maximum(series[1..])) {
        var s, p :| 0 <= s < |series[1..]| && 0 <= p < |series[1..][s]|
                    && series[1..][s][p] == Maximum(series[1..]);
        assert series[s + 1][p] == Maximum(series[1..]);
      }
    }
  }

  /** The scales of a chart, exactly. */
  lemma ScalesExactly(series: seq<Series>, maximum: real, count: nat)
    requires Plottable(series)
    ensures Scales(series, maximum, count) <==> maximum == Maximum(series) && count == Groups(series)
  {
    MaximumIsThere(series);
    assert series[0] in series && Groups(series) > 0;
    var longest :| longest in series && |longest| == Groups(series);
    assert forall s :: 0 <= s < |series| ==> series[s] in series;
  }

  // ---- The bars ------------------------------------------------------------------------------------

  /** The full height, or the share of one series in a stack, scaled by the value; at least one. */
  function BarHeight(value: real, maximum: real, n: nat, stacked: bool): real
    requires maximum >= 1.0 && n > 0
  {
    Max(1.0, Max(0.0, value) / maximum * (if stacked then 184.0 / n as real else 184.0))
  }

  /** What the bars of group `p` below series `s` add up to. */
  function Below(series: seq<Series>, p: nat, s: nat, maximum: real): real
    requires maximum >= 1.0 && s <= |series|
  {
    if s == 0 then 0.0
    else Below(series, p, s - 1, maximum)
         + if p < |series[s - 1]| then BarHeight(series[s - 1][p], maximum, |series|, true) else 0.0
  }

  /** The numbers of a bar, `slot` being the width of a group. */
  predicate Drawn(b: Bar, series: seq<Series>, stacked: bool, maximum: real, slot: real)
    requires maximum >= 1.0
  {
    && b.series < |series| && b.group < |series[b.series]|
    && b.height == BarHeight(series[b.series][b.group], maximum, |series|, stacked)
    && if stacked then
         && b.width == Min(48.0, slot * 0.62)
         && b.x == 54.0 + b.group as real * slot + slot * 0.18
         && b.y + b.height == 238.0 - Below(series, b.group, b.series, maximum)
       else
         && b.width == Min(38.0, slot * 0.7 / |series| as real)
         && b.x == 54.0 + b.group as real * slot + b.series as real * b.width
         && b.y + b.height == 238.0
  }

  /** Every bar of a chart stands where the scales put it, and is as wide and as tall as they say. */
  lemma BarsAreDrawn(series: seq<Series>, stacked: bool, maximum: real, count: nat, b: Bar)
    requires Plottable(series) && Scales(series, maximum, count) && b in Layout(series, stacked)
    ensures count > 0 && Drawn(b, series, stacked, maximum, 540.0 / count as real)
  {
    ScalesExactly(series, maximum, count);
    assert series[0] in series;
    BarsDrawn(ChartOf(series, stacked), 0, count, b);
  }

  lemma {:induction false} BarsDrawn(c: Chart, p: nat, count: nat, b: Bar)
    requires Valid(c) && b in BarsFrom(c, p, count)
    ensures Drawn(b, c.series, c.stacked, c.maximum, c.groupWidth)
    decreases count - p
  {
    if b in GroupBars(c, p, 0, 238.0) {
      GroupDrawn(c, p, 0, 238.0, b);
    } else {
      BarsDrawn(c, p + 1, count, b);
    }
  }

  lemma {:induction false} GroupDrawn(c: Chart, p: nat, s: nat, stackY: real, b: Bar)
    requires Valid(c) && s <= |c.series| && b in GroupBars(c, p, s, stackY)
    requires c.stacked ==> stackY == 238.0 - Below(c.series, p, s, c.maximum)
    ensures Drawn(b, c.series, c.stacked, c.maximum, c.groupWidth)
    decreases |c.series| - s
  {
    if b in GroupBars(c, p, s + 1, StackAfter(c, p, s, stackY)) {
      StackGrows(c, p, s, stackY);
      GroupDrawn(c, p, s + 1, StackAfter(c, p, s, stackY), b);
    } else {
      BarDrawn(c, p, s, stackY);
    }
  }

  lemma SameHeight(value: real, maximum: real, n: nat, stacked: bool)
    requires maximum >= 1.0 && n > 0
    ensures Height(value, maximum, n, stacked) == BarHeight(value, maximum, n, stacked)
  {
  }

  lemma StackGrows(c: Chart, p: nat, s: nat, stackY: real)
    requires Valid(c) && s < |c.series|
    requires c.stacked ==> stackY == 238.0 - Below(c.series, p, s, c.maximum)
    ensures c.stacked ==> StackAfter(c, p, s, stackY) == 238.0 - Below(c.series, p, s + 1, c.maximum)
  {
    if p < |c.series[s]| {
      SameHeight(c.series[s][p], c.maximum, |c.series|, true);
    }
  }

  lemma BarDrawn(c: Chart, p: nat, s: nat, stackY: real)
    requires Valid(c) && s < |c.series| && p < |c.series[s]|
    requires c.stacked ==> stackY == 238.0 - Below(c.series, p, s, c.maximum)
    ensures Drawn(BarAt(c, p, s, stackY), c.series, c.stacked, c.maximum, c.groupWidth)
  {
    SameHeight(c.series[s][p], c.maximum, |c.series|, c.stacked);
  }
}

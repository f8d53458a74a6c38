/** Where the bars of a chart come to lie: inside the plot area, none over another, one for each
    point. */
module BarLayout {
  import opened JsText
  import opened BarChart

  predicate Inside(b: Bar) {
    54.0 <= b.x && b.x + b.width <= 594.0 && 54.0 <= b.y && b.y + b.height <= 238.0
  }

  predicate Overlap(a: Bar, b: Bar) {
    && a.x < b.x + b.width && b.x < a.x + a.width
    && a.y < b.y + b.height && b.y < a.y + a.height
  }

  /** Bars come group by group, and in a group series by series. */
  predicate Before(a: Bar, b: Bar) {
    a.group < b.group || (a.group == b.group && a.series < b.series)
  }

  /** Bar `i` stands where the one before it ends, or on `base`. */
  predicate Stands(bars: seq<Bar>, i: nat, stacked: bool, base: real)
    requires i < |bars|
  {
    bars[i].y + bars[i].height ==
    if !stacked then 238.0 else if i > 0 then bars[i - 1].y else base
  }

  predicate Plottable(series: seq<Series>) {
    series != [] && forall s :: s in series ==> s != []
  }

  // ---- The main results --------------------------------------------------------------------------

  /** Every bar of every validated payload lies in the plot area. */
  lemma BarsStayInside(entries: seq<seq<Option<real>>>, own: seq<Option<real>>, stacked: bool,
                       b: Bar)
    requires NumericSeries(entries, own) != []
    requires b in Layout(NumericSeries(entries, own), stacked)
    ensures Inside(b) && b.width > 0.0 && b.height >= 1.0
  {
    InsideWithinCap(NumericSeries(entries, own), stacked, b);
  }

  /** No two bars of a chart overlap. */
  lemma NoTwoBarsOverlap(series: seq<Series>, stacked: bool, i: nat, j: nat)
    requires Plottable(series) && i < j < |Layout(series, stacked)|
    ensures Before(Layout(series, stacked)[i], Layout(series, stacked)[j])
    ensures !Overlap(Layout(series, stacked)[i], Layout(series, stacked)[j])
  {
    ChartFits(series, stacked);
    FromApart(ChartOf(series, stacked), 0, Groups(series));
  }

  /** The bars of a stack stand on one another, the first one on the axis; side by side they all
      stand on the axis. */
  lemma StacksAreContiguous(c: Chart, p: nat, i: nat)
    requires Valid(c) && i < |GroupBars(c, p, 0, 238.0)|
    ensures Stands(GroupBars(c, p, 0, 238.0), i, c.stacked, 238.0)
  {
    Contiguous(c, p, 0, 238.0, i);
  }

  /** There is one bar for each point and for nothing else, as tall as its value asks. */
  lemma EveryPointHasItsBar(series: seq<Series>, stacked: bool, p: nat, s: nat)
    requires Plottable(series)
    ensures (exists b :: b in Layout(series, stacked) && b.group == p && b.series == s) <==>
            s < |series| && p < |series[s]|
    ensures forall b :: b in Layout(series, stacked) && b.group == p && b.series == s ==>
              s < |series| && p < |series[s]|
              && b.height == Height(series[s][p], Maximum(series), |series|, stacked)
  {
    var c := ChartOf(series, stacked);
    FromPoints(c, 0, Groups(series));
    if s < |series| && p < |series[s]| {
      assert series[s] in series;
      FromHasBar(c, 0, Groups(series), p, s);
    }
  }

  /** The limit of eight series is what keeps a stack inside: exactly up to 184 series fit, since
      no bar is less than one high. */
  lemma StacksFitExactly(n: nat)
    requires n > 0
    ensures (forall series, b :: |series| == n && Plottable(series) && b in Layout(series, true) ==>
               Inside(b)) <==> n <= 184
  {
    if n <= 184 {
      forall series, b | |series| == n && Plottable(series) && b in Layout(series, true)
        ensures Inside(b)
      {
        InsideWithinCap(series, true, b);
      }
    } else {
      TooManySeries(n);
    }
  }

  // ---- Arithmetic --------------------------------------------------------------------------------

  /** `k` widths side by side. */
  function Multiple(k: nat, g: real): real {
    if k == 0 then 0.0 else Multiple(k - 1, g) + g
  }

  lemma {:induction false} MultipleIsProduct(k: nat, g: real)
    ensures Multiple(k, g) == k as real * g
  {
    if k > 0 {
      MultipleIsProduct(k - 1, g);
      assert k as real * g == (k - 1) as real * g + g;
    }
  }

  lemma {:induction false} MultipleGrows(j: nat, k: nat, g: real)
    requires j <= k && g >= 0.0
    ensures Multiple(j, g) <= Multiple(k, g)
  {
    if j < k {
      MultipleGrows(j, k - 1, g);
    }
  }

  lemma {:induction false} MultipleKeepsOrder(k: nat, g: real, h: real)
    requires g <= h
    ensures Multiple(k, g) <= Multiple(k, h)
  {
    if k > 0 {
      MultipleKeepsOrder(k - 1, g, h);
    }
  }

  /** `k` of `k` equal parts are the whole. */
  lemma Parts(k: nat, whole: real)
    requires k > 0
    ensures Multiple(k, whole / k as real) == whole
  {
    MultipleIsProduct(k, whole / k as real);
  }

  lemma Fraction(v: real, m: real, h: real)
    requires 0.0 <= v <= m && m >= 1.0 && h >= 0.0
    ensures 0.0 <= v / m * h <= h
  {
    var q := v / m;
    assert 0.0 <= q <= 1.0;
    Shrinks(q, h);
  }

  lemma Shrinks(q: real, h: real)
    requires 0.0 <= q <= 1.0 && h >= 0.0
    ensures 0.0 <= q * h <= h
  {
  }

  function Left(c: Chart, p: nat): real {
    54.0 + Multiple(p, c.groupWidth)
  }

  /** What is needed of a chart: its groups have a width and its maximum is one. */
  ghost predicate Fits(c: Chart) {
    && Valid(c) && c.groupWidth > 0.0
    && forall s, p :: 0 <= s < |c.series| && 0 <= p < |c.series[s]| ==> c.series[s][p] <= c.maximum
  }

  lemma GroupsFill(count: nat)
    requires count > 0
    ensures GroupWidth(count) > 0.0 && Multiple(count, GroupWidth(count)) == 540.0
  {
    Parts(count, 540.0);
  }

  lemma ChartFits(series: seq<Series>, stacked: bool)
    requires Plottable(series)
    ensures Fits(ChartOf(series, stacked)) && Groups(series) > 0
  {
    assert series[0] in series;
    GroupsFill(Groups(series));
  }

  lemma LeftStep(c: Chart, p: nat, q: nat)
    requires Fits(c) && p < q
    ensures Left(c, p) + c.groupWidth <= Left(c, q)
  {
    MultipleGrows(p + 1, q, c.groupWidth);
  }

  /** The most a bar of a stack of `n` can rise. */
  function StackUnit(n: nat): real
    requires n > 0
  {
    Max(1.0, 184.0 / n as real)
  }

  lemma HeightBounds(value: real, maximum: real, n: nat, stacked: bool)
    requires value <= maximum && maximum >= 1.0 && n > 0
    ensures 1.0 <= Height(value, maximum, n, stacked) <= if stacked then StackUnit(n) else 184.0
  {
    Fraction(Max(0.0, value), maximum, if stacked then 184.0 / n as real else 184.0);
  }

  lemma WidthBounds(groupWidth: real, n: nat, s: nat)
    requires groupWidth > 0.0 && s < n
    ensures 0.0 < Width(groupWidth, n, true) <= groupWidth * 0.62
    ensures var w := Width(groupWidth, n, false);
            0.0 < w && 0.0 <= Multiple(s, w) && Multiple(s, w) + w <= groupWidth * 0.7
  {
    var w, share := Width(groupWidth, n, false), groupWidth * 0.7 / n as real;
    Parts(n, groupWidth * 0.7);
    assert share > 0.0 && 0.0 < w <= share;
    MultipleGrows(0, s, w);
    MultipleGrows(s + 1, n, w);
    MultipleKeepsOrder(n, w, share);
  }

  // ---- One bar, one group --------------------------------------------------------------------------

  ghost predicate InSlot(c: Chart, b: Bar, p: nat) {
    && b.group == p && b.width > 0.0 && b.height >= 1.0
    && Left(c, p) <= b.x && b.x + b.width <= Left(c, p) + c.groupWidth * 0.8
  }

  lemma XIs(groupWidth: real, p: nat, s: nat, width: real, stacked: bool)
    ensures BarX(groupWidth, p, s, width, stacked) ==
            54.0 + Multiple(p, groupWidth)
            + if stacked then groupWidth * 0.18 else Multiple(s, width)
  {
    MultipleIsProduct(p, groupWidth);
    MultipleIsProduct(s, width);
  }

  lemma BarInSlot(c: Chart, p: nat, s: nat, stackY: real, b: Bar)
    requires Fits(c) && s < |c.series| && p < |c.series[s]| && b == BarAt(c, p, s, stackY)
    ensures InSlot(c, b, p) && b.series == s
    ensures b.height == Height(c.series[s][p], c.maximum, |c.series|, c.stacked)
    ensures if c.stacked then b.height <= StackUnit(|c.series|) else b.height <= 184.0
    ensures b.y + b.height == if c.stacked then stackY else 238.0
    ensures !c.stacked ==> b.width == Width(c.groupWidth, |c.series|, false)
    ensures !c.stacked ==> b.x == Left(c, p) + Multiple(s, b.width)
  {
    HeightBounds(c.series[s][p], c.maximum, |c.series|, c.stacked);
    WidthBounds(c.groupWidth, |c.series|, s);
    XIs(c.groupWidth, p, s, b.width, c.stacked);
  }

  /** The space the bars from series `s` on keep to. */
  ghost predicate Beyond(c: Chart, b: Bar, p: nat, s: nat, stackY: real)
    requires Fits(c)
  {
    && InSlot(c, b, p) && s <= b.series < |c.series| && p < |c.series[b.series]|
    && b.height == Height(c.series[b.series][p], c.maximum, |c.series|, c.stacked)
    && if c.stacked
       then b.y + b.height <= stackY
            && stackY - Multiple(|c.series| - s, StackUnit(|c.series|)) <= b.y
       else b.y + b.height == 238.0 && b.height <= 184.0
            && Left(c, p) + Multiple(s, Width(c.groupWidth, |c.series|, false)) <= b.x
  }

  lemma NextBeyond(c: Chart, b: Bar, p: nat, s: nat, stackY: real, next: real)
    requires Fits(c) && s < |c.series| && Beyond(c, b, p, s + 1, next)
    requires c.stacked ==> next <= stackY <= next + StackUnit(|c.series|)
    ensures Beyond(c, b, p, s, stackY)
  {
    WidthBounds(c.groupWidth, |c.series|, s);
  }

  lemma BarBeyond(c: Chart, p: nat, s: nat, stackY: real, b: Bar)
    requires Fits(c) && s < |c.series| && p < |c.series[s]| && b == BarAt(c, p, s, stackY)
    ensures Beyond(c, b, p, s, stackY)
  {
    BarInSlot(c, p, s, stackY, b);
    MultipleGrows(1, |c.series| - s, StackUnit(|c.series|));
  }

  lemma StackStep(c: Chart, p: nat, s: nat, stackY: real)
    requires Fits(c) && s < |c.series|
    ensures var next := StackAfter(c, p, s, stackY);
            c.stacked ==> next <= stackY <= next + StackUnit(|c.series|)
  {
    if p < |c.series[s]| {
      BarInSlot(c, p, s, stackY, BarAt(c, p, s, stackY));
    }
  }

  lemma {:induction false} GroupBeyond(c: Chart, p: nat, s: nat, stackY: real, b: Bar)
    requires Fits(c) && s <= |c.series| && b in GroupBars(c, p, s, stackY)
    ensures Beyond(c, b, p, s, stackY)
    decreases |c.series| - s
  {
    if b in GroupBars(c, p, s + 1, StackAfter(c, p, s, stackY)) {
      GroupBeyond(c, p, s + 1, StackAfter(c, p, s, stackY), b);
      StackStep(c, p, s, stackY);
      NextBeyond(c, b, p, s, stackY, StackAfter(c, p, s, stackY));
    } else {
      BarBeyond(c, p, s, stackY, b);
    }
  }

  ghost predicate Apart(bars: seq<Bar>) {
    forall i, j :: 0 <= i < j < |bars| ==> Before(bars[i], bars[j]) && !Overlap(bars[i], bars[j])
  }

  lemma ApartConcat(a: seq<Bar>, b: seq<Bar>)
    requires Apart(a) && Apart(b)
    requires forall x, y :: x in a && y in b ==> Before(x, y) && !Overlap(x, y)
    ensures Apart(a + b)
  {
    var all := a + b;
    forall i, j | 0 <= i < j < |all|
      ensures Before(all[i], all[j]) && !Overlap(all[i], all[j])
    {
      if i < |a| <= j { assert all[i] in a && all[j] in b; }
    }
  }

  lemma HeadApart(c: Chart, p: nat, s: nat, stackY: real, head: Bar, b: Bar)
    requires Fits(c) && s < |c.series| && p < |c.series[s]| && head == BarAt(c, p, s, stackY)
    requires Beyond(c, b, p, s + 1, if c.stacked then head.y else stackY)
    ensures Before(head, b) && !Overlap(head, b)
  {
    BarInSlot(c, p, s, stackY, head);
  }

  lemma {:induction false} GroupApart(c: Chart, p: nat, s: nat, stackY: real)
    requires Fits(c) && s <= |c.series|
    ensures Apart(GroupBars(c, p, s, stackY))
    decreases |c.series| - s
  {
    if s < |c.series| {
      var rest := GroupBars(c, p, s + 1, StackAfter(c, p, s, stackY));
      GroupApart(c, p, s + 1, StackAfter(c, p, s, stackY));
      if p < |c.series[s]| {
        var head := [BarAt(c, p, s, stackY)];
        forall x, y | x in head && y in rest ensures Before(x, y) && !Overlap(x, y) {
          GroupBeyond(c, p, s + 1, StackAfter(c, p, s, stackY), y);
          HeadApart(c, p, s, stackY, x, y);
        }
        ApartConcat(head, rest);
      } else {
        assert [] + rest == rest;
      }
    }
  }

  lemma {:induction false} Contiguous(c: Chart, p: nat, s: nat, stackY: real, i: nat)
    requires Valid(c) && s <= |c.series| && i < |GroupBars(c, p, s, stackY)|
    ensures Stands(GroupBars(c, p, s, stackY), i, c.stacked, stackY)
    decreases |c.series| - s
  {
    var later := StackAfter(c, p, s, stackY);
    var bars, rest := GroupBars(c, p, s, stackY), GroupBars(c, p, s + 1, later);
    if p >= |c.series[s]| {
      assert bars == rest;
      Contiguous(c, p, s + 1, later, i);
    } else if i > 0 {
      assert bars[i] == rest[i - 1] && (i > 1 ==> bars[i - 1] == rest[i - 2]);
      Contiguous(c, p, s + 1, later, i - 1);
    }
  }

  // ---- All groups --------------------------------------------------------------------------------

  lemma {:induction false} FromSlots(c: Chart, p: nat, count: nat, b: Bar)
    requires Fits(c) && b in BarsFrom(c, p, count)
    ensures p <= b.group < count && Beyond(c, b, b.group, 0, 238.0)
    decreases count - p
  {
    if b in GroupBars(c, p, 0, 238.0) {
      GroupBeyond(c, p, 0, 238.0, b);
    } else {
      FromSlots(c, p + 1, count, b);
    }
  }

  lemma {:induction false} FromApart(c: Chart, p: nat, count: nat)
    requires Fits(c)
    ensures Apart(BarsFrom(c, p, count))
    decreases count - p
  {
    if p < count {
      var group, rest := GroupBars(c, p, 0, 238.0), BarsFrom(c, p + 1, count);
      GroupApart(c, p, 0, 238.0);
      FromApart(c, p + 1, count);
      forall x, y | x in group && y in rest ensures Before(x, y) && !Overlap(x, y) {
        GroupBeyond(c, p, 0, 238.0, x);
        FromSlots(c, p + 1, count, y);
        LeftStep(c, p, y.group);
      }
      ApartConcat(group, rest);
    }
  }

  lemma FromPoints(c: Chart, p: nat, count: nat)
    requires Fits(c)
    ensures forall b :: b in BarsFrom(c, p, count) ==>
              b.series < |c.series| && b.group < |c.series[b.series]|
              && b.height == Height(c.series[b.series][b.group], c.maximum, |c.series|, c.stacked)
  {
    forall b | b in BarsFrom(c, p, count)
      ensures b.series < |c.series| && b.group < |c.series[b.series]|
              && b.height == Height(c.series[b.series][b.group], c.maximum, |c.series|, c.stacked)
    {
      FromSlots(c, p, count, b);
    }
  }

  lemma {:induction false} GroupHasBar(c: Chart, p: nat, from: nat, stackY: real, s: nat)
    requires Valid(c) && from <= s < |c.series| && p < |c.series[s]|
    ensures exists b :: b in GroupBars(c, p, from, stackY) && b.group == p && b.series == s
    decreases s - from
  {
    if from == s {
      assert BarAt(c, p, s, stackY) in GroupBars(c, p, from, stackY);
    } else {
      GroupHasBar(c, p, from + 1, StackAfter(c, p, from, stackY), s);
    }
  }

  lemma {:induction false} FromHasBar(c: Chart, from: nat, count: nat, p: nat, s: nat)
    requires Valid(c) && from <= p < count && s < |c.series| && p < |c.series[s]|
    ensures exists b :: b in BarsFrom(c, from, count) && b.group == p && b.series == s
    decreases p - from
  {
    if from == p {
      GroupHasBar(c, p, 0, 238.0, s);
    } else {
      FromHasBar(c, from + 1, count, p, s);
    }
  }

  /** With up to 184 series the parts of a full stack are 184 high together. */
  lemma FullStack(n: nat)
    requires 0 < n <= 184
    ensures Multiple(n, StackUnit(n)) == 184.0
  {
    Parts(n, 184.0);
  }

  lemma SlotInside(c: Chart, b: Bar, p: nat, count: nat)
    requires Fits(c) && InSlot(c, b, p) && p < count && Multiple(count, c.groupWidth) == 540.0
    ensures 54.0 <= b.x && b.x + b.width <= 594.0
  {
    LeftStep(c, p, p + 1);
    MultipleGrows(p + 1, count, c.groupWidth);
    MultipleGrows(0, p, c.groupWidth);
  }

  lemma InsideWithinCap(series: seq<Series>, stacked: bool, b: Bar)
    requires Plottable(series) && |series| <= 184 && b in Layout(series, stacked)
    ensures Inside(b) && b.width > 0.0 && b.height >= 1.0
  {
    var c, count := ChartOf(series, stacked), Groups(series);
    ChartFits(series, stacked);
    FromSlots(c, 0, count, b);
    GroupsFill(count);
    SlotInside(c, b, b.group, count);
    FullStack(|series|);
  }

  // ---- Too many series -----------------------------------------------------------------------------

  /** `n` series of one zero each: their bars are all one high. */
  lemma TooManySeries(n: nat)
    requires n > 184
    ensures exists series, b :: |series| == n && Plottable(series) && b in Layout(series, true)
                                && !Inside(b)
  {
    var series: seq<Series> := seq(n, i => [0.0]);
    assert series[0] == [0.0];
    assert Plottable(series);
    ChartFits(series, true);
    var c := ChartOf(series, true);
    StackOfOnes(c, 0, 238.0);
    var b :| b in GroupBars(c, 0, 0, 238.0) && b.y == 238.0 - n as real;
    assert b in Layout(series, true) && !Inside(b);
  }

  lemma {:induction false} StackOfOnes(c: Chart, s: nat, stackY: real)
    requires Valid(c) && c.stacked && s < |c.series|
    requires forall i :: 0 <= i < |c.series| ==> c.series[i] == [0.0]
    ensures exists b :: b in GroupBars(c, 0, s, stackY)
                        && b.y == stackY - (|c.series| - s) as real
    decreases |c.series| - s
  {
    var b := BarAt(c, 0, s, stackY);
    Fraction(0.0, c.maximum, 184.0 / |c.series| as real);
    assert 0.0 / c.maximum == 0.0;
    assert b.y == stackY - 1.0;
    assert GroupBars(c, 0, s, stackY) == [b] + GroupBars(c, 0, s + 1, b.y);
    if s + 1 < |c.series| {
      StackOfOnes(c, s + 1, b.y);
    } else {
      assert b in GroupBars(c, 0, s, stackY);
    }
  }
}

/** The three chart builders of main.py as plans: everything each builder
    hands to matplotlib (bars, labels, tick texts, titles, axis range),
    computed from the request, without the drawing itself. */
module Charts {
  import opened Digits
  import opened NumberFormat
  import opened SeriesAlign
  import opened Layout

  /** The request fields besides the data: the two month captions and the
      figure size and resolution. */
  datatype Request = Request(lastMonth: string, prevMonth: string, width: int, height: int, dpi: int)

  datatype Corner = UpperRight | LowerRight

  /** One figure as main.py sets it up. Bars list the last-month bars of
      categories 0..N-1 first, then the previous-month bars; annotations
      are in the same order. Category i is drawn at position i. */
  datatype Chart = Chart(
    orientation: Orientation,
    width: int, height: int, dpi: int,
    title: string,
    valueAxisLabel: string,
    categories: seq<string>,
    legend: seq<string>,
    legendCorner: Corner,
    bars: seq<Rect>,
    annotations: seq<Annotation>,
    valueLimit: real,
    tickStyle: NumberStyle,
    invertedCategoryAxis: bool)

  /** One month of the dictionary `create_revenue_chart` receives. The
      shares are kept as the text Python's f-string prints for them. */
  datatype Period = Period(revenue: seq<real>, share: seq<string>)

  datatype RevenueData = RevenueData(labels: seq<string>, last: Period, prev: Period)

  /** What the builder needs: one revenue per label in each month, a share
      for each of them, and at least one category for `max`. */
  predicate RevenueShaped(d: RevenueData) {
    |d.labels| >= 1 &&
    |d.last.revenue| == |d.labels| && |d.prev.revenue| == |d.labels| &&
    |d.last.share| >= |d.labels| && |d.prev.share| >= |d.labels|
  }

  /** A label of the vertical chart for the bar carrying value at
      position pos: at the top centre of the bar, 4 points up, centred,
      showing the value and the share; the text splits back into the two. */
  predicate RevenueLabelAt(a: Annotation, pos: real, value: real, share: string) {
    a.x == pos && a.y == value && a.dx == 0 && a.dy == 4 && a.ha == Center && a.va == Bottom &&
    a.text == ShareLabel(FormatLarge(RevenueChartCopy, value), share) &&
    ParseShareLabel(a.text) == Some((FormatLarge(RevenueChartCopy, value), share))
  }

  /** A label of a horizontal chart for the bar carrying value at position
      pos: at the end of the bar, on its centre line, 3 points to the right,
      showing the value in the chart's style. */
  predicate BarLabelAt(a: Annotation, pos: real, value: real, style: NumberStyle) {
    a.x == value && a.y == pos && a.dx == 3 && a.dy == 0 && a.ha == Left && a.va == Middle &&
    a.text == Format(style, value) && NoNewline(a.text)
  }

  /** `create_revenue_chart`: vertical grouped bars in input order, each
      label showing the abbreviated revenue and the share of that input
      position, and the value axis running to 1.3 times the largest
      revenue. The tick labels use the same formatter as the bar labels. */
  method RevenueChart(d: RevenueData, req: Request) returns (c: Chart)
    requires RevenueShaped(d)
    ensures c.orientation == Vertical && !c.invertedCategoryAxis
    ensures c.width == req.width && c.height == req.height && c.dpi == req.dpi
    ensures c.title == "Doanh thu công ty tháng " + req.lastMonth + " và tháng " + req.prevMonth
    ensures c.valueAxisLabel == "Doanh thu (VNĐ)"
    ensures c.legend == ["Doanh thu " + req.lastMonth, "Doanh thu " + req.prevMonth] && c.legendCorner == UpperRight
    ensures c.categories == d.labels
    ensures c.bars == Bars(Vertical, d.last.revenue, LastShift) + Bars(Vertical, d.prev.revenue, PrevShift)
    ensures |c.annotations| == 2 * |d.labels|
    ensures forall i :: 0 <= i < |d.labels| ==>
              RevenueLabelAt(c.annotations[i], i as real + LastShift, d.last.revenue[i], d.last.share[i]) &&
              RevenueLabelAt(c.annotations[|d.labels| + i], i as real + PrevShift, d.prev.revenue[i], d.prev.share[i])
    ensures c.valueLimit == ValueLimit(d.last.revenue, d.prev.revenue, VerticalHeadroom)
    ensures c.tickStyle == Abbreviated(RevenueChartCopy)
  {
    var n := |d.labels|;
    var rects1 := Bars(Vertical, d.last.revenue, LastShift);
    var rects2 := Bars(Vertical, d.prev.revenue, PrevShift);
    var labels1 := VerticalLabels(rects1, d.last.share);
    var labels2 := VerticalLabels(rects2, d.prev.share);
    c := Chart(Vertical, req.width, req.height, req.dpi,
               "Doanh thu công ty tháng " + req.lastMonth + " và tháng " + req.prevMonth,
               "Doanh thu (VNĐ)",
               d.labels,
               ["Doanh thu " + req.lastMonth, "Doanh thu " + req.prevMonth], UpperRight,
               rects1 + rects2, labels1 + labels2,
               ValueLimit(d.last.revenue, d.prev.revenue, VerticalHeadroom),
               Abbreviated(RevenueChartCopy), false);
    forall i | 0 <= i < n
      ensures RevenueLabelAt(c.annotations[i], i as real + LastShift, d.last.revenue[i], d.last.share[i])
      ensures RevenueLabelAt(c.annotations[n + i], i as real + PrevShift, d.prev.revenue[i], d.prev.share[i])
    {
      LabelAnchors(Vertical, d.last.revenue, LastShift, i);
      LabelAnchors(Vertical, d.prev.revenue, PrevShift, i);
      assert c.annotations[i] == labels1[i];
      assert c.annotations[n + i] == labels2[i];
      FormatNoNewline(Abbreviated(RevenueChartCopy), d.last.revenue[i]);
      FormatNoNewline(Abbreviated(RevenueChartCopy), d.prev.revenue[i]);
      ShareLabelRoundTrip(FormatLarge(RevenueChartCopy, d.last.revenue[i]), d.last.share[i]);
      ShareLabelRoundTrip(FormatLarge(RevenueChartCopy, d.prev.revenue[i]), d.prev.share[i]);
    }
  }

  /** The part both horizontal builders share: sort the categories by
      last-month value, largest first, draw the two bars of each sorted
      category, label each bar with its value in the given style, and let
      the value axis run to 1.2 times the largest value. The category axis
      is inverted so that position 0, the largest, is on top. */
  method SortedHorizontalChart(d: Dataset, req: Request, style: NumberStyle,
                               title: string, axisLabel: string, legendPrefix: string)
    returns (c: Chart, order: seq<nat>)
    requires WellShaped(d)
    ensures IsPermutation(order, |d.last|)
    ensures c.orientation == Horizontal && c.invertedCategoryAxis
    ensures c.width == req.width && c.height == req.height && c.dpi == req.dpi
    ensures c.title == title && c.valueAxisLabel == axisLabel
    ensures c.legend == [legendPrefix + req.lastMonth, legendPrefix + req.prevMonth] && c.legendCorner == LowerRight
    ensures c.categories == Reindex(d.labels, order)
    ensures NonIncreasing(Reindex(d.last, order))
    ensures c.bars == Bars(Horizontal, Reindex(d.last, order), LastShift) + Bars(Horizontal, Reindex(d.prev, order), PrevShift)
    ensures |c.annotations| == 2 * |d.last|
    ensures forall i :: 0 <= i < |d.last| ==>
              BarLabelAt(c.annotations[i], i as real + LastShift, d.last[order[i]], style) &&
              BarLabelAt(c.annotations[|d.last| + i], i as real + PrevShift, d.prev[order[i]], style)
    ensures c.valueLimit == ValueLimit(Reindex(d.last, order), Reindex(d.prev, order), HorizontalHeadroom)
    ensures c.tickStyle == style
  {
    var sorted;
    sorted, order := AlignByLast(d);
    c := HorizontalChart(sorted, req, style, title, axisLabel, legendPrefix);
    var n := |d.last|;
    forall i | 0 <= i < n
      ensures BarLabelAt(c.annotations[i], i as real + LastShift, d.last[order[i]], style)
      ensures BarLabelAt(c.annotations[n + i], i as real + PrevShift, d.prev[order[i]], style)
    {
      assert sorted.last[i] == d.last[order[i]] && sorted.prev[i] == d.prev[order[i]];
    }
  }

  /** The chart of an already sorted dataset, whose arrays all have one
      entry per category: the bars of category i at position i, each
      labelled with its value in the given style. */
  method HorizontalChart(sorted: Dataset, req: Request, style: NumberStyle,
                         title: string, axisLabel: string, legendPrefix: string)
    returns (c: Chart)
    requires |sorted.last| >= 1 && |sorted.labels| == |sorted.last| == |sorted.prev|
    ensures c.orientation == Horizontal && c.invertedCategoryAxis
    ensures c.width == req.width && c.height == req.height && c.dpi == req.dpi
    ensures c.title == title && c.valueAxisLabel == axisLabel
    ensures c.legend == [legendPrefix + req.lastMonth, legendPrefix + req.prevMonth] && c.legendCorner == LowerRight
    ensures c.categories == sorted.labels
    ensures c.bars == Bars(Horizontal, sorted.last, LastShift) + Bars(Horizontal, sorted.prev, PrevShift)
    ensures |c.annotations| == 2 * |sorted.last|
    ensures forall i :: 0 <= i < |sorted.last| ==>
              BarLabelAt(c.annotations[i], i as real + LastShift, sorted.last[i], style) &&
              BarLabelAt(c.annotations[|sorted.last| + i], i as real + PrevShift, sorted.prev[i], style)
    ensures c.valueLimit == ValueLimit(sorted.last, sorted.prev, HorizontalHeadroom)
    ensures c.tickStyle == style
  {
    var n := |sorted.last|;
    var rects1, labels1 := LabelledBars(sorted.last, LastShift, style);
    var rects2, labels2 := LabelledBars(sorted.prev, PrevShift, style);
    c := Chart(Horizontal, req.width, req.height, req.dpi, title, axisLabel,
               sorted.labels,
               [legendPrefix + req.lastMonth, legendPrefix + req.prevMonth], LowerRight,
               rects1 + rects2, labels1 + labels2,
               ValueLimit(sorted.last, sorted.prev, HorizontalHeadroom),
               style, true);
    forall i | 0 <= i < n
      ensures BarLabelAt(c.annotations[i], i as real + LastShift, sorted.last[i], style)
      ensures BarLabelAt(c.annotations[n + i], i as real + PrevShift, sorted.prev[i], style)
    {
      assert c.annotations[i] == labels1[i] && c.annotations[n + i] == labels2[i];
    }
  }

  /** One series of a horizontal chart: its bars, and `add_labels` on them. */
  method LabelledBars(values: seq<real>, shift: real, style: NumberStyle) returns (rects: seq<Rect>, anns: seq<Annotation>)
    ensures rects == Bars(Horizontal, values, shift)
    ensures |anns| == |values|
    ensures forall i :: 0 <= i < |values| ==> BarLabelAt(anns[i], i as real + shift, values[i], style)
  {
    rects := Bars(Horizontal, values, shift);
    anns := HorizontalLabels(rects, style);
    forall i | 0 <= i < |values|
      ensures BarLabelAt(anns[i], i as real + shift, values[i], style)
    {
      LabelAnchors(Horizontal, values, shift, i);
      FormatNoNewline(style, values[i]);
    }
  }

  /** `create_horizontal_grouped_barchart`: revenue per category, largest
      last-month revenue on top, labels and ticks abbreviated by the copy of
      the formatter that tiers on the magnitude. */
  method HorizontalRevenueChart(d: Dataset, req: Request) returns (c: Chart, order: seq<nat>)
    requires WellShaped(d)
    ensures IsPermutation(order, |d.last|)
    ensures c.orientation == Horizontal && c.invertedCategoryAxis
    ensures c.title == "Doanh thu công ty theo CP tháng " + req.lastMonth + " và tháng " + req.prevMonth
    ensures c.valueAxisLabel == "Doanh thu (VNĐ)"
    ensures c.width == req.width && c.height == req.height && c.dpi == req.dpi
    ensures c.legend == ["Doanh thu " + req.lastMonth, "Doanh thu " + req.prevMonth] && c.legendCorner == LowerRight
    ensures c.categories == Reindex(d.labels, order)
    ensures NonIncreasing(Reindex(d.last, order))
    ensures c.bars == Bars(Horizontal, Reindex(d.last, order), LastShift) + Bars(Horizontal, Reindex(d.prev, order), PrevShift)
    ensures |c.annotations| == 2 * |d.last|
    ensures forall i :: 0 <= i < |d.last| ==>
              BarLabelAt(c.annotations[i], i as real + LastShift, d.last[order[i]], Abbreviated(HorizontalChartCopy)) &&
              BarLabelAt(c.annotations[|d.last| + i], i as real + PrevShift, d.prev[order[i]], Abbreviated(HorizontalChartCopy))
    ensures c.valueLimit == ValueLimit(Reindex(d.last, order), Reindex(d.prev, order), HorizontalHeadroom)
    ensures c.tickStyle == Abbreviated(HorizontalChartCopy)
  {
    c, order := SortedHorizontalChart(d, req, Abbreviated(HorizontalChartCopy),
                                      "Doanh thu công ty theo CP tháng " + req.lastMonth + " và tháng " + req.prevMonth,
                                      "Doanh thu (VNĐ)", "Doanh thu ");
  }

  /** The integer counts of `create_new_user_chart`, read as reals. */
  function ToReals(xs: seq<int>): (r: seq<real>)
    ensures |r| == |xs| && forall k :: 0 <= k < |xs| ==> r[k] == xs[k] as real
  {
    seq(|xs|, k requires 0 <= k < |xs| => xs[k] as real)
  }

  datatype UserData = UserData(labels: seq<string>, lastUsers: seq<int>, prevUsers: seq<int>)

  /** `create_new_user_chart`: new sign-ups per category, largest last-month
      count on top, labels and ticks as comma-grouped integers. */
  method NewUserChart(d: UserData, req: Request) returns (c: Chart, order: seq<nat>)
    requires |d.lastUsers| >= 1 && |d.labels| >= |d.lastUsers| && |d.prevUsers| >= |d.lastUsers|
    ensures IsPermutation(order, |d.lastUsers|)
    ensures c.orientation == Horizontal && c.invertedCategoryAxis
    ensures c.title == "Lượt đăng ký mới theo top 5 CP tháng " + req.lastMonth + " và tháng " + req.prevMonth
    ensures c.valueAxisLabel == "Lượt đăng ký mới"
    ensures c.width == req.width && c.height == req.height && c.dpi == req.dpi
    ensures c.legend == ["Lượt đăng ký mới " + req.lastMonth, "Lượt đăng ký mới " + req.prevMonth] && c.legendCorner == LowerRight
    ensures c.categories == Reindex(d.labels, order)
    ensures NonIncreasing(Reindex(ToReals(d.lastUsers), order))
    ensures c.bars == Bars(Horizontal, Reindex(ToReals(d.lastUsers), order), LastShift) +
                      Bars(Horizontal, Reindex(ToReals(d.prevUsers), order), PrevShift)
    ensures |c.annotations| == 2 * |d.lastUsers|
    ensures forall i :: 0 <= i < |d.lastUsers| ==>
              BarLabelAt(c.annotations[i], i as real + LastShift, d.lastUsers[order[i]] as real, Simple) &&
              StripSeparators(c.annotations[i].text) == IntText(d.lastUsers[order[i]]) &&
              BarLabelAt(c.annotations[|d.lastUsers| + i], i as real + PrevShift, d.prevUsers[order[i]] as real, Simple) &&
              StripSeparators(c.annotations[|d.lastUsers| + i].text) == IntText(d.prevUsers[order[i]])
    ensures c.valueLimit == ValueLimit(Reindex(ToReals(d.lastUsers), order), Reindex(ToReals(d.prevUsers), order), HorizontalHeadroom)
    ensures c.tickStyle == Simple
  {
    var data := Dataset(d.labels, ToReals(d.lastUsers), ToReals(d.prevUsers));
    c, order := SortedHorizontalChart(data, req, Simple,
                                      "Lượt đăng ký mới theo top 5 CP tháng " + req.lastMonth + " và tháng " + req.prevMonth,
                                      "Lượt đăng ký mới", "Lượt đăng ký mới ");
    var n := |d.lastUsers|;
    forall i | 0 <= i < n
      ensures BarLabelAt(c.annotations[i], i as real + LastShift, d.lastUsers[order[i]] as real, Simple)
      ensures StripSeparators(c.annotations[i].text) == IntText(d.lastUsers[order[i]])
      ensures BarLabelAt(c.annotations[n + i], i as real + PrevShift, d.prevUsers[order[i]] as real, Simple)
      ensures StripSeparators(c.annotations[n + i].text) == IntText(d.prevUsers[order[i]])
    {
      var k := order[i];
      assert data.last[k] == d.lastUsers[k] as real && data.prev[k] == d.prevUsers[k] as real;
      assert BarLabelAt(c.annotations[i], i as real + LastShift, data.last[k], Simple);
      assert BarLabelAt(c.annotations[n + i], i as real + PrevShift, data.prev[k], Simple);
      IntegerCountText(d.lastUsers[k]);
      IntegerCountText(d.prevUsers[k]);
    }
  }

  /** An integer count is shown as its decimal text with commas added:
      truncation leaves it unchanged, and deleting the commas gives
      `str(n)` back. */
  lemma IntegerCountText(n: int)
    ensures StripSeparators(FormatSimple(n as real)) == IntText(n)
    ensures ReadScaled(FormatSimple(n as real)) == n
  {
    assert Trunc(n as real) == n;
    FormatSimpleReadsBack(n as real);
  }
}

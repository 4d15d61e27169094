/** Bar and label geometry of the three chart builders in main.py: where the
    two bars of each category go, where each value label is anchored, and
    how far the value axis reaches. Only the numbers handed to matplotlib
    are modelled, not the drawing. */
module Layout {
  import opened NumberFormat

  datatype Orientation = Vertical | Horizontal

  /** `bar_width` / `bar_height` in main.py: the thickness of one bar, in
      category units. */
  const BarThickness: real := 0.35

  /** Offsets from the category position: the last-month bar sits half a
      thickness before it, the previous-month bar half a thickness after. */
  const LastShift: real := -BarThickness / 2.0
  const PrevShift: real := BarThickness / 2.0

  /** A matplotlib Rectangle: lower-left corner and (signed) extent. */
  datatype Rect = Rect(x: real, y: real, width: real, height: real)

  /** `ax.bar(x + shift, values, 0.35)` (vertical) or
      `ax.barh(y + shift, values, 0.35)` (horizontal) with category i at
      position i: matplotlib's default `align='center'` centres each bar on
      its position, and the bar grows from 0 along the value axis. */
  function Bars(o: Orientation, values: seq<real>, shift: real): (bars: seq<Rect>)
    ensures |bars| == |values|
    ensures forall i :: 0 <= i < |values| ==> BarValue(o, bars[i]) == values[i]
  {
    seq(|values|, i requires 0 <= i < |values| =>
      var start := i as real + shift - BarThickness / 2.0;
      match o
      case Vertical => Rect(start, 0.0, BarThickness, values[i])
      case Horizontal => Rect(0.0, start, values[i], BarThickness))
  }

  /** Where a bar starts and ends along the category axis. */
  function SpanStart(o: Orientation, r: Rect): real {
    match o
    case Vertical => r.x
    case Horizontal => r.y
  }

  function SpanEnd(o: Orientation, r: Rect): real {
    match o
    case Vertical => r.x + r.width
    case Horizontal => r.y + r.height
  }

  /** The value a bar shows: its signed length along the value axis. */
  function BarValue(o: Orientation, r: Rect): real {
    match o
    case Vertical => r.height
    case Horizontal => r.width
  }

  /** The bar of category i sits at i + shift, spans one thickness, grows
      from 0 along the value axis and carries values[i]. */
  lemma BarPlacement(o: Orientation, values: seq<real>, shift: real, i: nat)
    requires i < |values|
    ensures |Bars(o, values, shift)| == |values|
    ensures var r := Bars(o, values, shift)[i];
            (SpanStart(o, r) + SpanEnd(o, r)) / 2.0 == i as real + shift &&
            SpanEnd(o, r) - SpanStart(o, r) == BarThickness &&
            (match o case Vertical => r.y == 0.0 case Horizontal => r.x == 0.0) &&
            BarValue(o, r) == values[i]
  {
  }

  predicate Disjoint(o: Orientation, r: Rect, s: Rect) {
    SpanEnd(o, r) <= SpanStart(o, s) || SpanEnd(o, s) <= SpanStart(o, r)
  }

  /** The 2N bars of a grouped chart never overlap along the category axis:
      the two bars of category i meet at i, and bars of different
      categories are apart. */
  lemma GroupedBarsDisjoint(o: Orientation, last: seq<real>, prev: seq<real>)
    ensures var bars := Bars(o, last, LastShift) + Bars(o, prev, PrevShift);
            forall u, v :: 0 <= u < v < |bars| ==> Disjoint(o, bars[u], bars[v])
  {
    var bars := Bars(o, last, LastShift) + Bars(o, prev, PrevShift);
    forall u, v | 0 <= u < v < |bars|
      ensures Disjoint(o, bars[u], bars[v])
    {
      GroupedSpan(o, last, prev, u);
      GroupedSpan(o, last, prev, v);
      var n := |last|;
      if v < n || u >= n {
        assert SpanEnd(o, bars[u]) <= SpanStart(o, bars[v]);
      } else if u <= v - n {
        assert SpanEnd(o, bars[u]) <= SpanStart(o, bars[v]);
      } else {
        assert SpanEnd(o, bars[v]) <= SpanStart(o, bars[u]);
      }
    }
  }

  /** Bar u of the grouped sequence: a last-month bar of category u ends at
      u, a previous-month bar of category u - |last| starts there. */
  lemma GroupedSpan(o: Orientation, last: seq<real>, prev: seq<real>, u: nat)
    requires u < |last| + |prev|
    ensures var bars := Bars(o, last, LastShift) + Bars(o, prev, PrevShift);
            var n := |last|;
            |bars| == |last| + |prev| &&
            (u < n ==> SpanStart(o, bars[u]) == u as real - BarThickness && SpanEnd(o, bars[u]) == u as real) &&
            (u >= n ==> SpanStart(o, bars[u]) == (u - n) as real && SpanEnd(o, bars[u]) == (u - n) as real + BarThickness)
  {
    var a, b := Bars(o, last, LastShift), Bars(o, prev, PrevShift);
    if u < |last| {
      assert (a + b)[u] == a[u];
    } else {
      assert (a + b)[u] == b[u - |last|];
    }
  }

  /** Each bar of category i lies strictly inside (i - 1/2, i + 1/2), so the
      groups of neighbouring categories do not touch. */
  lemma BarsInsideSlot(o: Orientation, values: seq<real>, shift: real, i: nat)
    requires i < |values| && (shift == LastShift || shift == PrevShift)
    ensures var r := Bars(o, values, shift)[i];
            i as real - 0.5 < SpanStart(o, r) && SpanEnd(o, r) < i as real + 0.5
  {
    BarPlacement(o, values, shift, i);
  }

  /** Python's max() over a non-empty list. */
  function Max(s: seq<real>): (m: real)
    requires |s| >= 1
    ensures m in s
    ensures forall k :: 0 <= k < |s| ==> s[k] <= m
  {
    if |s| == 1 then s[0]
    else
      var rest := Max(s[1..]);
      if s[0] >= rest then s[0] else rest
  }

  const VerticalHeadroom: real := 1.3
  const HorizontalHeadroom: real := 1.2

  /** `max(max(last), max(prev)) * headroom`: the upper end of the value axis. */
  function ValueLimit(last: seq<real>, prev: seq<real>, headroom: real): (lim: real)
    requires |last| >= 1 && |prev| >= 1
    ensures (exists k :: 0 <= k < |last| && lim == last[k] * headroom) ||
            (exists k :: 0 <= k < |prev| && lim == prev[k] * headroom)
    ensures headroom >= 0.0 ==>
              (forall k :: 0 <= k < |last| ==> last[k] * headroom <= lim) &&
              (forall k :: 0 <= k < |prev| ==> prev[k] * headroom <= lim)
  {
    var m := if Max(last) >= Max(prev) then Max(last) else Max(prev);
    var lim := m * headroom;
    ScaledBound(last, m, headroom, lim);
    ScaledBound(prev, m, headroom, lim);
    lim
  }

  /** Scaling by a non-negative factor keeps every element below the scaled bound. */
  lemma ScaledBound(s: seq<real>, m: real, h: real, lim: real)
    requires forall k :: 0 <= k < |s| ==> s[k] <= m
    requires lim == m * h
    ensures h >= 0.0 ==> forall k :: 0 <= k < |s| ==> s[k] * h <= lim
  {
    if h >= 0.0 {
      forall k | 0 <= k < |s|
        ensures s[k] * h <= m * h
      {
        ScaleMonotone(s[k], m, h);
      }
    }
  }

  lemma ScaleMonotone(a: real, b: real, h: real)
    requires a <= b && h >= 0.0
    ensures a * h <= b * h
  {
    assert b * h - a * h == (b - a) * h;
  }

  predicate NonNegative(s: seq<real>) {
    forall k :: 0 <= k < |s| ==> s[k] >= 0.0
  }

  /** For non-negative data the value axis reaches every bar, and it reaches
      strictly beyond the longest bar when some value is positive. */
  lemma ValueLimitCoversBars(last: seq<real>, prev: seq<real>, headroom: real)
    requires |last| >= 1 && |prev| >= 1 && NonNegative(last) && NonNegative(prev)
    requires headroom == VerticalHeadroom || headroom == HorizontalHeadroom
    ensures forall k :: 0 <= k < |last| ==> last[k] <= ValueLimit(last, prev, headroom)
    ensures forall k :: 0 <= k < |prev| ==> prev[k] <= ValueLimit(last, prev, headroom)
    ensures (exists k :: 0 <= k < |last| && last[k] > 0.0) || (exists k :: 0 <= k < |prev| && prev[k] > 0.0) ==>
              (forall j :: 0 <= j < |last| ==> last[j] < ValueLimit(last, prev, headroom)) &&
              (forall j :: 0 <= j < |prev| ==> prev[j] < ValueLimit(last, prev, headroom))
  {
    var m := if Max(last) >= Max(prev) then Max(last) else Max(prev);
    assert m >= 0.0 by {
      assert last[0] <= Max(last);
    }
    assert ValueLimit(last, prev, headroom) == m * headroom;
  }

  /** When every value is zero the upper limit is zero too: main.py passes
      `set_xlim(0, 0)` / `set_ylim(0, 0)` and adds no margin of its own. */
  lemma AllZeroLimit(last: seq<real>, prev: seq<real>, headroom: real)
    requires |last| >= 1 && |prev| >= 1
    requires forall k :: 0 <= k < |last| ==> last[k] == 0.0
    requires forall k :: 0 <= k < |prev| ==> prev[k] == 0.0
    ensures ValueLimit(last, prev, headroom) == 0.0
  {
  }

  datatype HAlign = Center | Left
  datatype VAlign = Bottom | Middle

  /** One `ax.annotate` call: the text, the anchor point `xy`, the offset
      `xytext` in points, and the alignment of the text at that offset. */
  datatype Annotation = Annotation(text: string, x: real, y: real, dx: int, dy: int, ha: HAlign, va: VAlign)

  /** `f'{revenue_text}\n({share}%)'`. */
  function ShareLabel(value: string, share: string): (t: string)
    ensures |t| == |value| + |share| + 4 && t[..|value|] == value
    ensures NoNewline(value) ==> LineBreak(t) == |value|
  {
    var rest := "\n(" + share + "%)";
    BreakAfter(value, rest);
    assert value + "\n(" + share + "%)" == value + rest;
    value + rest
  }

  /** A one-line text followed by a line break breaks right after itself. */
  lemma {:induction false} BreakAfter(value: string, rest: string)
    requires |rest| >= 1 && rest[0] == '\n'
    ensures NoNewline(value) ==> LineBreak(value + rest) == |value|
  {
    if NoNewline(value) && |value| > 0 {
      assert (value + rest)[1..] == value[1..] + rest;
      BreakAfter(value[1..], rest);
    }
  }

  /** Position of the first line break of t, or |t| when there is none. */
  function LineBreak(t: string): (k: nat)
    ensures k <= |t|
    ensures k < |t| ==> t[k] == '\n'
    ensures forall j :: 0 <= j < k ==> t[j] != '\n'
  {
    if t == [] then 0
    else if t[0] == '\n' then 0
    else 1 + LineBreak(t[1..])
  }

  datatype Option<T> = None | Some(value: T)

  /** Reads a two-line share label back into the value text and the share. */
  function ParseShareLabel(t: string): Option<(string, string)> {
    var k := LineBreak(t);
    if k + 4 <= |t| && t[k + 1] == '(' && t[|t| - 2..] == "%)" then Some((t[..k], t[k + 2..|t| - 2]))
    else None
  }

  /** A share label splits back into its parts whenever the value text is
      one line, as every formatted number is. */
  lemma ShareLabelRoundTrip(value: string, share: string)
    requires NoNewline(value)
    ensures ParseShareLabel(ShareLabel(value, share)) == Some((value, share))
  {
    var t := ShareLabel(value, share);
    var k := |value|;
    assert t[k + 2..|t| - 2] == share;
  }

  /** `add_labels` of `create_revenue_chart`: one label per bar, anchored at
      the top centre of the bar, 4 points above it, centred over it, reading
      the formatted height and the category's share in parentheses. */
  method VerticalLabels(rects: seq<Rect>, shares: seq<string>) returns (anns: seq<Annotation>)
    requires |shares| >= |rects|
    ensures |anns| == |rects|
    ensures forall i :: 0 <= i < |rects| ==>
              anns[i].x == rects[i].x + rects[i].width / 2.0 && anns[i].y == rects[i].height &&
              anns[i].dx == 0 && anns[i].dy == 4 && anns[i].ha == Center && anns[i].va == Bottom &&
              anns[i].text == ShareLabel(FormatLarge(RevenueChartCopy, rects[i].height), shares[i])
  {
    anns := [];
    for i := 0 to |rects|
      invariant |anns| == i
      invariant forall k :: 0 <= k < i ==>
                  anns[k].x == rects[k].x + rects[k].width / 2.0 && anns[k].y == rects[k].height &&
                  anns[k].dx == 0 && anns[k].dy == 4 && anns[k].ha == Center && anns[k].va == Bottom &&
                  anns[k].text == ShareLabel(FormatLarge(RevenueChartCopy, rects[k].height), shares[k])
    {
      var height := rects[i].height;
      var text := ShareLabel(FormatLarge(RevenueChartCopy, height), shares[i]);
      anns := anns + [Annotation(text, rects[i].x + rects[i].width / 2.0, height, 0, 4, Center, Bottom)];
    }
  }

  /** `add_labels` of the two horizontal charts: one label per bar, anchored
      at the end of the bar, halfway up it, 3 points to the right, reading
      the formatted bar length. */
  method HorizontalLabels(rects: seq<Rect>, style: NumberStyle) returns (anns: seq<Annotation>)
    ensures |anns| == |rects|
    ensures forall i :: 0 <= i < |rects| ==>
              anns[i].x == rects[i].width && anns[i].y == rects[i].y + rects[i].height / 2.0 &&
              anns[i].dx == 3 && anns[i].dy == 0 && anns[i].ha == Left && anns[i].va == Middle &&
              anns[i].text == Format(style, rects[i].width)
  {
    anns := [];
    for i := 0 to |rects|
      invariant |anns| == i
      invariant forall k :: 0 <= k < i ==>
                  anns[k].x == rects[k].width && anns[k].y == rects[k].y + rects[k].height / 2.0 &&
                  anns[k].dx == 3 && anns[k].dy == 0 && anns[k].ha == Left && anns[k].va == Middle &&
                  anns[k].text == Format(style, rects[k].width)
    {
      var width := rects[i].width;
      anns := anns + [Annotation(Format(style, width), width, rects[i].y + rects[i].height / 2.0, 3, 0, Left, Middle)];
    }
  }

  /** Labels of bars built by Bars sit on the bar's centre line at the bar's
      value end: for vertical bars at (i + shift, value), for horizontal
      bars at (value, i + shift). */
  lemma LabelAnchors(o: Orientation, values: seq<real>, shift: real, i: nat)
    requires i < |values|
    ensures var r := Bars(o, values, shift)[i];
            match o
            case Vertical => r.x + r.width / 2.0 == i as real + shift && r.height == values[i]
            case Horizontal => r.y + r.height / 2.0 == i as real + shift && r.width == values[i]
  {
    BarPlacement(o, values, shift, i);
  }
}

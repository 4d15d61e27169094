/** The number formatters of the three chart builders in main.py:
    `format_large_number` (two diverging copies) and `format_simple_number`.

    A Python float is modelled by its exact value as a `real`. Python renders
    a float with `:.Nf` correctly rounded, half to even, so the digits it
    prints are a function of that exact value and are modelled as such. */
module NumberFormat {
  import opened Digits

  function Abs(x: real): (a: real)
    ensures a >= 0.0 && (a == x || a == -x)
  {
    if x < 0.0 then -x else x
  }

  /** The integer nearest to x, ties to the even neighbour. */
  function RoundHalfEven(x: real): (r: int)
    ensures -0.5 <= r as real - x <= 0.5
    ensures IsTie(x, r) ==> r % 2 == 0
  {
    var f := x.Floor;
    var frac := x - f as real;
    if frac < 0.5 then f
    else if frac > 0.5 then f + 1
    else if f % 2 == 0 then f
    else f + 1
  }

  predicate IsTie(x: real, r: int) {
    r as real - x == 0.5 || x - r as real == 0.5
  }

  /** Being nearest with ties to even singles out one integer. */
  lemma RoundHalfEvenUnique(x: real, n: int)
    requires -0.5 <= n as real - x <= 0.5
    requires IsTie(x, n) ==> n % 2 == 0
    ensures n == RoundHalfEven(x)
  {
  }

  function Sign(x: real): string {
    if x < 0.0 then "-" else ""
  }

  /** Python's `f'{x:.{d}f}'` (with `grouped`, `f'{x:,.{d}f}'`): a minus sign
      for a negative x, the whole part of |x| rounded to d decimals, and when
      d > 0 a point followed by exactly d fraction digits. */
  function FixedPoint(x: real, d: nat, grouped: bool): (s: string)
    ensures |s| >= 1 && (s[0] == '-' <==> x < 0.0)
  {
    UnsignedShape(ScaledMagnitude(x, d), d, grouped);
    Sign(x) + Unsigned(ScaledMagnitude(x, d), d, grouped)
  }

  /** x * 10^d. */
  function Scale(x: real, d: nat): real {
    if d == 0 then x else 10.0 * Scale(x, d - 1)
  }

  lemma {:induction false} ScaleNegate(x: real, d: nat)
    ensures Scale(-x, d) == -Scale(x, d)
  {
    if d > 0 {
      ScaleNegate(x, d - 1);
    }
  }

  lemma {:induction false} ScaleNonNegative(x: real, d: nat)
    requires x >= 0.0
    ensures Scale(x, d) >= 0.0
  {
    if d > 0 {
      ScaleNonNegative(x, d - 1);
    }
  }

  /** |x| * 10^d rounded half to even: the digits FixedPoint prints, point removed. */
  function ScaledMagnitude(x: real, d: nat): nat {
    ScaleNonNegative(Abs(x), d);
    var r := RoundHalfEven(Scale(Abs(x), d));
    assert r as real >= -0.5;
    r
  }

  /** The digits of q with a decimal point before the last d of them. */
  function Unsigned(q: nat, d: nat, grouped: bool): string {
    var whole := Show(Drop(q, d));
    (if grouped then Group(whole) else whole) + (if d == 0 then "" else "." + PadDigits(q, d))
  }

  /** The number a formatted text shows, counted in units of its last
      printed decimal: the sign, then every digit with separators deleted. */
  function ReadScaled(s: string): int {
    if |s| > 0 && s[0] == '-' then 0 - Value(StripSeparators(s[1..])) else Value(StripSeparators(s))
  }

  /** The unsigned part starts with a digit and, separators deleted, denotes q. */
  lemma UnsignedReadsBack(q: nat, d: nat, grouped: bool)
    ensures |Unsigned(q, d, grouped)| >= 1 && IsDigit(Unsigned(q, d, grouped)[0])
    ensures Value(StripSeparators(Unsigned(q, d, grouped))) == q
  {
    var whole := Show(Drop(q, d));
    var w := if grouped then Group(whole) else whole;
    WholeText(whole, grouped);
    SplitDigits(q, d);
    if d == 0 {
      assert Unsigned(q, d, grouped) == w;
      assert whole + PadDigits(q, d) == whole;
    } else {
      var frac := "." + PadDigits(q, d);
      assert Unsigned(q, d, grouped) == w + frac;
      assert (w + frac)[0] == w[0];
      StripSeparatorsAppend(w, frac);
      FractionText(PadDigits(q, d));
    }
  }

  /** The whole part, grouped or not, starts with its leading digit and reads
      back as the digits once the commas are deleted. */
  lemma WholeText(whole: string, grouped: bool)
    requires |whole| >= 1 && AllDigits(whole)
    ensures var w := if grouped then Group(whole) else whole;
            |w| >= 1 && IsDigit(w[0]) && StripSeparators(w) == whole
  {
    if grouped {
      StripGroup(whole);
    } else {
      StripSeparatorsOfDigits(whole);
    }
  }

  /** Deleting the separators from a decimal point and its fraction digits
      leaves the digits. */
  lemma FractionText(digits: string)
    requires AllDigits(digits)
    ensures StripSeparators("." + digits) == digits
  {
    StripSeparatorsAppend(".", digits);
    assert StripSeparators(".") == [];
    StripSeparatorsOfDigits(digits);
  }

  /** Where the whole part of an unsigned number text with d decimals ends. */
  function WholeLength(u: string, d: nat): int {
    if d == 0 then |u| else |u| - d - 1
  }

  /** The layout of an unsigned `:.{d}f` number: a whole part of digits and
      commas (so no decimal point), which is "0" or does not start with 0;
      then, when d > 0, a point and exactly d digits. */
  predicate DecimalShape(u: string, d: nat) {
    var w := WholeLength(u, d);
    1 <= w <= |u| && IsDigit(u[0]) && (u[0] == '0' ==> w == 1) &&
    (forall k :: 0 <= k < w ==> IsDigit(u[k]) || u[k] == ',') &&
    (d > 0 ==> u[w] == '.' && AllDigits(u[w + 1..]))
  }

  /** The whole part holds digits only: the text was printed without `,`. */
  predicate PlainWhole(u: string, d: nat) {
    forall k :: 0 <= k < WholeLength(u, d) && k < |u| ==> IsDigit(u[k])
  }

  /** The commas of the whole part are Python's `,` grouping: a comma exactly
      where a multiple of four characters, itself included, ends the whole
      part, so one before each group of three digits counted from the right. */
  predicate GroupedWhole(u: string, d: nat) {
    forall k :: 0 <= k < WholeLength(u, d) && k < |u| ==>
      (u[k] == ',' <==> (WholeLength(u, d) - k) % 4 == 0)
  }

  /** The number the d digits after the point denote. */
  function FractionValue(u: string, d: nat): nat
    requires DecimalShape(u, d) && d > 0
  {
    Value(u[WholeLength(u, d) + 1..])
  }

  /** The unsigned text of q with d decimals has the layout of `:.{d}f`: its
      whole part starts with 0 exactly when q < 10^d, and the d digits after
      the point denote q mod 10^d. Printed without `,`, the whole part holds
      digits only; printed with it, its commas group the digits in threes. */
  lemma UnsignedShape(q: nat, d: nat, grouped: bool)
    ensures DecimalShape(Unsigned(q, d, grouped), d)
    ensures Unsigned(q, d, grouped)[0] == '0' <==> q < Pow10(d)
    ensures d > 0 ==> FractionValue(Unsigned(q, d, grouped), d) == q % Pow10(d)
    ensures !grouped ==> PlainWhole(Unsigned(q, d, grouped), d)
    ensures grouped ==> GroupedWhole(Unsigned(q, d, grouped), d)
  {
    if d == 0 {
      WholeShape(q, grouped);
    } else {
      FractionShape(q, d, grouped);
    }
  }

  /** UnsignedShape without decimals: the text is the whole part alone. */
  lemma WholeShape(q: nat, grouped: bool)
    ensures DecimalShape(Unsigned(q, 0, grouped), 0)
    ensures Unsigned(q, 0, grouped)[0] == '0' <==> q < Pow10(0)
    ensures !grouped ==> PlainWhole(Unsigned(q, 0, grouped), 0)
    ensures grouped ==> GroupedWhole(Unsigned(q, 0, grouped), 0)
  {
    var whole := Show(Drop(q, 0));
    var w := if grouped then Group(whole) else whole;
    WholeDigits(whole, grouped);
    if grouped {
      GroupShape(whole);
    }
    DropZero(q, 0);
    assert Unsigned(q, 0, grouped) == w + "" == w;
  }

  /** UnsignedShape with d > 0 decimals: whole part, point, d padded digits. */
  lemma FractionShape(q: nat, d: nat, grouped: bool)
    requires d > 0
    ensures DecimalShape(Unsigned(q, d, grouped), d)
    ensures Unsigned(q, d, grouped)[0] == '0' <==> q < Pow10(d)
    ensures FractionValue(Unsigned(q, d, grouped), d) == q % Pow10(d)
    ensures !grouped ==> PlainWhole(Unsigned(q, d, grouped), d)
    ensures grouped ==> GroupedWhole(Unsigned(q, d, grouped), d)
  {
    var whole := Show(Drop(q, d));
    var w := if grouped then Group(whole) else whole;
    var f := PadDigits(q, d);
    WholeDigits(whole, grouped);
    if grouped {
      GroupShape(whole);
    }
    assert Unsigned(q, d, grouped) == w + ("." + f);
    PointShape(Unsigned(q, d, grouped), w, f, d);
    DropZero(q, d);
    PadValue(q, d);
  }

  /** A whole part, a point and d fraction digits make a DecimalShape text
      whose fraction is those digits. */
  lemma PointShape(u: string, w: string, f: string, d: nat)
    requires |w| >= 1 && IsDigit(w[0]) && (w[0] == '0' ==> |w| == 1)
    requires forall k :: 0 <= k < |w| ==> IsDigit(w[k]) || w[k] == ','
    requires d > 0 && |f| == d && AllDigits(f)
    requires u == w + ("." + f)
    ensures DecimalShape(u, d) && u[0] == w[0] && FractionValue(u, d) == Value(f)
    ensures AllDigits(w) ==> PlainWhole(u, d)
    ensures (forall k :: 0 <= k < |w| ==> (w[k] == ',' <==> (|w| - k) % 4 == 0)) ==> GroupedWhole(u, d)
  {
    assert WholeLength(u, d) == |w|;
    assert u[|w|] == '.';
    assert u[|w| + 1..] == f;
  }

  /** The whole part, grouped or not, keeps the leading digit, holds only
      digits and commas, and stays a single digit when the number has one. */
  lemma WholeDigits(whole: string, grouped: bool)
    requires |whole| >= 1 && AllDigits(whole)
    ensures var w := if grouped then Group(whole) else whole;
            |w| >= 1 && w[0] == whole[0] && (|whole| == 1 ==> w == whole) &&
            forall k :: 0 <= k < |w| ==> IsDigit(w[k]) || w[k] == ','
  {
    if grouped {
      GroupShape(whole);
    }
  }

  /** `:.{d}f` text: a minus sign exactly for negative x, then the layout of
      DecimalShape; the whole part is 0 exactly when |x| rounds below 1, and
      the fraction digits are the last d digits of |x| * 10^d rounded. */
  lemma FixedPointShape(x: real, d: nat, grouped: bool)
    ensures var t := FixedPoint(x, d, grouped);
            var u := if x < 0.0 then t[1..] else t;
            DecimalShape(u, d) &&
            (u[0] == '0' <==> ScaledMagnitude(x, d) < Pow10(d)) &&
            (d > 0 ==> FractionValue(u, d) == ScaledMagnitude(x, d) % Pow10(d)) &&
            (!grouped ==> PlainWhole(u, d)) &&
            (grouped ==> GroupedWhole(u, d))
  {
    var q := ScaledMagnitude(x, d);
    var body := Unsigned(q, d, grouped);
    UnsignedShape(q, d, grouped);
    var t := FixedPoint(x, d, grouped);
    assert t == Sign(x) + body;
    var u := if x < 0.0 then t[1..] else t;
    assert u == body;
  }

  /** What FixedPoint prints reads back as x * 10^d rounded half to even:
      the text is the d-decimal number nearest to x. */
  lemma FixedPointReadsBack(x: real, d: nat, grouped: bool)
    ensures ReadScaled(FixedPoint(x, d, grouped)) == RoundHalfEven(Scale(x, d))
  {
    var q := ScaledMagnitude(x, d);
    var body := Unsigned(q, d, grouped);
    UnsignedReadsBack(q, d, grouped);
    ReadSigned(Sign(x), body);
    SignedMagnitude(x, d);
  }

  /** Rounding x * 10^d is rounding |x| * 10^d with the sign of x put back. */
  lemma SignedMagnitude(x: real, d: nat)
    ensures RoundHalfEven(Scale(x, d)) == if x < 0.0 then -(ScaledMagnitude(x, d) as int) else ScaledMagnitude(x, d)
  {
    if x < 0.0 {
      ScaleNegate(Abs(x), d);
      assert Scale(x, d) == -Scale(Abs(x), d);
      RoundHalfEvenSymmetric(Scale(Abs(x), d));
    } else {
      assert Abs(x) == x;
    }
  }

  /** A minus sign in front of a text that starts with a digit negates what it reads as. */
  lemma ReadSigned(sign: string, body: string)
    requires sign == "-" || sign == ""
    requires |body| >= 1 && IsDigit(body[0])
    ensures ReadScaled(sign + body) == if sign == "-" then -(Value(StripSeparators(body)) as int) else Value(StripSeparators(body))
  {
    if sign == "-" {
      assert (sign + body)[1..] == body;
    } else {
      assert sign + body == body;
    }
  }

  /** Rounding half to even commutes with negation. */
  lemma RoundHalfEvenSymmetric(y: real)
    ensures RoundHalfEven(-y) == -RoundHalfEven(y)
  {
    var q := RoundHalfEven(y);
    assert IsTie(-y, -q) ==> IsTie(y, q);
    EvenNegate(q);
    RoundHalfEvenUnique(-y, -q);
  }

  lemma EvenNegate(n: int)
    ensures n % 2 == 0 ==> (-n) % 2 == 0
  {
    if n % 2 == 0 {
      var k := n / 2;
      assert -n == 2 * (-k);
    }
  }

  /** A negative number prints as its magnitude behind a minus sign. */
  lemma FixedPointNegate(x: real, d: nat, grouped: bool)
    requires x > 0.0
    ensures FixedPoint(-x, d, grouped) == "-" + FixedPoint(x, d, grouped)
  {
    assert Abs(-x) == Abs(x) == x;
    assert ScaledMagnitude(-x, d) == ScaledMagnitude(x, d);
    assert Sign(-x) == "-" && Sign(x) == "";
  }

  /** Magnitude tiers of `format_large_number`. */
  datatype Tier = Units | Thousand | Million | Billion

  /** The first threshold of 10^9, 10^6, 10^3 that m reaches. Every m >= 1000
      lands in the tier whose divisor brings it into [1, 1000), except that the
      billion tier has no upper end. */
  function TierOf(m: real): (t: Tier)
    ensures t == Units <==> m < 1000.0
    ensures t != Units ==> Divisor(t) <= m
    ensures t != Billion ==> m < 1000.0 * Divisor(t)
  {
    if m >= 1000000000.0 then Billion
    else if m >= 1000000.0 then Million
    else if m >= 1000.0 then Thousand
    else Units
  }

  function Divisor(t: Tier): real {
    match t
    case Units => 1.0
    case Thousand => 1000.0
    case Million => 1000000.0
    case Billion => 1000000000.0
  }

  function Suffix(t: Tier): string {
    match t
    case Units => ""
    case Thousand => " k"
    case Million => " tr"
    case Billion => " tỷ"
  }

  function Rank(t: Tier): nat {
    match t
    case Units => 0
    case Thousand => 1
    case Million => 2
    case Billion => 3
  }

  /** A larger magnitude never selects a smaller tier. */
  lemma TierMonotone(a: real, b: real)
    requires a <= b
    ensures Rank(TierOf(a)) <= Rank(TierOf(b))
  {
  }

  /** The two copies of `format_large_number`: the one inside
      `create_revenue_chart` tests the signed value and prints millions with
      two decimals; the one inside `create_horizontal_grouped_barchart` tests
      abs(num) and prints millions with one decimal. */
  datatype Variant = RevenueChartCopy | HorizontalChartCopy

  /** The value the tier thresholds are compared with. */
  function TierInput(v: Variant, num: real): real {
    match v
    case RevenueChartCopy => num
    case HorizontalChartCopy => Abs(num)
  }

  function Decimals(v: Variant, t: Tier): nat {
    match t
    case Units => 0
    case Thousand => 1
    case Million => if v == RevenueChartCopy then 2 else 1
    case Billion => 2
  }

  /** `format_large_number(num)`: the tier's scaled value with its fixed
      decimals and suffix, or below the thousand tier the comma-grouped
      whole number. */
  function FormatLarge(v: Variant, num: real): (s: string)
    ensures |s| >= 1 && (s[0] == '-' <==> num < 0.0)
  {
    var t := TierOf(TierInput(v, num));
    DivisorSign(num, t);
    FixedPoint(num / Divisor(t), Decimals(v, t), t == Units) + Suffix(t)
  }

  /** Dividing by a tier's divisor keeps the sign. */
  lemma DivisorSign(num: real, t: Tier)
    ensures num / Divisor(t) < 0.0 <==> num < 0.0
  {
  }

  /** The number in front of the suffix has the layout of `:.{d}f` for the
      tier's d decimals: a minus sign exactly for negative input, a whole part
      without leading zeros, and exactly d digits after the point. So a
      million-tier label of the revenue-chart copy always has two decimals
      and that of the horizontal-chart copy one. */
  lemma FormatLargeShape(v: Variant, num: real)
    ensures var t := TierOf(TierInput(v, num));
            var d := Decimals(v, t);
            var text := FormatLarge(v, num);
            var n := |text| - |Suffix(t)|;
            n >= 1 && text[n..] == Suffix(t) && (text[0] == '-' <==> num < 0.0) &&
            var u := if num < 0.0 then text[1..n] else text[..n];
            DecimalShape(u, d) &&
            (u[0] == '0' <==> ScaledMagnitude(num / Divisor(t), d) < Pow10(d)) &&
            (d > 0 ==> FractionValue(u, d) == ScaledMagnitude(num / Divisor(t), d) % Pow10(d)) &&
            (t != Units ==> PlainWhole(u, d)) &&
            (t == Units ==> GroupedWhole(u, d))
  {
    var t := TierOf(TierInput(v, num));
    var y, d := num / Divisor(t), Decimals(v, t);
    DivisorSign(num, t);
    var body := FixedPoint(y, d, t == Units);
    FixedPointShape(y, d, t == Units);
    var text := FormatLarge(v, num);
    SplitSuffix(text, body, Suffix(t));
    if num < 0.0 {
      assert text[1..|body|] == body[1..];
    }
  }

  /** Reading a large-number label: it ends with the suffix of the tier the
      threshold test picks, and the number in front of the suffix is
      num / divisor rounded half to even to that tier's decimals. */
  lemma FormatLargeReadsBack(v: Variant, num: real)
    ensures var t := TierOf(TierInput(v, num));
            var text := FormatLarge(v, num);
            var n := |text| - |Suffix(t)|;
            n >= 1 && text[n..] == Suffix(t) &&
            ReadScaled(text[..n]) == RoundHalfEven(Scale(num / Divisor(t), Decimals(v, t)))
  {
    var t := TierOf(TierInput(v, num));
    var y, d := num / Divisor(t), Decimals(v, t);
    var body := FixedPoint(y, d, t == Units);
    FixedPointReadsBack(y, d, t == Units);
    SplitSuffix(FormatLarge(v, num), body, Suffix(t));
  }

  /** A text made of a body and a suffix splits back into the two. */
  lemma SplitSuffix(text: string, body: string, suffix: string)
    requires text == body + suffix
    ensures text[..|body|] == body && text[|body|..] == suffix
  {
  }

  /** The revenue-chart copy compares the signed value with the thresholds,
      so every negative input, however large its magnitude, gets no suffix:
      it prints as a minus sign and the comma-grouped rounded magnitude. */
  lemma RevenueCopyNegativesArePlain(num: real)
    requires num < 0.0
    ensures FormatLarge(RevenueChartCopy, num) == "-" + Group(Show(RoundHalfEven(-num)))
  {
    assert TierOf(TierInput(RevenueChartCopy, num)) == Units;
    assert Decimals(RevenueChartCopy, Units) == 0 && Suffix(Units) == "";
    assert num / Divisor(Units) == num;
    var q := ScaledMagnitude(num, 0);
    assert Scale(Abs(num), 0) == -num;
    assert q == RoundHalfEven(-num);
    assert Drop(q, 0) == q;
    var g := Group(Show(q));
    assert Unsigned(q, 0, true) == g + "" == g;
    assert FixedPoint(num, 0, true) == "-" + g;
    assert FormatLarge(RevenueChartCopy, num) == FixedPoint(num, 0, true) + "";
  }

  /** The horizontal-chart copy tiers on abs(num): a negative number prints
      as the label of its magnitude behind a minus sign. */
  lemma HorizontalCopySymmetric(num: real)
    requires num > 0.0
    ensures FormatLarge(HorizontalChartCopy, -num) == "-" + FormatLarge(HorizontalChartCopy, num)
  {
    var t := TierOf(num);
    assert TierInput(HorizontalChartCopy, -num) == num == TierInput(HorizontalChartCopy, num);
    var y, d := num / Divisor(t), Decimals(HorizontalChartCopy, t);
    ScaleDown(num, t);
    FixedPointNegate(y, d, t == Units);
    assert FormatLarge(HorizontalChartCopy, -num) == FixedPoint(-y, d, t == Units) + Suffix(t);
    assert FormatLarge(HorizontalChartCopy, num) == FixedPoint(y, d, t == Units) + Suffix(t);
  }

  /** Dividing by a tier's divisor keeps a positive value positive and
      commutes with negation. */
  lemma ScaleDown(num: real, t: Tier)
    requires num > 0.0
    ensures num / Divisor(t) > 0.0 && -num / Divisor(t) == -(num / Divisor(t))
  {
  }

  /** On non-negative inputs the two copies differ only in the million tier. */
  lemma CopiesAgreeOutsideMillions(num: real)
    requires num >= 0.0 && TierOf(num) != Million
    ensures FormatLarge(RevenueChartCopy, num) == FormatLarge(HorizontalChartCopy, num)
  {
  }

  /** `format_simple_number`: Python's `int(num)`, which truncates toward zero. */
  function Trunc(x: real): (n: int)
    ensures Abs(n as real) <= Abs(x) < Abs(n as real) + 1.0
    ensures n != 0 ==> (n < 0 <==> x < 0.0)
  {
    if x >= 0.0 then x.Floor else -((-x).Floor)
  }

  /** Python's `str(n)` for an integer. */
  function IntText(n: int): string {
    (if n < 0 then "-" else "") + Show(if n < 0 then -n else n)
  }

  /** `format_simple_number(num)`: `f'{int(num):,}'`. */
  function FormatSimple(num: real): (s: string)
    ensures |s| >= 1 && (s[0] == '-' <==> Trunc(num) < 0)
  {
    var n := Trunc(num);
    (if n < 0 then "-" else "") + Group(Show(if n < 0 then -n else n))
  }

  /** Deleting the commas and points from a simple label gives
      `str(int(num))`, and the label reads back as int(num). */
  lemma FormatSimpleReadsBack(num: real)
    ensures StripSeparators(FormatSimple(num)) == IntText(Trunc(num))
    ensures ReadScaled(FormatSimple(num)) == Trunc(num)
  {
    var n := Trunc(num);
    var m: nat := if n < 0 then -n else n;
    var sign := if n < 0 then "-" else "";
    var g := Group(Show(m));
    assert FormatSimple(num) == sign + g;
    WholeText(Show(m), true);
    ValueOfShow(m);
    ReadSigned(sign, g);
    StripSeparatorsAppend(sign, g);
    assert StripSeparators(sign) == sign;
  }

  /** Behind its sign, a simple label is `str(|int(num)|)` with a comma before
      every group of three digits counted from the right: it starts with a
      digit, which is '0' only for the label "0", and a character is a comma
      exactly when a multiple of four characters, itself included, ends the
      label. */
  lemma FormatSimpleShape(num: real)
    ensures var s := FormatSimple(num);
            var u := if Trunc(num) < 0 then s[1..] else s;
            |u| >= 1 && IsDigit(u[0]) && (u[0] == '0' <==> Trunc(num) == 0) &&
            (u[0] == '0' ==> u == "0") &&
            forall k :: 0 <= k < |u| ==>
              (u[k] == ',' <==> (|u| - k) % 4 == 0) && (u[k] == ',' || IsDigit(u[k]))
  {
    var n := Trunc(num);
    var m: nat := if n < 0 then -n else n;
    var g := Group(Show(m));
    var s := FormatSimple(num);
    assert s == (if n < 0 then "-" else "") + g;
    var u := if n < 0 then s[1..] else s;
    assert u == g;
    GroupShape(Show(m));
  }

  /** The two styles of number label the charts use. */
  datatype NumberStyle = Abbreviated(variant: Variant) | Simple

  function Format(style: NumberStyle, x: real): string {
    match style
    case Abbreviated(v) => FormatLarge(v, x)
    case Simple => FormatSimple(x)
  }

  predicate NoNewline(s: string) {
    forall k :: 0 <= k < |s| ==> s[k] != '\n'
  }

  lemma GroupNoNewline(s: string)
    requires |s| >= 1 && AllDigits(s)
    ensures NoNewline(Group(s))
  {
    GroupShape(s);
  }

  /** A formatted number is one line of text. */
  lemma FormatNoNewline(style: NumberStyle, x: real)
    ensures NoNewline(Format(style, x))
  {
    match style
    case Simple =>
      var n := Trunc(x);
      GroupNoNewline(Show(if n < 0 then -n else n));
    case Abbreviated(v) =>
      var t := TierOf(TierInput(v, x));
      var y := x / Divisor(t);
      var q := ScaledMagnitude(y, Decimals(v, t));
      GroupNoNewline(Show(Drop(q, Decimals(v, t))));
      assert NoNewline(Unsigned(q, Decimals(v, t), t == Units));
  }

  /** Worked example: the billion tier with two decimals. */
  lemma ExampleBillion()
    ensures FormatLarge(HorizontalChartCopy, 1500000000.0) == "1.50 tỷ"
  {
    var y := 1500000000.0 / 1000000000.0;
    assert y == 1.5;
    assert Scale(1.5, 2) == 150.0;
    assert RoundHalfEven(150.0) == 150;
    assert ScaledMagnitude(y, 2) == 150;
    assert Drop(150, 2) == 1;
    assert Show(1) == "1";
    assert PadDigits(150, 2) == "50";
    assert Unsigned(150, 2, false) == "1.50";
  }

  /** Worked example: below a thousand the number prints plain. */
  lemma ExamplePlain()
    ensures FormatLarge(RevenueChartCopy, 999.0) == "999"
  {
    assert RoundHalfEven(999.0) == 999;
    assert ScaledMagnitude(999.0, 0) == 999;
    assert Show(999) == "999";
    assert Unsigned(999, 0, true) == "999";
  }

  /** Worked example: the revenue-chart copy prints millions with two decimals. */
  lemma ExampleMillionsRevenue()
    ensures FormatLarge(RevenueChartCopy, 1500000.0) == "1.50 tr"
  {
    var y := 1500000.0 / 1000000.0;
    assert y == 1.5;
    assert Scale(1.5, 2) == 150.0;
    assert RoundHalfEven(150.0) == 150;
    assert ScaledMagnitude(y, 2) == 150;
    assert Drop(150, 2) == 1;
    assert Show(1) == "1";
    assert PadDigits(150, 2) == "50";
    assert Unsigned(150, 2, false) == "1.50";
  }

  /** Worked example: the horizontal-chart copy prints millions with one decimal. */
  lemma ExampleMillionsHorizontal()
    ensures FormatLarge(HorizontalChartCopy, 1500000.0) == "1.5 tr"
  {
    var y := 1500000.0 / 1000000.0;
    assert y == 1.5;
    assert Scale(1.5, 1) == 15.0;
    assert RoundHalfEven(15.0) == 15;
    assert ScaledMagnitude(y, 1) == 15;
    assert Drop(15, 1) == 1;
    assert Show(1) == "1";
    assert PadDigits(15, 1) == "5";
    assert Unsigned(15, 1, false) == "1.5";
  }

  /** Worked example: `int()` truncates -1234.9 toward zero. */
  lemma ExampleSimple()
    ensures FormatSimple(-1234.9) == "-1,234"
  {
    assert Trunc(-1234.9) == -1234;
    assert Show(1234) == "1234";
    assert Group("1234") == "1,234";
  }
}

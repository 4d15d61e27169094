# Chart engine of the report-chart service

The service draws three report charts: grouped vertical revenue bars,
grouped horizontal revenue bars sorted by last month, and grouped horizontal
new-user bars sorted by last month. This project models the deterministic
core of the three builders in `main.py` and proves properties about it. The
core is:

- the two `format_large_number` copies and `format_simple_number`;
- the argsort-and-reindex step that orders the categories;
- the bar and label geometry and the value-axis range;
- the label texts.

What each builder hands to matplotlib (rectangles, annotations, tick
formatter, titles, legend, axis limit) is collected into a `Chart` value. The
drawing itself is not modelled.

Modules:

- `Digits` (`digits.dfy`): decimal digit strings. It covers `str(n)` for
  n ≥ 0, reading digits back, zero-padded fraction digits, Python's `,`
  grouping in threes, and deleting separators.
- `NumberFormat` (`number_format.dfy`):
  - Python's `:.Nf` and `:,.Nf` on the exact value of a float, rounded half
    to even;
  - the magnitude tiers and both copies of `format_large_number`;
  - `format_simple_number`.
- `SeriesAlign` (`series_align.dfy`): `np.argsort(last)[::-1]` as an
  insertion sort of an index array in place, reversed. The resulting
  permutation reorders the labels and both series.
- `Layout` (`layout.dfy`):
  - bar rectangles for matplotlib's `align='center'`;
  - the value-axis limit;
  - the `add_labels` loops;
  - the two-line share label of the revenue chart.
- `Charts` (`charts.dfy`): the three builders, each as a method that returns
  the chart plan.

## Model

| member | source | states |
|---|---|---|
| Digits.Show | main.py:162 | `str(n)` for n >= 0 is a non-empty digit string without leading zeros: it starts with 0 exactly when n = 0, and then it is "0". |
| Digits.ValueOfShow | main.py:162 | Reading back the decimal text of n gives n. |
| Digits.ValueBound | main.py:69-71 | A string of d digits denotes a number below 10^d. |
| Digits.DropZero | main.py:69-71 | The digits of n above the last d are 0 exactly when n < 10^d. |
| Digits.PadValue | main.py:69-71 | The d zero-padded fraction digits of n denote n mod 10^d. |
| Digits.ValueAppend | main.py:69-71 | A concatenation of digit strings denotes the left part times 10^(length of the right part) plus the right part. |
| Digits.DropAndPad | main.py:69-71 | n splits into its digits above the last d and the last d digits: the two parts recombine to n. |
| Digits.SplitDigits | main.py:69-71 | Writing the whole-part digits next to the d zero-padded fraction digits denotes the scaled number again. |
| Digits.StripGroup | main.py:162 | Deleting the commas from a comma-grouped digit string gives the digit string back. |
| Digits.Group | main.py:162 | Grouping keeps the leading digit in front, never shortens the text, and leaves a number of up to three digits unchanged. |
| Digits.GroupLength | main.py:162 | Grouping inserts one comma for each full group of three after the first group. |
| Digits.GroupShape | main.py:162 | In a grouped number, a character is a comma exactly when its distance from the end is a multiple of four; every other character is a digit. |
| NumberFormat.Abs | main.py:114-116 | abs(x) is non-negative and equals x or -x. |
| NumberFormat.RoundHalfEven | main.py:69-72 | The rounding that `:.Nf` applies is within 1/2 of the exact value and picks the even neighbour on a tie. |
| NumberFormat.RoundHalfEvenUnique | main.py:69-72 | Exactly one integer is nearest with ties to even, so the rounding is determined by its contract. |
| NumberFormat.ScaleNegate | main.py:114-117 | Scaling by 10^d commutes with negation. |
| NumberFormat.ScaleNonNegative | main.py:69-72 | Scaling by 10^d keeps a non-negative value non-negative. |
| NumberFormat.FixedPoint | main.py:69-72 | `:.Nf` text is non-empty and starts with a minus sign exactly when the value is negative. |
| NumberFormat.UnsignedShape | main.py:69-72 | Unsigned `:.Nf` text has a whole part made of digits and commas only (digits only when printed without `,`; printed with `,`, a comma exactly before each group of three digits counted from the right) and without leading zeros; it is "0" exactly when the scaled magnitude is below 10^N. For N > 0 it is followed by a point and exactly N digits, and these denote the scaled magnitude mod 10^N. |
| NumberFormat.FixedPointShape | main.py:69-72 | Behind the optional minus sign, `:.Nf` text has the layout of UnsignedShape for the rounded magnitude of the value: a whole part of digits and commas (digits only without `,`, commas before each group of three digits from the right with it), no leading zeros and exactly N fraction digits, which are the last N digits of the rounded magnitude times 10^N. |
| NumberFormat.UnsignedReadsBack | main.py:69-72 | Unsigned fixed-point text starts with a digit; with its separators deleted it reads back as the scaled rounded magnitude. |
| NumberFormat.FixedPointReadsBack | main.py:69-72 | `:.Nf` / `:,.Nf` text reads back as the value times 10^N rounded half to even, sign included. |
| NumberFormat.ReadSigned | main.py:69-72 | A leading minus sign negates what the rest of the text reads as. |
| NumberFormat.RoundHalfEvenSymmetric | main.py:114-117 | Rounding half to even is symmetric around zero. |
| NumberFormat.FixedPointNegate | main.py:114-117 | The fixed-point text of -x is a minus sign before the text of x, for x > 0. |
| NumberFormat.TierOf | main.py:113-116 | The tier is the first threshold reached. Units holds exactly when the value is below 1000. Every other tier's divisor is at most the value, and the value is below 1000 times the divisor except in the unbounded billion tier. |
| NumberFormat.TierMonotone | main.py:113-116 | A larger magnitude never selects a lower tier. |
| NumberFormat.FormatLarge | main.py:68-72 | Both copies of `format_large_number` print a non-empty label that starts with a minus sign exactly when num is negative. |
| NumberFormat.FormatLargeShape | main.py:113-117 | In both copies the number before the tier suffix has a minus sign exactly for negative num, a whole part without leading zeros made of digits and commas, of digits only outside the units tier, and in the units tier (the only one printed with `,`) with a comma exactly before each group of three digits counted from the right, and exactly the tier's number of decimals: none below a thousand, one for thousands, two for millions in the revenue copy and one in the horizontal copy, two for billions. The decimals are the last digits of the rounded scaled value. |
| NumberFormat.FormatLargeReadsBack | main.py:113-117 | A large-number label ends with its tier's suffix. The number before the suffix reads back as num / divisor rounded half to even to the tier's decimals (both copies). |
| NumberFormat.RevenueCopyNegativesArePlain | main.py:68-72 | The revenue-chart copy tests the signed value, so every negative input prints as a minus sign and the comma-grouped rounded magnitude, with no suffix. |
| NumberFormat.HorizontalCopySymmetric | main.py:113-117 | The horizontal-chart copy tiers on abs(num): the label of -num is a minus sign before the label of num. |
| NumberFormat.CopiesAgreeOutsideMillions | main.py:70 | On non-negative input the two copies differ only in the million tier, where the decimals differ. |
| NumberFormat.Trunc | main.py:162 | `int(num)` truncates toward zero: its magnitude is at most that of num and within 1 of it, with the same sign. |
| NumberFormat.FormatSimple | main.py:160-162 | A simple label is non-empty and starts with a minus sign exactly when int(num) is negative. |
| NumberFormat.FormatSimpleReadsBack | main.py:160-162 | Deleting the commas and points from a simple label gives `str(int(num))`, and the label reads back as int(num). |
| NumberFormat.FormatSimpleShape | main.py:160-162 | Behind its sign a simple label starts with a digit, which is '0' exactly when int(num) is 0 and then the label is "0". Every character is a digit or a comma, and it is a comma exactly when the number of characters from it to the end of the label is a multiple of four: a comma before each group of three digits, counted from the right. |
| NumberFormat.GroupNoNewline | main.py:162 | A grouped digit string contains no line break. |
| NumberFormat.FormatNoNewline | main.py:90 | Every formatted number is a single line, so the share label splits at its first line break. |
| NumberFormat.ExampleBillion | main.py:114 | 1,500,000,000 prints as "1.50 tỷ". |
| NumberFormat.ExamplePlain | main.py:72 | 999 prints as "999" with no suffix. |
| NumberFormat.ExampleMillionsRevenue | main.py:70 | The revenue copy prints 1,500,000 as "1.50 tr". |
| NumberFormat.ExampleMillionsHorizontal | main.py:115 | The horizontal copy prints 1,500,000 as "1.5 tr". |
| NumberFormat.ExampleSimple | main.py:162 | -1234.9 prints as "-1,234" (truncation toward zero, then grouping). |
| SeriesAlign.SortIndexArray | main.py:121 | Sorting the index array in place leaves it a permutation of 0..N-1, ordered by increasing key. |
| SeriesAlign.InsertNext | main.py:121 | One insertion step keeps the array a permutation and grows the key-ordered prefix by one entry. It only rearranges the first i + 1 entries (same multiset) and leaves every later entry in place. |
| SeriesAlign.SwapKeepsInserting | main.py:121 | Swapping the moving entry one place left keeps the insertion invariant. |
| SeriesAlign.InsertingDone | main.py:121 | An insertion that has stopped leaves the prefix in key order. |
| SeriesAlign.SwapKeepsPermutation | main.py:121 | Exchanging two entries of a permutation gives a permutation. |
| SeriesAlign.IdentityIsPermutation | main.py:121 | `np.arange(N)` is a permutation of 0..N-1. |
| SeriesAlign.ArgSort | main.py:121 | `np.argsort(keys)` returns a permutation of 0..N-1 that lists the keys in increasing order. |
| SeriesAlign.SortedIndices | main.py:121 | `argsort(keys)[::-1]` returns a permutation of 0..N-1 that lists the keys in decreasing order. |
| SeriesAlign.Reverse | main.py:121 | `[::-1]` keeps the length and swaps the first and last entries. |
| SeriesAlign.ReverseTwice | main.py:121 | Reversing twice gives the sequence back. |
| SeriesAlign.ReverseKeepsPermutation | main.py:121 | Reversing a permutation gives a permutation. |
| SeriesAlign.AlignByLast | main.py:121-122 | One permutation gathers the labels, the last-month series and the previous-month series. The sorted last-month series is non-increasing. |
| SeriesAlign.AlignedRows | main.py:169-172 | After the sort, row i (label, last, prev) is the input row at order[i], so no value moves to another category. |
| SeriesAlign.AlignKeepsRows | main.py:169-172 | The sort does not change the multiset of (label, last, prev) rows. |
| SeriesAlign.Reindex | main.py:122 | Fancy indexing gives one entry per index, each taken from the indexed array. |
| SeriesAlign.ReindexKeepsMultiset | main.py:122 | Gathering by a permutation preserves the multiset of elements. |
| SeriesAlign.SwapLastToEnd | main.py:122 | A permutation can be rearranged to end in N-1 without changing the multiset it gathers. |
| SeriesAlign.DropLastOfPermutation | main.py:122 | A permutation of 0..N-1 ending in N-1 starts with a permutation of 0..N-2. |
| SeriesAlign.IndexOf | main.py:122 | Finds where a value occurs in a sequence that contains it. |
| SeriesAlign.Inverse | main.py:122 | The inverse of a permutation indexes within 0..N-1. |
| SeriesAlign.RestoreOrder | main.py:122 | Gathering the sorted data by the inverse permutation restores the input order. |
| SeriesAlign.ExampleAlignment | main.py:169-172 | Categories A, B, C with last-month values 300, 100, 500 come out as C, A, B with 500, 300, 100, and their previous-month values move with them: 450, 200, 150. |
| Layout.Bars | main.py:83-84 | `ax.bar`/`ax.barh` draw one rectangle per value, and the rectangle of entry i carries values[i] as its length. |
| Layout.BarPlacement | main.py:81-84 | The bar of category i is centred at i + shift, one thickness (0.35) wide, starts at 0 on the value axis (bottom 0 for `bar`, left 0 for `barh`), and carries values[i] as its length. |
| Layout.GroupedSpan | main.py:126-129 | A last-month bar of category i spans [i - 0.35, i]; a previous-month bar spans [i, i + 0.35]. |
| Layout.GroupedBarsDisjoint | main.py:126-129 | No two of the 2N bars overlap along the category axis. |
| Layout.BarsInsideSlot | main.py:180-187 | Each bar of category i lies strictly inside (i - 1/2, i + 1/2), so neighbouring groups do not touch. |
| Layout.Max | main.py:100 | `max` over a non-empty list is an element that is at least every element. |
| Layout.ValueLimit | main.py:100 | The limit is the headroom factor times a value of one of the two series, and with a non-negative factor no value times the factor exceeds it: it is the factor times the largest value. |
| Layout.ValueLimitCoversBars | main.py:143 | For non-negative data, the value-axis limit (1.3 or 1.2 times the largest value) reaches every bar of both series. When some value of either series is positive, it reaches strictly beyond every bar of both series. |
| Layout.AllZeroLimit | main.py:216 | When all values are zero the limit is zero: the code adds no margin. |
| Layout.LineBreak | main.py:90 | Finds the first line break: no break occurs before it, and it is a break when inside the text. |
| Layout.ShareLabel | main.py:90 | The share label is the value text followed by four more characters and the share. For a one-line value text, its first line break comes right after the value text. |
| Layout.ShareLabelRoundTrip | main.py:90 | The label "value\n(share%)" splits back into the value text and the share whenever the value text is one line. |
| Layout.VerticalLabels | main.py:85-91 | One label per bar, anchored at the top centre of the bar, offset (0, 4), centred and bottom-aligned. Its text is the revenue-copy label of the bar height, a line break, and the share at that input position in parentheses with a percent sign. |
| Layout.HorizontalLabels | main.py:130-133 | One label per bar, anchored at the end of the bar on its centre line, offset (3, 0), left-aligned and vertically centred. Its text is the bar length in the chart's number style. |
| Layout.LabelAnchors | main.py:190-198 | For bars built at category positions, the label anchor is (i + shift, value) for vertical bars and (value, i + shift) for horizontal bars. |
| Charts.RevenueChart | main.py:67-100 | Vertical grouped bars in input order, with the categories as given. Each label sits over its bar and shows the revenue-copy text and the share of that input position; the label splits back into the two. The value axis runs to 1.3 times the largest revenue, and the ticks use the revenue copy. The title, axis label and legend are taken from main.py. |
| Charts.SortedHorizontalChart | main.py:118-143 | The categories are sorted by last-month value, largest first, via a permutation. Each category's label and both values stay together. Each label sits at the end of its bar and shows the bar's value in the tick style. The value axis runs to 1.2 times the largest value, and the category axis is inverted. |
| Charts.LabelledBars | main.py:128-135 | One series of a horizontal chart: its bars, and one label per bar at the end of the bar showing the bar's value in the chart's style. |
| Charts.HorizontalChart | main.py:125-143 | A chart of already sorted data: bar i of each series at position i, each labelled with its value, the value axis to 1.2 times the largest value, the category axis inverted and the legend in the lower right. |
| Charts.HorizontalRevenueChart | main.py:112-143 | The horizontal revenue chart is the sorted horizontal chart in the abs-tiering formatter copy. It has the requested size and resolution, the sorted bars of both series and the legend in the lower right. The title, axis label and legend are taken from main.py. |
| Charts.ToReals | main.py:166-167 | The integer counts become the same values as reals, position by position. |
| Charts.NewUserChart | main.py:155-216 | The new-user chart is the sorted horizontal chart over the counts, in the simple style. Its bars are those of both count series in sorted order, its size and resolution are the requested ones, and its legend is in the lower right. Each label, with its commas and points deleted, is `str` of the count it shows. The title, axis label and legend are taken from main.py. |
| Charts.IntegerCountText | main.py:193 | For an integer count, the simple label with its commas and points deleted is `str(count)`, and it reads back as the count. |

## Left out

- The FastAPI app, its routes and CORS settings, the pydantic request models, uvicorn start-up and logging. These are framework plumbing. The request is taken as an already-validated `Request` value plus the chart data.
- All matplotlib rendering: figure creation, colours, fonts and font sizes, grid, spines, `tight_layout`, `savefig` to PNG and `plt.close`. The model stops at the numbers and texts these calls receive. The `rcParams` font settings are global styling with no logic.
- Binary floating point. Values are exact reals. `:.Nf` is modelled as correct rounding (half to even) of the exact value. Python first rounds `num / 1_000_000` to a double, so the model can differ where that quotient is not exact and lies near a rounding boundary. NaN, infinities and -0.0 are not modelled.
- SeriesAlign.ArgSort: numpy's argsort is not stable, and the result is reversed. The source promises no order among equal values, and the model states none beyond the non-increasing order.
- Charts.RevenueChart: the share values are taken as the text that Python's f-string prints for them. How arbitrary JSON values are turned into text is not modelled.
- Charts.RevenueChart: matplotlib's broadcasting of a length-1 series is not modelled. The revenue series must have one value per label.
- Shape mismatches and empty input have no dedicated handling in the source: they surface as numpy or `max()` exceptions. They are preconditions here. Each horizontal builder needs at least one last-month value and at least as many labels and previous-month values. The revenue builder needs at least one label, and one revenue and one share per label in each month.
- The all-zero case keeps the code's axis range, `(0, 0)`. No minimum span is added.
- Both copies of `format_large_number` are modelled as written, including the revenue copy that tiers on the signed value. Without `abs()`, no negative revenue is ever abbreviated; RevenueCopyNegativesArePlain states this. The `Chart` plan for the revenue chart uses the copy the code uses.
- The unused `pos` argument of the tick formatters: matplotlib passes a tick position that the formatters ignore.

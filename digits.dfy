/** Decimal digit strings: rendering a natural number, reading it back, comma
    grouping in threes from the right, and deleting separators again. These are
    the integer parts of Python's format mini-language that the chart
    formatters use (`:,`, `:,.0f`, `:.2f`, `:.1f`). */
module Digits {

  function Pow10(d: nat): (p: nat)
    ensures p >= 1
  {
    if d == 0 then 1 else 10 * Pow10(d - 1)
  }

  predicate IsDigit(c: char) {
    '0' <= c <= '9'
  }

  predicate AllDigits(s: string) {
    forall k :: 0 <= k < |s| ==> IsDigit(s[k])
  }

  function DigitChar(k: nat): (c: char)
    requires k < 10
    ensures IsDigit(c)
  {
    ('0' as int + k) as char
  }

  /** The value of one character read as a decimal digit (other characters
      read as 0; they never occur where this is used). */
  function DigitValue(c: char): (k: nat)
    ensures k < 10
  {
    if IsDigit(c) then c as int - '0' as int else 0
  }

  /** The decimal digits of n, most significant first, without leading zeros
      (Python's `str(n)` for n >= 0). */
  function Show(n: nat): (s: string)
    ensures |s| >= 1 && AllDigits(s)
    ensures s[0] == '0' <==> n == 0
    ensures n == 0 ==> s == "0"
  {
    if n < 10 then [DigitChar(n)] else Show(n / 10) + [DigitChar(n % 10)]
  }

  /** Exactly d digits: the last d decimal digits of n, zero-filled on the left. */
  function PadDigits(n: nat, d: nat): (s: string)
    ensures |s| == d && AllDigits(s)
  {
    if d == 0 then [] else PadDigits(n / 10, d - 1) + [DigitChar(n % 10)]
  }

  /** n with its last d decimal digits removed (n divided by 10^d). */
  function Drop(n: nat, d: nat): nat {
    if d == 0 then n else Drop(n / 10, d - 1)
  }

  /** The number a digit string denotes (Horner's rule from the left). */
  function Value(s: string): nat {
    if s == [] then 0 else 10 * Value(s[..|s| - 1]) + DigitValue(s[|s| - 1])
  }

  /** Python's `:,` grouping: a comma before every third digit counted from
      the right. It keeps the leading character in front and inserts one
      comma for each full group of three after the first. */
  function Group(s: string): (g: string)
    ensures |s| >= 1 ==> |g| >= |s| && g[0] == s[0]
    ensures |s| <= 3 ==> g == s
  {
    if |s| <= 3 then s else Group(s[..|s| - 3]) + [','] + s[|s| - 3..]
  }

  /** Grouping inserts one comma for each full group of three digits after
      the first group. */
  lemma {:induction false} GroupLength(s: string)
    requires |s| >= 1
    ensures |Group(s)| == |s| + (|s| - 1) / 3
  {
    if |s| > 3 {
      GroupLength(s[..|s| - 3]);
    }
  }

  predicate IsSeparator(c: char) {
    c == ',' || c == '.'
  }

  /** s with every comma and decimal point deleted. */
  function StripSeparators(s: string): string {
    if s == [] then []
    else StripSeparators(s[..|s| - 1]) + (if IsSeparator(s[|s| - 1]) then [] else [s[|s| - 1]])
  }

  lemma DigitValueOfChar(k: nat)
    requires k < 10
    ensures DigitValue(DigitChar(k)) == k
  {
  }

  /** Reading back what Show wrote gives the number again. */
  lemma {:induction false} ValueOfShow(n: nat)
    ensures Value(Show(n)) == n
  {
    DigitValueOfChar(n % 10);
    if n >= 10 {
      var s := Show(n / 10) + [DigitChar(n % 10)];
      assert s[..|s| - 1] == Show(n / 10);
      ValueOfShow(n / 10);
    }
  }

  /** Reading a concatenation: the left part is worth 10^|b| times its value. */
  lemma {:induction false} ValueAppend(a: string, b: string)
    ensures Value(a + b) == Value(a) * Pow10(|b|) + Value(b)
  {
    if b == [] {
      assert a + b == a;
    } else {
      var b', c := b[..|b| - 1], b[|b| - 1];
      assert (a + b)[..|a + b| - 1] == a + b';
      assert (a + b)[|a + b| - 1] == c;
      assert Value(a + b) == 10 * Value(a + b') + DigitValue(c);
      ValueAppend(a, b');
      ShiftDigit(Value(a), Pow10(|b'|), Value(b'), DigitValue(c));
    }
  }

  /** Appending a digit c to x * p + y multiplies the place value by ten. */
  lemma ShiftDigit(x: int, p: int, y: int, c: int)
    ensures 10 * (x * p + y) + c == x * (10 * p) + (10 * y + c)
  {
  }

  /** Splitting n into the digits above and the d digits below the decimal
      point and writing both side by side denotes n again. */
  lemma {:induction false} SplitDigits(n: nat, d: nat)
    ensures Value(Show(Drop(n, d)) + PadDigits(n, d)) == n
  {
    ValueAppend(Show(Drop(n, d)), PadDigits(n, d));
    ValueOfShow(Drop(n, d));
    DropAndPad(n, d);
  }

  lemma {:induction false} DropAndPad(n: nat, d: nat)
    ensures Drop(n, d) * Pow10(d) + Value(PadDigits(n, d)) == n
  {
    if d > 0 {
      var low := PadDigits(n / 10, d - 1);
      var c := DigitChar(n % 10);
      var s := low + [c];
      assert s == PadDigits(n, d);
      assert s[..|s| - 1] == low && s[|s| - 1] == c;
      DigitValueOfChar(n % 10);
      assert Value(s) == 10 * Value(low) + n % 10;
      DropAndPad(n / 10, d - 1);
      var hi, p := Drop(n / 10, d - 1), Pow10(d - 1);
      assert hi == Drop(n, d) && 10 * p == Pow10(d);
      ShiftDigit(hi, p, Value(low), n % 10);
      assert n == 10 * (n / 10) + n % 10;
    }
  }

  /** A string of k digits denotes less than 10^k. */
  lemma {:induction false} ValueBound(s: string)
    ensures Value(s) < Pow10(|s|)
  {
    if s != [] {
      ValueBound(s[..|s| - 1]);
    }
  }

  /** The digits above the last d are all gone exactly when n < 10^d. */
  lemma {:induction false} DropZero(n: nat, d: nat)
    ensures Drop(n, d) == 0 <==> n < Pow10(d)
  {
    if d > 0 {
      DropZero(n / 10, d - 1);
    }
  }

  /** The last d digits of n denote n mod 10^d. */
  lemma PadValue(n: nat, d: nat)
    ensures Value(PadDigits(n, d)) == n % Pow10(d)
  {
    DropAndPad(n, d);
    ValueBound(PadDigits(n, d));
    ModUnique(n, Drop(n, d), Pow10(d), Value(PadDigits(n, d)));
  }

  /** The remainder is the unique v in [0, m) with n == k * m + v. */
  lemma ModUnique(n: int, k: int, m: int, v: int)
    requires m > 0 && 0 <= v < m && n == k * m + v
    ensures n % m == v
  {
    var k', v' := n / m, n % m;
    assert n == k' * m + v';
    if k' > k {
      MulStep(k' - k, m);
    } else if k' < k {
      MulStep(k - k', m);
    }
  }

  lemma MulStep(a: int, m: int)
    requires a >= 1 && m > 0
    ensures a * m >= m
  {
  }

  lemma {:induction false} StripSeparatorsAppend(a: string, b: string)
    ensures StripSeparators(a + b) == StripSeparators(a) + StripSeparators(b)
  {
    if b != [] {
      var b' := b[..|b| - 1];
      assert (a + b)[..|a + b| - 1] == a + b';
      assert (a + b)[|a + b| - 1] == b[|b| - 1];
      StripSeparatorsAppend(a, b');
    } else {
      assert a + b == a;
    }
  }

  lemma {:induction false} StripSeparatorsOfDigits(s: string)
    requires AllDigits(s)
    ensures StripSeparators(s) == s
  {
    if s != [] {
      StripSeparatorsOfDigits(s[..|s| - 1]);
      assert s[..|s| - 1] + [s[|s| - 1]] == s;
    }
  }

  /** Grouping round trip: deleting the commas from a grouped digit string
      gives the digit string back. */
  lemma {:induction false} StripGroup(s: string)
    requires AllDigits(s)
    ensures StripSeparators(Group(s)) == s
  {
    if |s| <= 3 {
      StripSeparatorsOfDigits(s);
    } else {
      var hi, lo := s[..|s| - 3], s[|s| - 3..];
      var g := Group(hi);
      assert Group(s) == g + [','] + lo;
      StripGroup(hi);
      StripSeparatorsAppend(g + [','], lo);
      StripSeparatorsAppend(g, [',']);
      assert StripSeparators([',']) == [];
      assert StripSeparators(g + [',']) == hi;
      StripSeparatorsOfDigits(lo);
      assert hi + lo == s;
    }
  }

  /** Shape of a grouped number: a character of it is a comma exactly when its
      distance from the end is a multiple of four, and every other character
      is a digit. So the leftmost group holds one to three digits and every
      later group three. */
  lemma GroupShape(s: string)
    requires |s| >= 1 && AllDigits(s)
    ensures forall k :: 0 <= k < |Group(s)| ==>
              (Group(s)[k] == ',' <==> (|Group(s)| - k) % 4 == 0)
    ensures forall k :: 0 <= k < |Group(s)| ==> (Group(s)[k] == ',' || IsDigit(Group(s)[k]))
  {
    forall k | 0 <= k < |Group(s)|
      ensures Group(s)[k] == ',' <==> (|Group(s)| - k) % 4 == 0
      ensures Group(s)[k] == ',' || IsDigit(Group(s)[k])
    {
      GroupCharAt(s, k);
    }
  }

  lemma {:induction false} GroupCharAt(s: string, k: nat)
    requires AllDigits(s) && k < |Group(s)|
    ensures Group(s)[k] == ',' <==> (|Group(s)| - k) % 4 == 0
    ensures Group(s)[k] == ',' || IsDigit(Group(s)[k])
  {
    var t := Group(s);
    if |s| <= 3 {
      assert t == s;
      assert 1 <= |t| - k <= 3;
    } else {
      var hi, lo := s[..|s| - 3], s[|s| - 3..];
      DigitsSplit(s, |s| - 3);
      var g := Group(hi);
      assert t == g + [','] + lo;
      JoinCharAt(t, g, lo, k);
      if k < |g| {
        GroupCharAt(hi, k);
      }
    }
  }

  /** Both pieces of a digit string are digit strings. */
  lemma DigitsSplit(s: string, n: nat)
    requires AllDigits(s) && n <= |s|
    ensures AllDigits(s[..n]) && AllDigits(s[n..])
  {
  }

  /** A character of g + "," + lo, for a three-digit lo, by where it falls. */
  lemma JoinCharAt(t: string, g: string, lo: string, k: nat)
    requires t == g + [','] + lo && |lo| == 3 && AllDigits(lo) && k < |t|
    ensures k < |g| ==> t[k] == g[k] && (|t| - k) % 4 == (|g| - k) % 4
    ensures k == |g| ==> t[k] == ',' && (|t| - k) % 4 == 0
    ensures k > |g| ==> IsDigit(t[k]) && (|t| - k) % 4 != 0
  {
    if k > |g| {
      assert t[k] == lo[k - |g| - 1];
      assert 1 <= |t| - k <= 3;
    }
  }
}

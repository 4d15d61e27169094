/** The sort step of `create_horizontal_grouped_barchart` and
    `create_new_user_chart` in main.py:

        sorted_indices = np.argsort(last)[::-1]
        labels, last, prev = labels[sorted_indices], last[sorted_indices], prev[sorted_indices]

    One index sequence, a permutation of 0..N-1 that lists the last-month
    values from largest to smallest, is applied to the labels and to both
    period series, so every category keeps its own values. */
module SeriesAlign {

  /** p lists each of 0..n-1 exactly once. */
  predicate IsPermutation(p: seq<nat>, n: nat) {
    |p| == n
    && (forall k :: 0 <= k < n ==> p[k] < n)
    && (forall i, j :: 0 <= i < j < n ==> p[i] != p[j])
    && (forall v :: 0 <= v < n ==> v in p)
  }

  predicate IndicesBelow(p: seq<nat>, len: nat) {
    forall k :: 0 <= k < |p| ==> p[k] < len
  }

  /** numpy fancy indexing `s[p]`: the elements of s at the positions p lists. */
  function Reindex<T>(s: seq<T>, p: seq<nat>): (r: seq<T>)
    requires IndicesBelow(p, |s|)
    ensures |r| == |p| && forall k :: 0 <= k < |r| ==> r[k] in s
  {
    seq(|p|, k requires 0 <= k < |p| => s[p[k]])
  }

  /** `p[::-1]`. */
  function Reverse<T>(p: seq<T>): (r: seq<T>)
    ensures |r| == |p|
    ensures |p| > 0 ==> r[0] == p[|p| - 1] && r[|p| - 1] == p[0]
  {
    seq(|p|, k requires 0 <= k < |p| => p[|p| - 1 - k])
  }

  /** Reversing twice gives the sequence back. */
  lemma ReverseTwice<T>(p: seq<T>)
    ensures Reverse(Reverse(p)) == p
  {
  }

  predicate AscendingBy(p: seq<nat>, keys: seq<real>)
    requires IndicesBelow(p, |keys|)
  {
    forall i, j :: 0 <= i < j < |p| ==> keys[p[i]] <= keys[p[j]]
  }

  predicate DescendingBy(p: seq<nat>, keys: seq<real>)
    requires IndicesBelow(p, |keys|)
  {
    forall i, j :: 0 <= i < j < |p| ==> keys[p[i]] >= keys[p[j]]
  }

  predicate NonIncreasing(s: seq<real>) {
    forall i, j :: 0 <= i < j < |s| ==> s[i] >= s[j]
  }

  /** The first `len` entries of a point at keys in increasing order. */
  ghost predicate SortedPrefix(a: seq<nat>, keys: seq<real>, len: nat)
    requires len <= |a| && IndicesBelow(a, |keys|)
  {
    forall p, q :: 0 <= p < q < len ==> keys[a[p]] <= keys[a[q]]
  }

  /** Sorts the index array a by the keys it points at, in place, by
      insertion (what `np.argsort` computes; its tie order is not modelled). */
  method SortIndexArray(a: array<nat>, keys: seq<real>)
    requires a.Length == |keys| && IsPermutation(a[..], |keys|)
    modifies a
    ensures IsPermutation(a[..], |keys|)
    ensures AscendingBy(a[..], keys)
  {
    var n := a.Length;
    if n == 0 {
      return;
    }
    var i := 1;
    while i < n
      invariant 1 <= i <= n
      invariant IsPermutation(a[..], n)
      invariant SortedPrefix(a[..], keys, i)
    {
      InsertNext(a, keys, i);
      i := i + 1;
    }
  }

  /** Moves entry i leftwards past every entry with a larger key, so that the
      sorted prefix grows from i to i + 1 entries. */
  method InsertNext(a: array<nat>, keys: seq<real>, i: nat)
    requires a.Length == |keys| && IsPermutation(a[..], |keys|)
    requires 1 <= i < a.Length && SortedPrefix(a[..], keys, i)
    modifies a
    ensures IsPermutation(a[..], |keys|)
    ensures SortedPrefix(a[..], keys, i + 1)
    ensures multiset(a[..i + 1]) == multiset(old(a[..i + 1]))
    ensures a[i + 1..] == old(a[i + 1..])
  {
    var n := a.Length;
    var j := i;
    while j > 0 && keys[a[j - 1]] > keys[a[j]]
      invariant 0 <= j <= i
      invariant IsPermutation(a[..], n)
      invariant Inserting(a[..], keys, i, j)
      invariant multiset(a[..i + 1]) == multiset(old(a[..i + 1]))
      invariant a[i + 1..] == old(a[i + 1..])
    {
      ghost var before := a[..];
      a[j - 1], a[j] := a[j], a[j - 1];
      assert a[..] == before[j - 1 := before[j]][j := before[j - 1]];
      SwapKeepsPermutation(before, j - 1, j, n);
      SwapKeepsInserting(before, keys, i, j);
      SwapInPrefix(before, a[..], i, j);
      j := j - 1;
    }
    InsertingDone(a[..], keys, i, j);
  }

  /** Swapping entries j - 1 and j of the first i + 1 keeps that prefix's
      multiset and leaves the rest alone. */
  lemma SwapInPrefix(s: seq<nat>, t: seq<nat>, i: nat, j: nat)
    requires 0 < j <= i < |s| && t == s[j - 1 := s[j]][j := s[j - 1]]
    ensures multiset(t[..i + 1]) == multiset(s[..i + 1]) && t[i + 1..] == s[i + 1..]
  {
    assert t[..i + 1] == s[..i + 1][j - 1 := s[j]][j := s[j - 1]];
    SwapKeepsMultiset(s[..i + 1], j - 1, j);
  }

  /** Entry j is on its way left: the entries 0..i other than j are in key
      order, and entry j is no larger than any entry to its right. */
  ghost predicate Inserting(s: seq<nat>, keys: seq<real>, i: nat, j: nat)
    requires j <= i < |s| && IndicesBelow(s, |keys|)
  {
    (forall p, q :: 0 <= p < q <= i && p != j && q != j ==> keys[s[p]] <= keys[s[q]])
    && (forall q :: j < q <= i ==> keys[s[j]] <= keys[s[q]])
    && (0 < j < i ==> keys[s[j - 1]] <= keys[s[j + 1]])
  }

  lemma SwapKeepsInserting(s: seq<nat>, keys: seq<real>, i: nat, j: nat)
    requires 0 < j <= i < |s| && IndicesBelow(s, |keys|)
    requires Inserting(s, keys, i, j) && keys[s[j - 1]] > keys[s[j]]
    ensures Inserting(s[j - 1 := s[j]][j := s[j - 1]], keys, i, j - 1)
  {
  }

  lemma InsertingDone(s: seq<nat>, keys: seq<real>, i: nat, j: nat)
    requires j <= i < |s| && IndicesBelow(s, |keys|)
    requires Inserting(s, keys, i, j) && (j == 0 || keys[s[j - 1]] <= keys[s[j]])
    ensures SortedPrefix(s, keys, i + 1)
  {
  }

  /** Exchanging two entries of a permutation gives a permutation. */
  lemma SwapKeepsPermutation(p: seq<nat>, i: nat, j: nat, n: nat)
    requires IsPermutation(p, n) && i < j < n
    ensures IsPermutation(p[i := p[j]][j := p[i]], n)
  {
    var r := p[i := p[j]][j := p[i]];
    forall v | 0 <= v < n
      ensures v in r
    {
      var k := IndexOf(p, v);
      if k == i {
        assert r[j] == v;
      } else if k == j {
        assert r[i] == v;
      } else {
        assert r[k] == v;
      }
    }
  }

  function Identity(n: nat): seq<nat> {
    seq(n, k requires 0 <= k < n => k)
  }

  lemma IdentityIsPermutation(n: nat)
    ensures IsPermutation(Identity(n), n)
  {
    forall v | 0 <= v < n
      ensures v in Identity(n)
    {
      assert Identity(n)[v] == v;
    }
  }

  /** `np.argsort(keys)`: positions of keys listed by increasing key. */
  method ArgSort(keys: seq<real>) returns (order: seq<nat>)
    ensures IsPermutation(order, |keys|)
    ensures AscendingBy(order, keys)
  {
    var a := new nat[|keys|](k => k);
    assert a[..] == Identity(|keys|);
    IdentityIsPermutation(|keys|);
    SortIndexArray(a, keys);
    order := a[..];
  }

  /** `np.argsort(keys)[::-1]`: positions of keys listed by decreasing key. */
  method SortedIndices(keys: seq<real>) returns (order: seq<nat>)
    ensures IsPermutation(order, |keys|)
    ensures DescendingBy(order, keys)
  {
    var ascending := ArgSort(keys);
    order := Reverse(ascending);
    ReverseKeepsPermutation(ascending, |keys|);
  }

  lemma ReverseKeepsPermutation(p: seq<nat>, n: nat)
    requires IsPermutation(p, n)
    ensures IsPermutation(Reverse(p), n)
  {
    var r := Reverse(p);
    forall v | 0 <= v < n
      ensures v in r
    {
      var k := IndexOf(p, v);
      assert r[n - 1 - k] == v;
    }
  }

  /** The three parallel inputs of a horizontal chart. Only the first
      |last| labels and previous-month values are ever read. */
  datatype Dataset = Dataset(labels: seq<string>, last: seq<real>, prev: seq<real>)

  /** What the numpy indexing needs: at least one category, and every
      array at least as long as the last-month series it is indexed by. */
  predicate WellShaped(d: Dataset) {
    |d.last| >= 1 && |d.labels| >= |d.last| && |d.prev| >= |d.last|
  }

  /** One category: its label and its two period values. */
  datatype Row = Row(category: string, last: real, prev: real)

  function Rows(d: Dataset): seq<Row>
    requires |d.labels| >= |d.last| && |d.prev| >= |d.last|
  {
    seq(|d.last|, k requires 0 <= k < |d.last| => Row(d.labels[k], d.last[k], d.prev[k]))
  }

  /** The sort step: order the categories by last-month value, largest
      first, moving each category's label and both values together. */
  method AlignByLast(d: Dataset) returns (sorted: Dataset, order: seq<nat>)
    requires WellShaped(d)
    ensures IsPermutation(order, |d.last|)
    ensures sorted == Dataset(Reindex(d.labels, order), Reindex(d.last, order), Reindex(d.prev, order))
    ensures NonIncreasing(sorted.last)
  {
    order := SortedIndices(d.last);
    var n := |order|;
    var labels, last, prev := [], [], [];
    for k := 0 to n
      invariant labels == Reindex(d.labels, order[..k])
      invariant last == Reindex(d.last, order[..k])
      invariant prev == Reindex(d.prev, order[..k])
    {
      labels := labels + [d.labels[order[k]]];
      last := last + [d.last[order[k]]];
      prev := prev + [d.prev[order[k]]];
    }
    assert order[..n] == order;
    sorted := Dataset(labels, last, prev);
  }

  /** After the sort step, row i is the input row at order[i]: no value is
      paired with another category's label. */
  lemma AlignedRows(d: Dataset, order: seq<nat>)
    requires WellShaped(d) && IsPermutation(order, |d.last|)
    ensures var s := Dataset(Reindex(d.labels, order), Reindex(d.last, order), Reindex(d.prev, order));
            Rows(s) == Reindex(Rows(d), order)
  {
  }

  /** After the sort step the categories are the same rows as before, only
      reordered: the multiset of (label, last, prev) rows is unchanged. */
  lemma AlignKeepsRows(d: Dataset, order: seq<nat>)
    requires WellShaped(d) && IsPermutation(order, |d.last|)
    ensures var s := Dataset(Reindex(d.labels, order), Reindex(d.last, order), Reindex(d.prev, order));
            multiset(Rows(s)) == multiset(Rows(d))
  {
    AlignedRows(d, order);
    ReindexKeepsMultiset(Rows(d), order);
  }

  /** Gathering by a permutation only reorders the elements. */
  lemma {:induction false} ReindexKeepsMultiset<T>(s: seq<T>, p: seq<nat>)
    requires IsPermutation(p, |s|)
    ensures multiset(Reindex(s, p)) == multiset(s)
  {
    var n := |s|;
    if n > 0 {
      var p' := SwapLastToEnd(s, p);
      var q, s' := p'[..n - 1], s[..n - 1];
      DropLastOfPermutation(p', n);
      ReindexKeepsMultiset(s', q);
      assert Reindex(s, p') == Reindex(s', q) + [s[n - 1]];
      assert s == s' + [s[n - 1]];
    }
  }

  /** Exchanging the entry n-1 of a permutation with its last entry keeps
      the gathered elements as a multiset. */
  lemma SwapLastToEnd<T>(s: seq<T>, p: seq<nat>) returns (p': seq<nat>)
    requires |s| > 0 && IsPermutation(p, |s|)
    ensures IsPermutation(p', |s|) && p'[|s| - 1] == |s| - 1
    ensures multiset(Reindex(s, p')) == multiset(Reindex(s, p))
  {
    var n := |s|;
    assert n - 1 in p;
    var j := IndexOf(p, n - 1);
    if j == n - 1 {
      p' := p;
    } else {
      p' := SwapEntries(s, p, j, n - 1);
    }
  }

  /** Exchanging entries i and j of a permutation gives a permutation that
      gathers the same multiset. */
  lemma SwapEntries<T>(s: seq<T>, p: seq<nat>, i: nat, j: nat) returns (p': seq<nat>)
    requires IsPermutation(p, |s|) && i < j < |s|
    ensures p' == p[i := p[j]][j := p[i]]
    ensures IsPermutation(p', |s|)
    ensures multiset(Reindex(s, p')) == multiset(Reindex(s, p))
  {
    p' := p[i := p[j]][j := p[i]];
    SwapKeepsPermutation(p, i, j, |s|);
    ReindexSwap(s, p, i, j);
    SwapKeepsMultiset(Reindex(s, p), i, j);
  }

  /** Gathering by an index sequence with two entries exchanged gathers the
      same elements with those two exchanged. */
  lemma ReindexSwap<T>(s: seq<T>, p: seq<nat>, i: nat, j: nat)
    requires IndicesBelow(p, |s|) && i < j < |p|
    ensures IndicesBelow(p[i := p[j]][j := p[i]], |s|)
    ensures var r := Reindex(s, p);
            Reindex(s, p[i := p[j]][j := p[i]]) == r[i := r[j]][j := r[i]]
  {
  }

  /** Exchanging two elements of a sequence keeps its multiset. */
  lemma SwapKeepsMultiset<T>(r: seq<T>, i: nat, j: nat)
    requires i < j < |r|
    ensures multiset(r[i := r[j]][j := r[i]]) == multiset(r)
  {
    var r1 := r[i := r[j]];
    assert multiset(r1) == multiset(r) - multiset{r[i]} + multiset{r[j]};
    assert r1[j] == r[j];
    assert multiset(r1[j := r[i]]) == multiset(r1) - multiset{r[j]} + multiset{r[i]};
  }

  /** A permutation of 0..n-1 that ends in n-1 starts with a permutation of 0..n-2. */
  lemma DropLastOfPermutation(p: seq<nat>, n: nat)
    requires n > 0 && IsPermutation(p, n) && p[n - 1] == n - 1
    ensures IsPermutation(p[..n - 1], n - 1)
  {
    var q := p[..n - 1];
    forall k | 0 <= k < n - 1
      ensures q[k] < n - 1
    {
      assert p[k] != p[n - 1];
    }
    forall v | 0 <= v < n - 1
      ensures v in q
    {
      var k := IndexOf(p, v);
      assert k != n - 1;
      assert q[k] == v;
    }
  }

  /** Where v sits in p. */
  function IndexOf(p: seq<nat>, v: nat): (i: nat)
    requires v in p
    ensures i < |p| && p[i] == v
  {
    if p[0] == v then 0 else 1 + IndexOf(p[1..], v)
  }

  /** The inverse permutation: entry v says where v went. */
  function Inverse(p: seq<nat>, n: nat): (r: seq<nat>)
    requires IsPermutation(p, n)
    ensures IndicesBelow(r, n)
  {
    seq(n, v requires 0 <= v < n => IndexOf(p, v))
  }

  /** Undoing the sort: gathering the sorted rows by the inverse permutation
      gives back the original rows in their original order. */
  lemma RestoreOrder<T>(s: seq<T>, p: seq<nat>)
    requires IsPermutation(p, |s|)
    ensures Reindex(Reindex(s, p), Inverse(p, |s|)) == s
  {
  }

  /** The worked example: categories A, B, C with last-month values 300, 100,
      500 and previous-month values 200, 150, 450. Whatever permutation the
      sort step computes, the result is C, A, B with 500, 300, 100 and
      450, 200, 150. */
  lemma ExampleAlignment(order: seq<nat>)
    requires IsPermutation(order, 3) && DescendingBy(order, [300.0, 100.0, 500.0])
    ensures Reindex(["A", "B", "C"], order) == ["C", "A", "B"]
    ensures Reindex([300.0, 100.0, 500.0], order) == [500.0, 300.0, 100.0]
    ensures Reindex([200.0, 150.0, 450.0], order) == [450.0, 200.0, 150.0]
  {
    assert forall k :: 0 <= k < 3 ==> order[k] == 0 || order[k] == 1 || order[k] == 2;
    var a, b, c := IndexOf(order, 0), IndexOf(order, 1), IndexOf(order, 2);
    assert order == [2, 0, 1];
  }
}

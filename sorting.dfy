/** The ordering that Go's `slices.Sort` establishes on a slice of durations,
    as a specification function (`SortSeq`) and as the in-place sort that the
    aggregators run on the filled prefix of their backing array. */
module Sorting {

  /** Non-decreasing order. */
  predicate Sorted(s: seq<int>) {
    forall i, j :: 0 <= i < j < |s| ==> s[i] <= s[j]
  }

  /** Inserts `x` into the sorted sequence `s`, before the first element not below it. */
  function Insert(s: seq<int>, x: int): (r: seq<int>)
    requires Sorted(s)
    ensures Sorted(r)
    ensures multiset(r) == multiset(s) + multiset{x}
    ensures |r| == |s| + 1
    ensures r[0] == if s == [] || x <= s[0] then x else s[0]
  {
    if s == [] then [x]
    else if x <= s[0] then [x] + s
    else
      var rest := Insert(s[1..], x);
      assert s == [s[0]] + s[1..];
      SortedCons(s[0], rest);
      [s[0]] + rest
  }

  /** A sorted sequence stays sorted with an element no greater than its head in front. */
  lemma SortedCons(x: int, s: seq<int>)
    requires Sorted(s) && (s == [] || x <= s[0])
    ensures Sorted([x] + s)
  {
  }

  /** The sorted permutation of `s`: what `slices.Sort` leaves in the slice. */
  function SortSeq(s: seq<int>): (r: seq<int>)
    ensures Sorted(r)
    ensures multiset(r) == multiset(s)
    ensures |r| == |s|
  {
    if s == [] then []
    else
      assert s == s[..|s| - 1] + [s[|s| - 1]];
      Insert(SortSeq(s[..|s| - 1]), s[|s| - 1])
  }

  /** A sorted sequence is determined by its multiset of elements: any two
      sorted permutations of the same values are equal. */
  lemma {:induction false} SortedUnique(a: seq<int>, b: seq<int>)
    requires Sorted(a) && Sorted(b)
    requires multiset(a) == multiset(b)
    ensures a == b
  {
    if a == [] {
      assert |multiset(b)| == 0;
    } else {
      assert |b| == |multiset(b)| == |multiset(a)| == |a|;
      SameFirst(a, b);
      DropFirst(a);
      DropFirst(b);
      SortedUnique(a[1..], b[1..]);
      assert a == [a[0]] + a[1..];
      assert b == [b[0]] + b[1..];
    }
  }

  /** Two sorted non-empty permutations start with the same, least, element. */
  lemma SameFirst(a: seq<int>, b: seq<int>)
    requires Sorted(a) && Sorted(b) && |a| > 0 && |b| > 0
    requires multiset(a) == multiset(b)
    ensures a[0] == b[0]
  {
    assert a[0] in multiset(b);
    assert b[0] in multiset(a);
    var i :| 0 <= i < |b| && b[i] == a[0];
    var j :| 0 <= j < |a| && a[j] == b[0];
  }

  lemma DropFirst(s: seq<int>)
    requires |s| > 0
    ensures multiset(s[1..]) == multiset(s) - multiset{s[0]}
  {
    assert s == [s[0]] + s[1..];
  }

  /** Sorting changes nothing in a sequence that is already sorted. */
  lemma SortSeqOfSorted(s: seq<int>)
    requires Sorted(s)
    ensures SortSeq(s) == s
  {
    SortedUnique(SortSeq(s), s);
  }

  /** Sorting depends only on the multiset of values, not on their arrival order. */
  lemma SortSeqOfPermutation(a: seq<int>, b: seq<int>)
    requires multiset(a) == multiset(b)
    ensures SortSeq(a) == SortSeq(b)
  {
    SortedUnique(SortSeq(a), SortSeq(b));
  }

  /** `slices.Sort` on the slice `a[..n]`: an insertion sort in place. The
      elements from `n` on (spare capacity of the backing array) are untouched. */
  method SortPrefix(a: array<int>, n: int)
    requires 0 <= n <= a.Length
    modifies a
    ensures a[..n] == SortSeq(old(a[..n]))
    ensures a[n..] == old(a[n..])
  {
    var i := 0;
    while i < n
      invariant 0 <= i <= n
      invariant SortedRun(a, i)
      invariant multiset(a[..]) == multiset(old(a[..]))
      invariant forall k :: n <= k < a.Length ==> a[k] == old(a[k])
    {
      InsertAt(a, i);
      i := i + 1;
    }
    assert a[n..] == old(a[n..]);
    assert a[..] == a[..n] + a[n..];
    assert old(a[..]) == old(a[..n]) + old(a[n..]);
    SamePrefixMultiset(a[..n], old(a[..n]), a[n..]);
    assert Sorted(a[..n]) by {
      forall k, l | 0 <= k < l < n
        ensures a[..n][k] <= a[..n][l]
      {
        assert a[..n][k] == a[k] && a[..n][l] == a[l];
      }
    }
    SortedUnique(a[..n], SortSeq(old(a[..n])));
  }

  /** Two sequences with the same tail and permuted wholes have permuted heads. */
  lemma SamePrefixMultiset(x: seq<int>, y: seq<int>, z: seq<int>)
    requires multiset(x + z) == multiset(y + z)
    ensures multiset(x) == multiset(y)
  {
    assert multiset(x + z) == multiset(x) + multiset(z);
    assert multiset(y + z) == multiset(y) + multiset(z);
    assert multiset(x) == multiset(x + z) - multiset(z);
    assert multiset(y) == multiset(y + z) - multiset(z);
  }

  /** The first `i` cells of `a` are in order. */
  ghost predicate SortedRun(a: array<int>, i: int)
    reads a
    requires 0 <= i <= a.Length
  {
    forall k, l :: 0 <= k < l < i ==> a[k] <= a[l]
  }

  /** One insertion step: sinks `a[i]` into the ordered run `a[..i]` by
      adjacent swaps. */
  method InsertAt(a: array<int>, i: int)
    requires 0 <= i < a.Length
    requires SortedRun(a, i)
    modifies a
    ensures SortedRun(a, i + 1)
    ensures multiset(a[..]) == multiset(old(a[..]))
    ensures forall k :: i < k < a.Length ==> a[k] == old(a[k])
  {
    var j := i;
    while j > 0 && a[j - 1] > a[j]
      invariant 0 <= j <= i
      invariant forall k, l :: 0 <= k < l <= i && k != j && l != j ==> a[k] <= a[l]
      invariant forall l :: j < l <= i ==> a[j] <= a[l]
      invariant multiset(a[..]) == multiset(old(a[..]))
      invariant forall k :: i < k < a.Length ==> a[k] == old(a[k])
    {
      SwapDown(a, j);
      j := j - 1;
    }
  }

  /** Exchanges `a[j - 1]` and `a[j]`. */
  method SwapDown(a: array<int>, j: int)
    requires 0 < j < a.Length
    modifies a
    ensures a[j - 1] == old(a[j]) && a[j] == old(a[j - 1])
    ensures forall k :: 0 <= k < a.Length && k != j - 1 && k != j ==> a[k] == old(a[k])
    ensures multiset(a[..]) == multiset(old(a[..]))
  {
    a[j - 1], a[j] := a[j], a[j - 1];
  }
}

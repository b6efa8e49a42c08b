/** The aggregation contract shared by both metrics strategies: the `Result`
    record, the statistics it is made of, and Go's 64-bit integer arithmetic
    where the aggregators depend on it. A `time.Duration` is an integer count
    of nanoseconds, so durations are plain `int`s here. */
module Metrics {
  import opened Sorting

  /** `time.Second`, in nanoseconds. */
  const Second := 1_000_000_000

  const MaxInt64 := 0x7fff_ffff_ffff_ffff
  const MinInt64 := -0x8000_0000_0000_0000

  predicate InInt64(x: int) {
    MinInt64 <= x <= MaxInt64
  }

  /** Two's-complement wrap-around of a Go `int` (64 bits) after `x` overflowed. */
  function Wrap64(x: int): (r: int)
    ensures InInt64(r)
    ensures (r - x) % 0x1_0000_0000_0000_0000 == 0
    ensures InInt64(x) ==> r == x
  {
    (x - MinInt64) % 0x1_0000_0000_0000_0000 + MinInt64
  }

  /** The aggregated metrics. The Go struct declares six fields; the exact
      aggregator also fills `SkippedQueries` and `FailedQueries`, so the record
      carries all eight. */
  datatype Result = Result(
    numberOfQueries: int,
    skippedQueries: int,
    failedQueries: int,
    totalProcessingTime: int,
    minResponse: int,
    medianResponse: int,
    averageResponse: int,
    maxResponse: int)

  /** Go's integer division, which truncates toward zero (Dafny's `/` is
      Euclidean and differs for a negative dividend). */
  function GoDiv(a: int, b: int): (q: int)
    requires b > 0
    ensures -b < a - q * b < b
    ensures a >= 0 ==> a - q * b >= 0
    ensures a <= 0 ==> a - q * b <= 0
  {
    if a >= 0 then a / b else -((-a) / b)
  }

  /** Total of a sequence of durations, accumulated front to back. */
  function Sum(s: seq<int>): (total: int) {
    if s == [] then 0 else Sum(s[..|s| - 1]) + s[|s| - 1]
  }

  lemma {:induction false} SumConcat(a: seq<int>, b: seq<int>)
    ensures Sum(a + b) == Sum(a) + Sum(b)
  {
    if b == [] {
      assert a + b == a;
    } else {
      assert (a + b)[..|a + b| - 1] == a + b[..|b| - 1];
      SumConcat(a, b[..|b| - 1]);
    }
  }

  lemma {:induction false} SumInsert(s: seq<int>, x: int)
    requires Sorted(s)
    ensures Sum(Insert(s, x)) == Sum(s) + x
  {
    if s == [] {
    } else if x <= s[0] {
      SumConcat([x], s);
    } else {
      SumInsert(s[1..], x);
      SumConcat([s[0]], Insert(s[1..], x));
      SumConcat([s[0]], s[1..]);
      assert s == [s[0]] + s[1..];
    }
  }

  /** The total does not depend on the order of the durations. */
  lemma {:induction false} SumSortSeq(s: seq<int>)
    ensures Sum(SortSeq(s)) == Sum(s)
  {
    if s != [] {
      SumSortSeq(s[..|s| - 1]);
      SumInsert(SortSeq(s[..|s| - 1]), s[|s| - 1]);
    }
  }

  /** The least duration of a non-empty sequence. */
  function SeqMin(s: seq<int>): (m: int)
    requires |s| > 0
    ensures m in s
    ensures forall x :: x in s ==> m <= x
  {
    if |s| == 1 then s[0]
    else
      var init, last := s[..|s| - 1], s[|s| - 1];
      assert s == init + [last];
      assert forall x :: x in s ==> x in init || x == last;
      var m := SeqMin(init);
      if last < m then last else m
  }

  /** The greatest duration of a non-empty sequence. */
  function SeqMax(s: seq<int>): (m: int)
    requires |s| > 0
    ensures m in s
    ensures forall x :: x in s ==> x <= m
  {
    if |s| == 1 then s[0]
    else
      var init, last := s[..|s| - 1], s[|s| - 1];
      assert s == init + [last];
      assert forall x :: x in s ==> x in init || x == last;
      var m := SeqMax(init);
      if last > m then last else m
  }

  /** Least and greatest depend only on which values occur, so they survive
      any reordering, in particular the sort that `Aggregate` runs first. */
  lemma MinMaxOfPermutation(a: seq<int>, b: seq<int>)
    requires |a| > 0
    requires multiset(a) == multiset(b)
    ensures |b| > 0 && SeqMin(a) == SeqMin(b) && SeqMax(a) == SeqMax(b)
  {
    assert |b| == |multiset(b)| == |multiset(a)| == |a|;
    assert forall x :: x in a <==> x in b by {
      forall x ensures x in a <==> x in b {
        assert x in a <==> x in multiset(a);
        assert x in b <==> x in multiset(b);
      }
    }
  }

  /** In a sorted sequence the least duration comes first and the greatest last. */
  lemma MinMaxOfSorted(s: seq<int>)
    requires |s| > 0 && Sorted(s)
    ensures SeqMin(s) == s[0] && SeqMax(s) == s[|s| - 1]
  {
    assert s[0] in s && s[|s| - 1] in s;
    var i :| 0 <= i < |s| && s[i] == SeqMin(s);
    var j :| 0 <= j < |s| && s[j] == SeqMax(s);
  }

  /** The median as both aggregators define it: the element at index
      `len / 2` of the sorted durations, the upper middle one for an even count. */
  function Median(s: seq<int>): (m: int)
    requires |s| > 0
    ensures m in s
  {
    var sorted := SortSeq(s);
    assert sorted[|s| / 2] in multiset(s);
    sorted[|s| / 2]
  }

  /** The median of durations that already arrive sorted is their middle element. */
  lemma MedianOfSorted(s: seq<int>)
    requires |s| > 0 && Sorted(s)
    ensures Median(s) == s[|s| / 2]
  {
    SortSeqOfSorted(s);
  }

  /** The `Result` that exact aggregation of the durations `s` must produce. */
  function Summary(s: seq<int>, skipped: int, failed: int): (r: Result)
    requires |s| > 0
    ensures r.numberOfQueries == |s|
    ensures r.skippedQueries == skipped && r.failedQueries == failed
    ensures r.minResponse in s && forall x :: x in s ==> r.minResponse <= x
    ensures r.maxResponse in s && forall x :: x in s ==> x <= r.maxResponse
    ensures r.medianResponse in s
    ensures r.minResponse <= r.medianResponse <= r.maxResponse
  {
    Result(
      numberOfQueries := |s|,
      skippedQueries := skipped,
      failedQueries := failed,
      totalProcessingTime := Sum(s),
      minResponse := SeqMin(s),
      medianResponse := Median(s),
      averageResponse := GoDiv(Sum(s), |s|),
      maxResponse := SeqMax(s))
  }
}

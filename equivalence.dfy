/** The cross-check between the two aggregation strategies, fed the same
    stream of durations: identical results while the stream fits in the
    sample, and identical statistics apart from the median beyond that. */
module MetricsEquivalence {
  import opened Metrics
  import Sorting
  import SimpleMetrics
  import ReservoirMetrics

  /** When the sample holds exactly the stream's durations (in any order),
      the reservoir reports what the exact aggregator reports, median included. */
  lemma AggregatesAgreeWhenSampleHoldsStream(stream: seq<int>, sample: seq<int>)
    requires |stream| > 0
    requires multiset(sample) == multiset(stream)
    ensures ReservoirMetrics.ReservoirSummary(stream, sample) == Summary(stream, 0, 0)
  {
    assert |sample| == |multiset(sample)| == |stream|;
    Sorting.SortSeqOfPermutation(sample, stream);
  }

  /** The durations are one, two, ... `|s|` seconds, in that order. */
  ghost predicate CountsSeconds(s: seq<int>) {
    forall k :: 0 <= k < |s| ==> s[k] == (k + 1) * Second
  }

  /** `0 + 1 + ... + n`. */
  function Triangle(n: nat): (t: nat) {
    if n == 0 then 0 else Triangle(n - 1) + n
  }

  lemma {:induction false} SumSeconds(s: seq<int>)
    requires CountsSeconds(s)
    ensures Sum(s) == Triangle(|s|) * Second
  {
    if s != [] {
      SumSeconds(s[..|s| - 1]);
    }
  }

  /** One to ten seconds aggregate to count 10, total 55s, least 1s,
      median 6s, average 5.5s and greatest 10s. */
  lemma TenSecondsSummary(s: seq<int>)
    requires |s| == 10 && CountsSeconds(s)
    ensures Summary(s, 0, 0)
         == Metrics.Result(10, 0, 0, 55 * Second, 1 * Second, 6 * Second, 5_500_000_000, 10 * Second)
  {
    assert Sorting.Sorted(s);
    MedianOfSorted(s);
    MinMaxOfSorted(s);
    SumSeconds(s);
    assert Triangle(10) == 55;
  }

  lemma TakeOneMore(s: seq<int>, i: int)
    requires 0 <= i < |s|
    ensures s[..i + 1] == s[..i] + [s[i]]
  {
  }

  /** Feeds the stream to a fresh `NewSimple()` and aggregates it. */
  method AggregateExact(stream: seq<int>) returns (exact: Metrics.Result)
    requires 1 <= |stream| <= SimpleMetrics.SimpleMaxCapacity
    ensures exact == Summary(stream, 0, 0)
  {
    var simple := SimpleMetrics.NewSimple();
    var i := 0;
    while i < |stream|
      invariant 0 <= i <= |stream|
      invariant simple.Valid() && simple.capacity == SimpleMetrics.SimpleMaxCapacity
      invariant simple.Responses() == stream[..i]
      invariant simple.skippedQueries == 0 && simple.failedQueries == 0
      invariant fresh(simple.responses)
    {
      var o := simple.AddResponse(stream[i]);
      TakeOneMore(stream, i);
      i := i + 1;
    }
    assert stream[..i] == stream;
    exact := simple.Aggregate();
  }

  /** Feeds the stream to a fresh reservoir of `sampleSize` and aggregates it:
      the result agrees with exact aggregation on every field but the median,
      and on the median too while the stream fits in the sample. */
  method AggregateSampled(stream: seq<int>, sampleSize: int, funcRandIntn: int -> int)
    returns (sampled: Metrics.Result)
    requires |stream| >= 1
    requires 1 <= sampleSize <= ReservoirMetrics.ReservoirMaxCapacity
    requires ReservoirMetrics.IsRandIntn(funcRandIntn)
    ensures |stream| <= sampleSize ==> sampled == Summary(stream, 0, 0)
    ensures var exact := Summary(stream, 0, 0);
      && sampled.numberOfQueries == exact.numberOfQueries
      && sampled.skippedQueries == exact.skippedQueries
      && sampled.failedQueries == exact.failedQueries
      && sampled.totalProcessingTime == exact.totalProcessingTime
      && sampled.minResponse == exact.minResponse
      && sampled.averageResponse == exact.averageResponse
      && sampled.maxResponse == exact.maxResponse
  {
    var made := ReservoirMetrics.NewReservoirWithSize(sampleSize, funcRandIntn);
    var reservoir := made.value;
    var i := 0;
    while i < |stream|
      invariant 0 <= i <= |stream|
      invariant reservoir.Valid() && reservoir.SampleOfStream()
      invariant reservoir.sampleSize == sampleSize && reservoir.Stream == stream[..i]
      invariant fresh(reservoir.responses)
    {
      reservoir.AddResponse(stream[i]);
      TakeOneMore(stream, i);
      i := i + 1;
    }
    assert stream[..i] == stream;
    ghost var sample := reservoir.Sample();
    sampled := reservoir.Aggregate();
    if |stream| <= sampleSize {
      AggregatesAgreeWhenSampleHoldsStream(stream, sample);
    }
  }

  /** The two strategies side by side on one stream. */
  method CompareOnStream(stream: seq<int>, sampleSize: int, funcRandIntn: int -> int)
    returns (exact: Metrics.Result, sampled: Metrics.Result)
    requires 1 <= |stream| <= SimpleMetrics.SimpleMaxCapacity
    requires 1 <= sampleSize <= ReservoirMetrics.ReservoirMaxCapacity
    requires ReservoirMetrics.IsRandIntn(funcRandIntn)
    ensures |stream| <= sampleSize ==> sampled == exact
    ensures sampled.numberOfQueries == exact.numberOfQueries
    ensures sampled.totalProcessingTime == exact.totalProcessingTime
    ensures sampled.minResponse == exact.minResponse
    ensures sampled.averageResponse == exact.averageResponse
    ensures sampled.maxResponse == exact.maxResponse
  {
    exact := AggregateExact(stream);
    sampled := AggregateSampled(stream, sampleSize, funcRandIntn);
  }
}

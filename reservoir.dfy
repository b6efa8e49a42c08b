/** The reservoir aggregator: exact running count, total, least and greatest
    duration over the whole stream, and a sample of at most `sampleSize`
    durations kept by single-pass reservoir sampling. The injected random
    source `funcRandIntn` is any function with `0 <= funcRandIntn(n) < n`;
    since it is only ever asked for strictly increasing `n`, a fixed function
    covers every sequence of draws. Its uniformity is not modelled. */
module ReservoirMetrics {
  import opened Wrappers
  import opened Metrics
  import Sorting

  /** Largest sample size `NewReservoirWithSize` accepts. */
  const ReservoirMaxCapacity := 20_000
  /** Sample size of `NewReservoir`. */
  const ReservoirDefaultSampleSize := 10_000

  datatype ReservoirError =
    | SampleSizeTooSmall            // "sampleSize must be greater than 0"
    | SampleSizeTooLarge(max: int)  // "sampleSize must be less than %d"

  /** What `funcRandIntn` must promise: a draw in `[0, n)` for every `n >= 1`. */
  ghost predicate IsRandIntn(f: int -> int) {
    forall n :: n >= 1 ==> 0 <= f(n) < n
  }

  function MinInt(a: int, b: int): (m: int) {
    if a <= b then a else b
  }

  /** The `Result` that `Aggregate` derives from the whole stream and the sample:
      every field but the median comes from the stream, the median from the
      sorted sample. The reservoir leaves both counters at zero. */
  function ReservoirSummary(stream: seq<int>, sample: seq<int>): (r: Metrics.Result)
    requires |stream| > 0
    requires multiset(sample) <= multiset(stream)
    ensures r.numberOfQueries == |stream|
    ensures r.skippedQueries == 0 && r.failedQueries == 0
    ensures r.minResponse in stream && forall x :: x in stream ==> r.minResponse <= x
    ensures r.maxResponse in stream && forall x :: x in stream ==> x <= r.maxResponse
    ensures r.medianResponse in stream || (sample == [] && r.medianResponse == 0)
  {
    Metrics.Result(
      numberOfQueries := |stream|,
      skippedQueries := 0,
      failedQueries := 0,
      totalProcessingTime := Sum(stream),
      minResponse := SeqMin(stream),
      medianResponse := if |sample| > 0 then SampleMedian(stream, sample) else 0,
      averageResponse := GoDiv(Sum(stream), |stream|),
      maxResponse := SeqMax(stream))
  }

  /** The median of a non-empty sample, which is always one of the stream's durations. */
  function SampleMedian(stream: seq<int>, sample: seq<int>): (m: int)
    requires |sample| > 0
    requires multiset(sample) <= multiset(stream)
    ensures m in sample && m in stream
  {
    var m := Median(sample);
    assert m in multiset(sample);
    m
  }

  class Reservoir {
    /** Backing array of the `responses` slice; its length is the sample size. */
    var responses: array<int>
    /** Length of the `responses` slice. */
    var len: nat
    var numberOfQueries: int
    var totalProcessingTime: int
    var minResponse: int
    var maxResponse: int
    var sampleSize: int
    var funcRandIntn: int -> int

    /** Every duration added so far, in arrival order. */
    ghost var Stream: seq<int>

    ghost predicate Valid()
      reads this
    {
      && 1 <= sampleSize <= ReservoirMaxCapacity
      && responses.Length == sampleSize
      && IsRandIntn(funcRandIntn)
      && numberOfQueries == |Stream|
      && totalProcessingTime == Sum(Stream)
      && (|Stream| > 0 ==> minResponse == SeqMin(Stream) && maxResponse == SeqMax(Stream))
      && len == MinInt(|Stream|, sampleSize)
    }

    /** The durations currently in the sample. */
    ghost function Sample(): (sample: seq<int>)
      reads this, responses
      requires Valid()
    {
      responses[..len]
    }

    /** The sample is drawn from the stream, and holds all of it until full. */
    ghost predicate SampleOfStream()
      reads this, responses
      requires Valid()
    {
      && multiset(Sample()) <= multiset(Stream)
      && (|Stream| <= sampleSize ==> multiset(Sample()) == multiset(Stream))
    }

    constructor (sampleSize: int, funcRandIntn: int -> int)
      requires 1 <= sampleSize <= ReservoirMaxCapacity
      requires IsRandIntn(funcRandIntn)
      ensures Valid() && SampleOfStream() && fresh(responses)
      ensures this.sampleSize == sampleSize && this.funcRandIntn == funcRandIntn
      ensures Stream == [] && Sample() == []
    {
      responses := new int[sampleSize];
      len := 0;
      numberOfQueries := 0;
      totalProcessingTime := 0;
      minResponse := 0;
      maxResponse := 0;
      this.sampleSize := sampleSize;
      this.funcRandIntn := funcRandIntn;
      Stream := [];
    }

    /** Counts the duration in the exact statistics and offers it to the
        sample. Never fails, however long the stream. */
    method AddResponse(duration: int)
      requires Valid() && SampleOfStream()
      modifies `Stream, `numberOfQueries, `totalProcessingTime, `minResponse, `maxResponse, `len, responses
      ensures Valid() && SampleOfStream()
      ensures Stream == old(Stream) + [duration]
      ensures old(len) < sampleSize ==> Sample() == old(Sample()) + [duration]
      ensures old(len) == sampleSize ==>
        var j := funcRandIntn(|Stream|);
        Sample() == if j < sampleSize then old(Sample())[j := duration] else old(Sample())
    {
      ghost var stream0 := Stream;
      Count(duration);
      Offer(duration, stream0);
    }

    /** The exact half of `AddResponse`: one more query, its duration added to
        the total, and the running minimum and maximum, which the first
        response sets outright. */
    method Count(duration: int)
      requires Valid()
      modifies `Stream, `numberOfQueries, `totalProcessingTime, `minResponse, `maxResponse
      ensures Stream == old(Stream) + [duration]
      ensures numberOfQueries == |Stream| && totalProcessingTime == Sum(Stream)
      ensures minResponse == SeqMin(Stream) && maxResponse == SeqMax(Stream)
    {
      RunningStats(Stream, duration);
      Stream := Stream + [duration];
      numberOfQueries := numberOfQueries + 1;
      totalProcessingTime := totalProcessingTime + duration;

      if duration < minResponse || numberOfQueries == 1 {
        minResponse := duration;
      }
      if duration > maxResponse || numberOfQueries == 1 {
        maxResponse := duration;
      }
    }

    /** The sampling half of `AddResponse`, run once the counters already
        include `duration`: append while the sample is not full, otherwise
        draw `j` in `[0, numberOfQueries)` and overwrite slot `j` if it is a slot. */
    method Offer(duration: int, ghost before: seq<int>)
      requires 1 <= sampleSize <= ReservoirMaxCapacity && responses.Length == sampleSize
      requires IsRandIntn(funcRandIntn)
      requires Stream == before + [duration] && numberOfQueries == |Stream|
      requires len == MinInt(|before|, sampleSize)
      requires multiset(responses[..len]) <= multiset(before)
      requires |before| <= sampleSize ==> multiset(responses[..len]) == multiset(before)
      modifies `len, responses
      ensures len == MinInt(|Stream|, sampleSize)
      ensures multiset(responses[..len]) <= multiset(Stream)
      ensures |Stream| <= sampleSize ==> multiset(responses[..len]) == multiset(Stream)
      ensures old(len) < sampleSize ==> responses[..len] == old(responses[..len]) + [duration]
      ensures old(len) == sampleSize ==>
        var j := funcRandIntn(numberOfQueries);
        responses[..len] == if j < sampleSize then old(responses[..len])[j := duration] else old(responses[..len])
    {
      ghost var sample0 := responses[..len];
      if len < sampleSize {
        responses[len] := duration;
        len := len + 1;
        assert responses[..len] == sample0 + [duration];
      } else {
        // This is the reservoir step proper.
        var j := funcRandIntn(numberOfQueries);
        if j < sampleSize {
          responses[j] := duration;
          assert responses[..len] == sample0[j := duration];
          ReplaceStaysInStream(sample0, before, j, duration);
        }
      }
    }

    /** Sorts the sample in place and reports the exact statistics with the
        sample's median. `numberOfQueries` is a divisor, so it must be positive. */
    method Aggregate() returns (r: Metrics.Result)
      requires Valid() && SampleOfStream() && numberOfQueries >= 1
      modifies responses
      ensures Valid() && SampleOfStream()
      ensures Sample() == Sorting.SortSeq(old(Sample()))
      ensures r == ReservoirSummary(Stream, old(Sample()))
    {
      ghost var sample0 := Sample();
      Sorting.SortPrefix(responses, len);
      assert Sample() == Sorting.SortSeq(sample0);
      var averageResponse := GoDiv(totalProcessingTime, numberOfQueries);

      var medianResponse := 0;
      if len > 0 {
        var medianIndex := len / 2;
        medianResponse := responses[medianIndex];
      }

      r := Metrics.Result(
        numberOfQueries := numberOfQueries,
        skippedQueries := 0,
        failedQueries := 0,
        totalProcessingTime := totalProcessingTime,
        minResponse := minResponse,
        medianResponse := medianResponse,
        averageResponse := averageResponse,
        maxResponse := maxResponse);
    }
  }

  /** Appending `d` to the stream moves the total by `d` and the least and
      greatest durations by at most that one comparison. */
  lemma RunningStats(stream: seq<int>, d: int)
    ensures Sum(stream + [d]) == Sum(stream) + d
    ensures SeqMin(stream + [d]) == if stream == [] || d < SeqMin(stream) then d else SeqMin(stream)
    ensures SeqMax(stream + [d]) == if stream == [] || d > SeqMax(stream) then d else SeqMax(stream)
  {
    assert (stream + [d])[..|stream + [d]| - 1] == stream;
  }

  /** Overwriting one slot of a sample drawn from `stream` with a new
      duration leaves a sample drawn from `stream + [d]`. */
  lemma ReplaceStaysInStream(sample: seq<int>, stream: seq<int>, j: int, d: int)
    requires 0 <= j < |sample|
    requires multiset(sample) <= multiset(stream)
    ensures multiset(sample[j := d]) <= multiset(stream + [d])
  {
    assert multiset(sample[j := d]) == multiset(sample) - multiset{sample[j]} + multiset{d};
  }

  /** `NewReservoir`: an empty aggregator with the default sample size. */
  method NewReservoir(funcRandIntn: int -> int) returns (r: Reservoir)
    requires IsRandIntn(funcRandIntn)
    ensures fresh(r) && fresh(r.responses) && r.Valid() && r.SampleOfStream()
    ensures r.sampleSize == ReservoirDefaultSampleSize && r.Stream == []
    ensures r.funcRandIntn == funcRandIntn
  {
    r := new Reservoir(ReservoirDefaultSampleSize, funcRandIntn);
  }

  /** `NewReservoirWithSize`: refuses a sample size outside `[1, ReservoirMaxCapacity]`. */
  method NewReservoirWithSize(sampleSize: int, funcRandIntn: int -> int)
    returns (r: Wrappers.Result<Reservoir, ReservoirError>)
    requires IsRandIntn(funcRandIntn)
    ensures sampleSize < 1 ==> r == Failure(SampleSizeTooSmall)
    ensures sampleSize > ReservoirMaxCapacity ==> r == Failure(SampleSizeTooLarge(ReservoirMaxCapacity))
    ensures 1 <= sampleSize <= ReservoirMaxCapacity ==> r.Success?
    ensures r.Success? ==>
      && fresh(r.value) && fresh(r.value.responses) && r.value.Valid() && r.value.SampleOfStream()
      && r.value.sampleSize == sampleSize && r.value.Stream == []
      && r.value.funcRandIntn == funcRandIntn
  {
    if sampleSize < 1 {
      return Failure(SampleSizeTooSmall);
    }
    if sampleSize > ReservoirMaxCapacity {
      return Failure(SampleSizeTooLarge(ReservoirMaxCapacity));
    }
    var res := new Reservoir(sampleSize, funcRandIntn);
    r := Success(res);
  }
}

/** The exact metrics aggregator: every response duration is kept, up to a
    fixed capacity, and aggregation sorts them all. Overflowing the capacity
    or a counter is a panic in the source; here it is a `Fail` outcome that
    leaves the state untouched. */
module SimpleMetrics {
  import opened Wrappers
  import opened Metrics
  import Sorting

  /** Largest number of responses a `Simple` may hold. */
  const SimpleMaxCapacity := 20_000

  datatype SimpleError =
    | CapacityTooSmall            // "capacity must be greater than 0"
    | CapacityTooLarge(max: int)  // "capacity must be less than %d"
    | CapacityReached(capacity: int)
    | SkippedOverflow
    | FailedOverflow

  /** One step of a guarded 64-bit counter: it panics (`None`) when `guard`
      is already `MaxInt64`, and otherwise `counter + 1` with Go's wrap-around. */
  function Increment(guard: int, counter: int): (r: Option<int>)
    ensures r.None? <==> guard == MaxInt64
    ensures r.Some? ==> InInt64(r.value)
  {
    if guard == MaxInt64 then None else Some(Wrap64(counter + 1))
  }

  /** Guarding a counter by its own value, as `AddSkipped` does, never lets
      it wrap: it either grows by exactly one or refuses at `MaxInt64`. */
  lemma IncrementNeverWraps(c: int)
    requires InInt64(c)
    ensures Increment(c, c) == if c == MaxInt64 then None else Some(c + 1)
  {
  }

  /** `AddFailed` guards `failedQueries` by `skippedQueries`: with nothing
      skipped, a failed counter at `MaxInt64` silently wraps to `MinInt64`
      instead of panicking. */
  lemma FailedGuardWraps()
    ensures Increment(0, MaxInt64) == Some(MinInt64)
  {
  }

  class Simple {
    /** Backing array of the `responses` slice; its length is the capacity. */
    var responses: array<int>
    /** Length of the `responses` slice. */
    var len: nat
    var skippedQueries: int
    var failedQueries: int
    var capacity: int

    ghost predicate Valid()
      reads this
    {
      && 1 <= capacity <= SimpleMaxCapacity
      && responses.Length == capacity
      && len <= capacity
      && 0 <= skippedQueries <= MaxInt64
      && InInt64(failedQueries)
    }

    /** The durations currently in the slice. */
    ghost function Responses(): (buffered: seq<int>)
      reads this, responses
      requires Valid()
    {
      responses[..len]
    }

    constructor (capacity: int)
      requires 1 <= capacity <= SimpleMaxCapacity
      ensures Valid() && fresh(responses)
      ensures this.capacity == capacity
      ensures Responses() == []
      ensures skippedQueries == 0 && failedQueries == 0
    {
      responses := new int[capacity];
      len := 0;
      skippedQueries := 0;
      failedQueries := 0;
      this.capacity := capacity;
    }

    /** Appends one duration; at capacity it fails loudly and drops nothing. */
    method AddResponse(duration: int) returns (o: Outcome<SimpleError>)
      requires Valid()
      modifies `len, responses
      ensures Valid()
      ensures o == if old(len) == capacity then Fail(CapacityReached(capacity)) else Pass
      ensures Responses() == if o.Pass? then old(Responses()) + [duration] else old(Responses())
    {
      if capacity == len {
        return Fail(CapacityReached(capacity));
      }
      responses[len] := duration;
      len := len + 1;
      o := Pass;
    }

    method AddSkipped() returns (o: Outcome<SimpleError>)
      requires Valid()
      modifies `skippedQueries
      ensures Valid()
      ensures o == if old(skippedQueries) == MaxInt64 then Fail(SkippedOverflow) else Pass
      ensures skippedQueries == if o.Pass? then old(skippedQueries) + 1 else old(skippedQueries)
    {
      match Increment(skippedQueries, skippedQueries)
      case None => o := Fail(SkippedOverflow);
      case Some(n) =>
        IncrementNeverWraps(skippedQueries);
        skippedQueries := n;
        o := Pass;
    }

    /** As written: the overflow guard tests `skippedQueries`, so the failed
        counter itself wraps around when it passes `MaxInt64`. */
    method AddFailed() returns (o: Outcome<SimpleError>)
      requires Valid()
      modifies `failedQueries
      ensures Valid()
      ensures o == if skippedQueries == MaxInt64 then Fail(FailedOverflow) else Pass
      ensures failedQueries == if o.Pass? then Wrap64(old(failedQueries) + 1) else old(failedQueries)
    {
      match Increment(skippedQueries, failedQueries)
      case None => o := Fail(FailedOverflow);
      case Some(n) =>
        failedQueries := n;
        o := Pass;
    }

    /** Corrected: the guard tests `failedQueries` itself, so the counter
        grows by exactly one or refuses at `MaxInt64`, like `AddSkipped`. */
    method AddFailedGuarded() returns (o: Outcome<SimpleError>)
      requires Valid()
      modifies `failedQueries
      ensures Valid()
      ensures o == if old(failedQueries) == MaxInt64 then Fail(FailedOverflow) else Pass
      ensures failedQueries == if o.Pass? then old(failedQueries) + 1 else old(failedQueries)
    {
      match Increment(failedQueries, failedQueries)
      case None => o := Fail(FailedOverflow);
      case Some(n) =>
        IncrementNeverWraps(failedQueries);
        failedQueries := n;
        o := Pass;
    }

    /** Sorts the slice in place, then scans it for the least and greatest
        durations and the total. Indexing `[0]` panics on an empty slice. */
    method Aggregate() returns (r: Metrics.Result)
      requires Valid() && len >= 1
      modifies responses
      ensures Valid()
      ensures Responses() == Sorting.SortSeq(old(Responses()))
      ensures r == Summary(old(Responses()), skippedQueries, failedQueries)
    {
      ghost var added := Responses();
      Sorting.SortPrefix(responses, len);
      var numberOfQueries := len;
      var minResponse, maxResponse, totalProcessingTime := Scan(responses, len);
      var averageResponse := GoDiv(totalProcessingTime, numberOfQueries);
      var medianResponse := responses[numberOfQueries / 2];

      assert responses[..len] == Responses();
      SumSortSeq(added);
      MinMaxOfPermutation(added, Responses());
      r := Metrics.Result(
        numberOfQueries := numberOfQueries,
        skippedQueries := skippedQueries,
        failedQueries := failedQueries,
        totalProcessingTime := totalProcessingTime,
        minResponse := minResponse,
        medianResponse := medianResponse,
        averageResponse := averageResponse,
        maxResponse := maxResponse);
    }
  }

  /** The scan `Aggregate` runs over the sorted slice `a[..n]`: starting from
      `a[0]`, it keeps the least and greatest element seen and the running total. */
  method Scan(a: array<int>, n: int) returns (minResponse: int, maxResponse: int, total: int)
    requires 1 <= n <= a.Length
    ensures minResponse == SeqMin(a[..n]) && maxResponse == SeqMax(a[..n])
    ensures total == Sum(a[..n])
  {
    minResponse := a[0];
    maxResponse := a[0];
    total := 0;
    var i := 0;
    while i < n
      invariant 0 <= i <= n
      invariant minResponse in a[..n] && maxResponse in a[..n]
      invariant forall k :: 0 <= k < i ==> minResponse <= a[k] <= maxResponse
      invariant total == Sum(a[..i])
    {
      var response := a[i];
      if response < minResponse {
        minResponse := response;
      }
      if response > maxResponse {
        maxResponse := response;
      }
      assert a[..i + 1] == a[..i] + [response];
      total := total + response;
      i := i + 1;
    }
    assert a[..n] == a[..i];
    var m, M := SeqMin(a[..n]), SeqMax(a[..n]);
    assert minResponse <= m && m <= minResponse;
    assert maxResponse >= M && M >= maxResponse;
  }

  /** `NewSimple`: an empty aggregator with the largest capacity. */
  method NewSimple() returns (s: Simple)
    ensures fresh(s) && fresh(s.responses) && s.Valid()
    ensures s.capacity == SimpleMaxCapacity && s.Responses() == []
    ensures s.skippedQueries == 0 && s.failedQueries == 0
  {
    s := new Simple(SimpleMaxCapacity);
  }

  /** `NewSimpleWithCapacity`: refuses a capacity outside `[1, SimpleMaxCapacity]`. */
  method NewSimpleWithCapacity(capacity: int) returns (r: Wrappers.Result<Simple, SimpleError>)
    ensures capacity < 1 ==> r == Failure(CapacityTooSmall)
    ensures capacity > SimpleMaxCapacity ==> r == Failure(CapacityTooLarge(SimpleMaxCapacity))
    ensures 1 <= capacity <= SimpleMaxCapacity ==> r.Success?
    ensures r.Success? ==>
      && fresh(r.value) && fresh(r.value.responses) && r.value.Valid()
      && r.value.capacity == capacity && r.value.Responses() == []
      && r.value.skippedQueries == 0 && r.value.failedQueries == 0
  {
    if capacity < 1 {
      return Failure(CapacityTooSmall);
    }
    if capacity > SimpleMaxCapacity {
      return Failure(CapacityTooLarge(SimpleMaxCapacity));
    }
    var s := new Simple(capacity);
    r := Success(s);
  }
}

/** The retry policy of the TimescaleDB client: which driver errors count as
    transient, and how `Query` retries them. The connection pool is outside
    the model; each attempt's answer is given to `Query` as data. */
module Client {
  import opened Wrappers

  /** Number of attempts `Query` makes at most. */
  const MaxRetries := 3

  /** Substrings that mark a driver error as transient, in the order they are tried. */
  const RetriableErrors: seq<string> := [
    "conn busy",
    "connection reset",
    "connection refused",
    "timeout",
    "temporary failure",
    "server closed the connection",
    "broken pipe"
  ]

  /** `pattern` appears in `text` starting at position `i`. */
  predicate OccursAt(text: string, pattern: string, i: int) {
    0 <= i && i + |pattern| <= |text| && text[i..i + |pattern|] == pattern
  }

  /** `strings.Contains`, searching from position `i` on. */
  function ContainsFrom(text: string, pattern: string, i: nat): (b: bool)
    decreases |text| - i
    ensures b <==> exists j :: i <= j && OccursAt(text, pattern, j)
  {
    if i + |pattern| > |text| then false
    else OccursAt(text, pattern, i) || ContainsFrom(text, pattern, i + 1)
  }

  /** `strings.Contains(text, pattern)`. */
  function Contains(text: string, pattern: string): (b: bool)
    ensures b <==> exists j :: OccursAt(text, pattern, j)
  {
    ContainsFrom(text, pattern, 0)
  }

  /** The transient errors: a non-nil error whose message contains one of the
      listed substrings. */
  ghost predicate Retriable(err: Option<string>) {
    err.Some? && exists k :: 0 <= k < |RetriableErrors| && Contains(err.value, RetriableErrors[k])
  }

  /** `isRetriableError`: nil is not retriable; otherwise the listed
      substrings are tried in order and the first match answers. */
  method IsRetriableError(err: Option<string>) returns (b: bool)
    ensures b <==> Retriable(err)
  {
    if err.None? {
      return false;
    }
    var errStr := err.value;
    var k := 0;
    while k < |RetriableErrors|
      invariant 0 <= k <= |RetriableErrors|
      invariant forall m :: 0 <= m < k ==> !Contains(errStr, RetriableErrors[m])
    {
      if Contains(errStr, RetriableErrors[k]) {
        return true;
      }
      k := k + 1;
    }
    return false;
  }

  /** An error message that carries one of the listed substrings anywhere in
      it is retriable, whatever surrounds it. */
  lemma RetriableWherever(prefix: string, k: int, suffix: string)
    requires 0 <= k < |RetriableErrors|
    ensures Retriable(Some(prefix + RetriableErrors[k] + suffix))
  {
    var text, p := prefix + RetriableErrors[k] + suffix, RetriableErrors[k];
    assert text[|prefix|..|prefix| + |p|] == p;
    assert OccursAt(text, p, |prefix|);
  }

  /** No listed substring is shorter than seven characters, so a shorter
      message is never retriable. */
  lemma ShortMessagesNotRetriable(msg: string)
    requires |msg| < 7
    ensures !Retriable(Some(msg))
  {
    forall k, j | 0 <= k < |RetriableErrors|
      ensures !OccursAt(msg, RetriableErrors[k], j)
    {
      assert |RetriableErrors[k]| >= 7;
    }
  }

  /** What the pool answers to one attempt: rows that stream without error,
      rows whose `Err()` is set, or an error from `pool.Query` itself. */
  datatype Attempt = Rows | RowsErr(msg: string) | QueryErr(msg: string)

  /** A successful query and the time since `Query` was entered. */
  datatype Response = Response(duration: int)

  /** The outcome of an attempt that `Query` does not retry. */
  function Settle(a: Attempt, elapsed: int): (r: Result<Response, string>)
    ensures r.Success? <==> a.Rows?
    ensures r.Success? ==> r.value.duration == elapsed
    ensures r.Failure? ==> r.error == a.msg
  {
    match a
    case Rows => Success(Response(elapsed))
    case RowsErr(msg) => Failure(msg)
    case QueryErr(msg) => Failure(msg)
  }

  /** The result of `Query` and the number of attempts made, counting from
      attempt `i`: a retriable error from `pool.Query` is retried unless it
      was the last allowed attempt. */
  ghost function QueryFrom(attempts: seq<Attempt>, i: nat, elapsed: int): (Result<Response, string>, nat)
    requires i < |attempts|
    decreases |attempts| - i
  {
    if attempts[i].QueryErr? && Retriable(Some(attempts[i].msg)) && i < |attempts| - 1
    then QueryFrom(attempts, i + 1, elapsed)
    else (Settle(attempts[i], elapsed), i + 1)
  }

  /** Every attempt before the last one made was a retriable error from
      `pool.Query`; the last one made was final: rows, a rows error, a
      non-retriable error, or the last allowed attempt. Its answer decides
      the result. */
  lemma {:induction false} QueryStopsAtFirstFinalAttempt(attempts: seq<Attempt>, i: nat, elapsed: int)
    requires i < |attempts|
    decreases |attempts| - i
    ensures var (r, calls) := QueryFrom(attempts, i, elapsed);
      && i < calls <= |attempts|
      && (forall k :: i <= k < calls - 1 ==> attempts[k].QueryErr? && Retriable(Some(attempts[k].msg)))
      && (calls < |attempts| ==> !(attempts[calls - 1].QueryErr? && Retriable(Some(attempts[calls - 1].msg))))
      && r == Settle(attempts[calls - 1], elapsed)
  {
    if attempts[i].QueryErr? && Retriable(Some(attempts[i].msg)) && i < |attempts| - 1 {
      QueryStopsAtFirstFinalAttempt(attempts, i + 1, elapsed);
    }
  }

  /** A non-retriable error on the first attempt is returned at once. */
  lemma NonRetriableFailsFast(attempts: seq<Attempt>, elapsed: int)
    requires |attempts| == MaxRetries
    requires attempts[0].QueryErr? && !Retriable(Some(attempts[0].msg))
    ensures QueryFrom(attempts, 0, elapsed) == (Failure(attempts[0].msg), 1)
  {
  }

  /** Rows that report an error end the query with that error, without a
      retry, even when the message looks transient. */
  lemma RowsErrorNotRetried(attempts: seq<Attempt>, i: nat, elapsed: int)
    requires i < |attempts|
    requires forall k :: 0 <= k < i ==> attempts[k].QueryErr? && Retriable(Some(attempts[k].msg))
    requires attempts[i].RowsErr?
    ensures QueryFrom(attempts, 0, elapsed) == (Failure(attempts[i].msg), i + 1)
  {
    QueryStopsAtFirstFinalAttempt(attempts, 0, elapsed);
  }

  /** Three retriable errors in a row: the third error is returned, after
      exactly three attempts. */
  lemma RetriesExhausted(attempts: seq<Attempt>, elapsed: int)
    requires |attempts| == MaxRetries
    requires forall k :: 0 <= k < MaxRetries ==> attempts[k].QueryErr? && Retriable(Some(attempts[k].msg))
    ensures QueryFrom(attempts, 0, elapsed) == (Failure(attempts[2].msg), 3)
  {
    QueryStopsAtFirstFinalAttempt(attempts, 0, elapsed);
  }

  /** `Query`: up to three attempts; a retriable `pool.Query` error is retried
      unless it was the last attempt, any other error is returned as it is, and
      a clean set of rows yields a response. `attempts[k]` is what the pool
      would answer to attempt `k`; `elapsed` is the time since entry at the
      moment the rows are closed. */
  method Query(attempts: seq<Attempt>, elapsed: int) returns (r: Result<Response, string>, calls: nat)
    requires |attempts| == MaxRetries
    ensures (r, calls) == QueryFrom(attempts, 0, elapsed)
  {
    var attempt := 0;
    while attempt < MaxRetries
      invariant 0 <= attempt < MaxRetries
      invariant QueryFrom(attempts, attempt, elapsed) == QueryFrom(attempts, 0, elapsed)
      decreases MaxRetries - attempt
    {
      match attempts[attempt]
      case QueryErr(msg) =>
        var lastErr := Some(msg);
        var retriable := IsRetriableError(lastErr);
        if retriable && attempt < MaxRetries - 1 {
          attempt := attempt + 1;
          continue;
        }
        return Failure(msg), attempt + 1;
      case RowsErr(msg) =>
        return Failure(msg), attempt + 1;
      case Rows =>
        return Success(Response(elapsed)), attempt + 1;
    }
    // Every pass through the loop returns or retries an attempt before the
    // last, so the return after the loop cannot be reached.
    assert false;
  }
}

# go-sql benchmark core, modelled in Dafny

go-sql is a benchmark tool for TimescaleDB. It reads query parameters from a CSV file and routes each query to a worker lane chosen by hostname. Its database client retries transient errors a bounded number of times; the pool's workers do not call the client yet, they only time a simulated query. The measured durations are aggregated into count, total, minimum, median, average and maximum. This project models the sequential core of that tool and proves properties about it:

- **Exact aggregator** (`SimpleMetrics`):
  - a bounded buffer of durations that fails when full;
  - counters for skipped and failed queries;
  - an `Aggregate` that sorts the buffer in place, then scans it.
- **Reservoir aggregator** (`ReservoirMetrics`):
  - exact running count, total, minimum and maximum;
  - a sample of at most `sampleSize` durations kept by reservoir sampling, with an injected `funcRandIntn`.
- **Cross-check** (`MetricsEquivalence`):
  - Both aggregators are fed the same stream.
  - They agree completely when the stream fits in the sample.
  - They agree on every field except the median otherwise.
- **Worker pool router** (`Workerpool`):
  - `New` validates the worker count.
  - `RunWorkers` walks the round-robin cursor.
  - `RunQuery` routes by hostname: a known hostname keeps its lane, and a new one takes the lane at the cursor.
- **Client retry policy** (`Client`):
  - `isRetriableError` searches the error message for a fixed list of substrings.
  - `Query` makes at most three attempts.
- **CSV query reader** (`QueryCsv`):
  - `NewQueryReader` checks the header.
  - `Next` classifies each row as end of input, skip-and-continue, fatal error, or a query. It also keeps the line counter that error messages report.

Shared definitions:

- `Sorting` holds the specification of `slices.Sort` (`SortSeq`, a sorted permutation, proved unique) and the in-place sort `SortPrefix` proved against it.
- `Metrics` holds the `Result` record and the reference definitions every aggregator is proved against (`Sum`, `SeqMin`, `SeqMax`, `Median`, `Summary`), plus Go's truncating division `GoDiv` and 64-bit wrap-around `Wrap64`.

Modelling choices:

- **Durations** are integers (nanoseconds), as Go's `time.Duration` is.
- **Go panics**:
  - A panic the program raises on purpose (buffer full, counter overflow) becomes a returned `Outcome.Fail`, and the state is left unchanged.
  - A crash from indexing or dividing on an empty buffer becomes a precondition.
- **Go slices** with a capacity become an `array<int>` of that capacity plus a length field.
- **The random source** `funcRandIntn` is any function with `0 <= f(n) < n`. It is only ever asked for strictly increasing `n`, so a fixed function covers every sequence of draws.
- **Worker lanes** are the indices `0..numWorkers-1`. The pool's query channels are pairwise distinct, so an index identifies its channel.
- **External answers** are inputs:
  - For the client, what the connection pool answers to each attempt.
  - For the reader, what `csv.Reader.Read` answers to each call.
  - `time.Parse` becomes a partial function from text to seconds.

Where the code and its descriptions disagree, the model follows the code:

- The exact aggregator's capacity is 20 000 (`internal/metrics/simple.go:13`).
- The minimum and maximum are computed by the scan in `Aggregate` (`internal/metrics/simple.go:83-91`), not tracked as responses arrive.
- The routing example in the comment at `internal/workerpool/workerpool.go:32-40` shows `host3` on channel 2 and `host2` on channel 1. The code binds lanes in order of first arrival, so `host3` gets lane 1 and `host2` gets lane 2. So `host2` and `host3` swap lanes; `host1`, `host4` and `host5` agree with the comment. `Workerpool.EightQueriesOnFourLanes` proves the lanes the code gives.
- `Result` in `internal/metrics/metrics.go:12-19` declares six fields. `internal/metrics/simple.go:97-98` also sets `SkippedQueries` and `FailedQueries`. The model's `Metrics.Result` has all eight fields, and the reservoir leaves the two counters at zero.

## Model

| member | source | states |
|---|---|---|
| Sorting.SortSeq | internal/metrics/simple.go:76 | the result of `slices.Sort` is sorted, a permutation of the input, and the same length |
| Sorting.SortedUnique | internal/metrics/simple.go:76 | two sorted sequences with the same multiset are equal, so the sorted order is unique |
| Sorting.SortSeqOfPermutation | internal/metrics/reservoir.go:80 | sorting depends only on the multiset of the input |
| Sorting.SortPrefix | internal/metrics/simple.go:76 | sorting in place leaves the slice equal to `SortSeq` of its old contents, and cells past the slice are untouched |
| Sorting.InsertAt | internal/metrics/simple.go:76 | one insertion step extends the ordered run by one cell, permutes the array and leaves later cells untouched |
| Metrics.Wrap64 | internal/metrics/simple.go:71 | the result is an `int64`, congruent to the input modulo 2^64, and equal to it when it already fits |
| Metrics.GoDiv | internal/metrics/simple.go:92 | Go division of a duration by a positive count: the remainder is smaller than the divisor and has the sign of the dividend (truncation toward zero) |
| Metrics.SeqMin | internal/metrics/simple.go:78-91 | the least duration is one of the durations and no duration is below it |
| Metrics.SeqMax | internal/metrics/simple.go:78-91 | the greatest duration is one of the durations and no duration is above it |
| Metrics.SumConcat | internal/metrics/simple.go:90 | the total of two runs is the sum of their totals |
| Metrics.SumSortSeq | internal/metrics/simple.go:76-90 | sorting does not change the total |
| Metrics.MinMaxOfPermutation | internal/metrics/simple.go:76-91 | sorting does not change the least or greatest duration |
| Metrics.MinMaxOfSorted | internal/metrics/simple.go:79-80 | in a sorted buffer the first element is the minimum and the last is the maximum |
| Metrics.Median | internal/metrics/simple.go:93 | the median is one of the durations |
| Metrics.MedianOfSorted | internal/metrics/simple.go:93 | on a sorted buffer the median is the element at index `n/2`, the upper middle |
| Metrics.Summary | internal/metrics/simple.go:75-104 | the aggregate of a non-empty stream: count, the given counters, min and max that are elements and bounds, a median that is an element, and min <= median <= max |
| SimpleMetrics.Increment | internal/metrics/simple.go:60-72 | a guarded counter step fails exactly when the guard is `MaxInt64` and otherwise gives an `int64` |
| SimpleMetrics.IncrementNeverWraps | internal/metrics/simple.go:60-65 | a counter guarded by its own value grows by exactly one or refuses at `MaxInt64` |
| SimpleMetrics.FailedGuardWraps | internal/metrics/simple.go:67-72 | with nothing skipped, the failed counter at `MaxInt64` wraps to `MinInt64` |
| SimpleMetrics.Simple.constructor | internal/metrics/simple.go:45-48 | a new buffer is empty, has the requested capacity, and both counters are zero |
| SimpleMetrics.Simple.AddResponse | internal/metrics/simple.go:52-58 | below capacity the duration is appended and nothing else changes; at capacity it fails with the state unchanged, so the length never exceeds the capacity |
| SimpleMetrics.Simple.AddSkipped | internal/metrics/simple.go:60-65 | the skipped counter grows by exactly one, or fails at `MaxInt64` and stays unchanged |
| SimpleMetrics.Simple.AddFailed | internal/metrics/simple.go:67-72 | as written: fails only when the skipped counter is `MaxInt64`; otherwise the failed counter steps with 64-bit wrap-around |
| SimpleMetrics.Simple.AddFailedGuarded | internal/metrics/simple_test.go:86-98 | corrected: fails exactly when the failed counter is `MaxInt64`; otherwise it grows by exactly one |
| SimpleMetrics.Simple.Aggregate | internal/metrics/simple.go:75-105 | the buffer ends sorted (the sort of its old contents), and the result is `Summary` of the old contents with the two counters |
| SimpleMetrics.Scan | internal/metrics/simple.go:78-91 | the scan returns the least element, the greatest element and the sum of the buffer |
| SimpleMetrics.NewSimple | internal/metrics/simple.go:26-31 | an empty buffer of capacity 20 000 |
| SimpleMetrics.NewSimpleWithCapacity | internal/metrics/simple.go:36-48 | fails exactly when the capacity is below 1 or above 20 000; otherwise an empty buffer with that capacity |
| ReservoirMetrics.ReservoirSummary | internal/metrics/reservoir.go:79-97 | count, min and max come from the whole stream; the median is an element of the stream, or 0 with an empty sample |
| ReservoirMetrics.SampleMedian | internal/metrics/reservoir.go:83-87 | the sample median is an element of both the sample and the stream |
| ReservoirMetrics.Reservoir.constructor | internal/metrics/reservoir.go:46-50 | a new reservoir has an empty stream and an empty sample of the given size |
| ReservoirMetrics.Reservoir.AddResponse | internal/metrics/reservoir.go:53-76 | the stream grows by the duration, and count, total, min and max stay those of the whole stream; while not full the duration is appended to the sample; once full exactly slot `j = funcRandIntn(n)` is overwritten if `j < sampleSize`, else nothing; the sample length is `min(n, sampleSize)` and the sample is drawn from the stream |
| ReservoirMetrics.Reservoir.Count | internal/metrics/reservoir.go:54-62 | the exact half of the step: the stream grows by the duration, and count, total, min and max are those of the grown stream |
| ReservoirMetrics.Reservoir.Offer | internal/metrics/reservoir.go:64-75 | the sample step alone: append below capacity, otherwise overwrite the drawn slot or keep the sample; the sample stays a sub-multiset of the stream |
| ReservoirMetrics.Reservoir.Aggregate | internal/metrics/reservoir.go:79-97 | the sample ends sorted, and the result is `ReservoirSummary` of the stream and the old sample |
| ReservoirMetrics.RunningStats | internal/metrics/reservoir.go:54-62 | the running total, minimum and maximum update rules compute the total, minimum and maximum of the stream |
| ReservoirMetrics.ReplaceStaysInStream | internal/metrics/reservoir.go:71-74 | overwriting a sample slot with the new duration keeps the sample drawn from the stream |
| ReservoirMetrics.NewReservoir | internal/metrics/reservoir.go:28-34 | an empty reservoir with sample size 10 000 that draws from the given `funcRandIntn` |
| ReservoirMetrics.NewReservoirWithSize | internal/metrics/reservoir.go:37-51 | fails exactly when the sample size is below 1 or above 20 000; otherwise an empty reservoir of that size that draws from the given `funcRandIntn` |
| MetricsEquivalence.AggregatesAgreeWhenSampleHoldsStream | internal/metrics/metrics_test.go:11-32 | when the sample holds the whole stream, the reservoir aggregate equals the exact one |
| MetricsEquivalence.SumSeconds | internal/metrics/simple_test.go:62-84 | the durations 1 s .. n s add up to n(n+1)/2 seconds |
| MetricsEquivalence.TenSecondsSummary | internal/metrics/simple_test.go:62-84 | 1 s .. 10 s aggregate to count 10, total 55 s, min 1 s, median 6 s, average 5.5 s, max 10 s |
| MetricsEquivalence.AggregateExact | internal/metrics/metrics_test.go:19-30 | feeding a stream into a new exact aggregator and aggregating gives `Summary` of the stream |
| MetricsEquivalence.AggregateSampled | internal/metrics/metrics_test.go:35-63 | feeding a stream into a reservoir made by `NewReservoirWithSize` gives the exact aggregate when the stream fits the sample; otherwise every field but the median agrees |
| MetricsEquivalence.CompareOnStream | internal/metrics/metrics_test.go:11-68 | both aggregators on the same stream: equal results when the stream fits the sample; count, total, min, average and max equal always |
| Workerpool.ReplayShape | internal/workerpool/workerpool.go:87-96 | from a fresh pool the cursor is the number of distinct hostnames modulo n, exactly the hostnames seen are bound, and the k-th distinct hostname is bound to lane k mod n |
| Workerpool.LanesInRange | internal/workerpool/workerpool.go:81-93 | the cursor and every bound lane lie in `[0, n)` |
| Workerpool.BindingsNeverChange | internal/workerpool/workerpool.go:88-95 | a hostname once bound keeps its lane through every later query |
| Workerpool.LaneIsFinalBinding | internal/workerpool/workerpool.go:87-96 | every query goes to the lane its hostname is bound to at the end |
| Workerpool.SameHostSameLane | internal/workerpool/workerpool_test.go:160-178 | two queries for the same hostname go to the same lane |
| Workerpool.KthDistinctHostLane | internal/workerpool/workerpool.go:92-94 | a query goes to lane k mod n, where k is its hostname's position in order of first arrival |
| Workerpool.EveryLaneUsed | internal/workerpool/workerpool.go:92-94 | with at least n distinct hostnames every lane receives a query |
| Workerpool.FirstHostsSeparate | internal/workerpool/workerpool_test.go:160-178 | among the first n distinct hostnames, different hostnames get different lanes |
| Workerpool.EightQueriesOnFourLanes | internal/workerpool/workerpool.go:32-40 | the comment's eight queries on four lanes go to lanes 0,1,2,0,2,1,3,0 |
| Workerpool.WorkerLanesArePermutation | internal/workerpool/workerpool.go:77-83 | from any cursor, the workers get each lane exactly once |
| Workerpool.WorkerPool.constructor | internal/workerpool/workerpool.go:66-73 | a new pool has no bindings and its cursor at lane 0 |
| Workerpool.WorkerPool.RunWorkers | internal/workerpool/workerpool.go:77-83 | worker i gets lane `(cursor + i) mod n`, and the cursor ends where it started |
| Workerpool.WorkerPool.RunQuery | internal/workerpool/workerpool.go:87-96 | a bound hostname uses its lane and changes neither the map nor the cursor; a new hostname is bound to the lane at the cursor and the cursor advances by one mod n; the lane agrees with the replay of every query so far; the binding stays even when the hand-off fails because the context is done |
| Workerpool.New | internal/workerpool/workerpool.go:52-74 | fails when the worker count is below 1 or above the CPU count; otherwise a pool with that many lanes, no bindings, cursor 0 and an empty query history |
| Client.ContainsFrom | internal/client/tigerdata.go:115 | the search answers true exactly when the pattern occurs at or after the start position |
| Client.Contains | internal/client/tigerdata.go:115 | true exactly when the pattern occurs somewhere in the text |
| Client.IsRetriableError | internal/client/tigerdata.go:96-121 | true exactly when there is an error and its message contains one of the seven listed substrings |
| Client.RetriableWherever | internal/client/tigerdata.go:104-118 | a message that contains a listed substring anywhere is retriable |
| Client.ShortMessagesNotRetriable | internal/client/tigerdata.go:104-112 | a message shorter than the shortest listed substring is never retriable |
| Client.Settle | internal/client/tigerdata.go:72-90 | an attempt that is not retried succeeds exactly when its rows are clean, with the elapsed time, and otherwise fails with its own message |
| Client.QueryStopsAtFirstFinalAttempt | internal/client/tigerdata.go:64-94 | at most three attempts are made; every attempt before the last was a retriable query error; the last one made was final; its answer decides the result |
| Client.NonRetriableFailsFast | internal/client/tigerdata.go:72-79 | a non-retriable error on the first attempt is returned after one attempt |
| Client.RowsErrorNotRetried | internal/client/tigerdata.go:81-85 | an error reported by the rows ends the query with that error, without a retry |
| Client.RetriesExhausted | internal/client/tigerdata.go:70-79 | three retriable errors in a row return the third one after three attempts |
| Client.Query | internal/client/tigerdata.go:64-94 | the retry loop returns the result and the number of attempts that `QueryFrom` describes; the fall-through after the loop is unreachable |
| QueryCsv.CheckHeader | internal/query/query.go:31-40 | the header passes exactly when it is `hostname,start_time,end_time`; an unreadable header, a wrong field count and wrong names give their own errors |
| QueryCsv.Classify | internal/query/query.go:53-83 | end of input gives no more and no error; a read error gives no more and an error; a query comes exactly from a three-field row whose two times parse, with the hostname verbatim; every other row is skipped with an error; errors carry the current line and the zero query |
| QueryCsv.CSVReader.constructor | internal/query/query.go:42 | a new reader starts at line 2 |
| QueryCsv.CSVReader.Next | internal/query/query.go:48-84 | one row is consumed and classified on the current line, and the line counter moves on by exactly one whatever the outcome |
| QueryCsv.NewQueryReader | internal/query/query.go:30-43 | consumes the header line; succeeds exactly when it is the expected header, with the line counter at 2; otherwise returns the header check's error |

## Left out

- Goroutines, channels, the `WaitGroup`, `Close`, `SendMetrics`, `worker`, `AggregateMetrics` and `select` scheduling in `internal/workerpool/workerpool.go`. Only the routing state and the cursor loop are sequential. `RunQuery`'s hand-off (`runQuery`, `internal/workerpool/workerpool.go:98-105`) is a boolean saying whether the context was done first. The model's `New` does not create the query channels, the `results` channel or the pool's `Simple` aggregator (`internal/workerpool/workerpool.go:60-71`); `AggregateMetrics` only calls that aggregator's `Aggregate`, which `SimpleMetrics.Simple.Aggregate` models.
- `Workerpool.WorkerPool.RunQuery`: the error a failed hand-off returns is `ctx.Err()`; the model reports it as `ContextDone` and does not distinguish a cancellation from a passed deadline.
- Clocks: `time.Now` and `time.Since`. The duration a successful `Query` reports is an input.
- `pgxpool`, with `NewTigerData`, `Ping` and `Close`. These are network calls. Each attempt's answer is an input to `Client.Query`.
- `internal/client/client.go` is not part of this model. It only declares the client interface.
- `encoding/csv` and `time.Parse` internals. The reader is the sequence of answers `Read` gives, so its field-count check is not modelled. With the default reader, that check turns a row with a different field count into a read error, as the row-count test shows. `time.Parse` is a partial function from text to seconds.
- `Query.Build` is string formatting over `time.Time`.
- The uniformity of the reservoir sample is a probabilistic claim. The model proves only that the draw lands in `[0, n)` and what each draw does to the sample.
- `int64` overflow of running totals and the reservoir's query count. These are unbounded integers. Only the skipped and failed counters model 64-bit wrap-around.
- Strings are sequences of characters rather than bytes. All listed substrings are ASCII, so the search is the same.
- `cmd/cli/main.go`, `cmd/smoke/main.go` and `main.go`: CLI and I/O drivers.
- `ReservoirMetrics.Reservoir.AddResponse` runs in two methods: `Count` updates the exact statistics, then `Offer` does the sampling step. The order and the effect match the single Go method.

## Findings

| source | as written | input that shows it | evidently intended | confidence | as-written member | corrected member |
|---|---|---|---|---|---|---|
| internal/metrics/simple.go:68 | `AddFailed` tests `skippedQueries == MaxInt64` before incrementing `failedQueries` | `failedQueries = MaxInt64`, `skippedQueries = 0`: no panic, and `failedQueries` wraps to `MinInt64` | the guard tests `failedQueries`, as `AddSkipped` tests its own counter and as the overflow test at simple_test.go:86-98 expects | high; not executed | SimpleMetrics.FailedGuardWraps | SimpleMetrics.Simple.AddFailedGuarded |

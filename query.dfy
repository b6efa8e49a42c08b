/** The CSV query reader: the header check of `NewQueryReader` and the
    classification of each row by `Next`, with the line counter that error
    messages report. `encoding/csv` is abstracted as the sequence of answers
    its `Read` gives, and `time.Parse` with the layout `2006-01-02 15:04:05`
    as a partial function from text to seconds. */
module QueryCsv {
  import opened Wrappers

  /** A query row. Times are seconds since the zero `time.Time`. */
  datatype Query = Query(hostname: string, startTime: int, endTime: int)

  /** `Query{}`, the zero value returned alongside every error and at the end. */
  const ZeroQuery := Query("", 0, 0)

  /** The required header, in order. */
  const FieldNames: seq<string> := ["hostname", "start_time", "end_time"]

  /** One answer of `csv.Reader.Read`. */
  datatype ReadResult = Record(fields: seq<string>) | EndOfInput | ReadFailure(reason: string)

  datatype HeaderError =
    | HeaderUnreadable(reason: string)  // "error reading headers: ..."
    | HeaderFieldCount(count: int)      // "expected 3 fields, got %d"
    | HeaderNames(fields: seq<string>)  // "expected fields to be hostname, start_time, end_time, got %v"

  /** Errors of `Next`, each carrying the line number it reports. */
  datatype NextError =
    | RecordUnreadable(reason: string, line: int)  // "error reading CSV record: ..."
    | RecordFieldCount(count: int, line: int)      // "invalid CSV record: expected 3 fields, got %d ..."
    | BadStartTime(value: string, line: int)       // "invalid start_time: ..."
    | BadEndTime(value: string, line: int)         // "invalid end_time: ..."

  /** `io.EOF`'s message, reported when the input has no header line. */
  const EOF := "EOF"

  /** The header check: the first read must succeed, have three fields, and
      name them `hostname`, `start_time`, `end_time` in that order. */
  function CheckHeader(read: ReadResult): (r: Outcome<HeaderError>)
    ensures r.Pass? <==> read == Record(FieldNames)
    ensures !read.Record? ==> r.Fail? && r.error.HeaderUnreadable?
    ensures read.Record? && |read.fields| != 3 ==> r == Fail(HeaderFieldCount(|read.fields|))
    ensures read.Record? && |read.fields| == 3 && read.fields != FieldNames ==> r == Fail(HeaderNames(read.fields))
  {
    match read
    case EndOfInput => Fail(HeaderUnreadable(EOF))
    case ReadFailure(reason) => Fail(HeaderUnreadable(reason))
    case Record(fields) =>
      if |fields| != 3 then Fail(HeaderFieldCount(|fields|))
      else if fields[0] != "hostname" || fields[1] != "start_time" || fields[2] != "end_time" then
        Fail(HeaderNames(fields))
      else
        assert fields == FieldNames;
        Pass
  }

  /** What one call of `Next` returns. */
  datatype NextResult = NextResult(query: Query, hasMore: bool, err: Option<NextError>)

  /** How `Next` answers the read result `read` on line `line`. */
  function Classify(read: ReadResult, parseTime: string -> Option<int>, line: int): (r: NextResult)
    // end of input: no query, no more, no error
    ensures (!r.hasMore && r.err.None?) <==> read.EndOfInput?
    // fatal: a read error stops the iteration
    ensures (!r.hasMore && r.err.Some?) <==> read.ReadFailure?
    // success: exactly the three-field rows whose two times parse
    ensures (r.hasMore && r.err.None?) <==>
      read.Record? && |read.fields| == 3
      && parseTime(read.fields[1]).Some? && parseTime(read.fields[2]).Some?
    ensures r.hasMore && r.err.None? ==>
      r.query == Query(read.fields[0], parseTime(read.fields[1]).value, parseTime(read.fields[2]).value)
    // every other outcome carries the zero query
    ensures !(r.hasMore && r.err.None?) ==> r.query == ZeroQuery
    ensures r.err.Some? ==> r.err.value.line == line
  {
    match read
    case EndOfInput => NextResult(ZeroQuery, false, None)
    case ReadFailure(reason) => NextResult(ZeroQuery, false, Some(RecordUnreadable(reason, line)))
    case Record(fields) =>
      if |fields| != 3 then NextResult(ZeroQuery, true, Some(RecordFieldCount(|fields|, line)))
      else
        var startTime := parseTime(fields[1]);
        if startTime.None? then NextResult(ZeroQuery, true, Some(BadStartTime(fields[1], line)))
        else
          var endTime := parseTime(fields[2]);
          if endTime.None? then NextResult(ZeroQuery, true, Some(BadEndTime(fields[2], line)))
          else NextResult(Query(fields[0], startTime.value, endTime.value), true, None)
  }

  /** The answer the next `Read` gives when `pending` is what is left. */
  function Head(pending: seq<ReadResult>): (next: ReadResult) {
    if pending == [] then EndOfInput else pending[0]
  }

  /** `csv.Reader`, as the answers its successive `Read` calls give. */
  class CsvInput {
    var pending: seq<ReadResult>

    constructor (pending: seq<ReadResult>)
      ensures this.pending == pending
    {
      this.pending := pending;
    }

    /** Gives the next answer; once the answers run out, end of input. */
    method Read() returns (r: ReadResult)
      modifies this
      ensures r == Head(old(pending))
      ensures pending == if old(pending) == [] then [] else old(pending)[1..]
    {
      if pending == [] {
        r := EndOfInput;
      } else {
        r := pending[0];
        pending := pending[1..];
      }
    }
  }

  /** `CSVReader`: the underlying reader and the line the next row is on. */
  class CSVReader {
    const csvReader: CsvInput
    var line: int

    constructor (csvReader: CsvInput)
      ensures this.csvReader == csvReader && line == 2
    {
      this.csvReader := csvReader;
      line := 2;
    }

    /** Reads and classifies one row. The line counter moves on by one
        whatever the outcome, as the deferred increment does. */
    method Next(parseTime: string -> Option<int>) returns (query: Query, hasMore: bool, err: Option<NextError>)
      modifies this, csvReader
      ensures line == old(line) + 1
      ensures NextResult(query, hasMore, err) == Classify(Head(old(csvReader.pending)), parseTime, old(line))
      ensures csvReader.pending == if old(csvReader.pending) == [] then [] else old(csvReader.pending)[1..]
    {
      var record := csvReader.Read();
      var r := Classify(record, parseTime, line);
      query, hasMore, err := r.query, r.hasMore, r.err;
      line := line + 1;
    }
  }

  /** `NewQueryReader`: consumes the header line and, when it is the
      expected one, returns a reader whose first row is line 2. */
  method NewQueryReader(csvReader: CsvInput) returns (r: Result<CSVReader, HeaderError>)
    modifies csvReader
    ensures csvReader.pending == if old(csvReader.pending) == [] then [] else old(csvReader.pending)[1..]
    ensures r.Success? <==> Head(old(csvReader.pending)) == Record(FieldNames)
    ensures r.Failure? ==> Fail(r.error) == CheckHeader(Head(old(csvReader.pending)))
    ensures r.Success? ==> fresh(r.value) && r.value.csvReader == csvReader && r.value.line == 2
  {
    var fields := csvReader.Read();
    var check := CheckHeader(fields);
    if check.Fail? {
      return Failure(check.error);
    }
    var reader := new CSVReader(csvReader);
    r := Success(reader);
  }
}

/** The tool handler `call_tool` of the employee-data server and the result
    envelope of `execute_query`. The database is not modelled: running a
    statement is a function `run` from the statement text to its outcome. */
module RailwayHost {
  import opened PyText
  import opened QueryFilter

  datatype Option<T> = None | Some(value: T)

  /** A column value as the driver hands it over; `Other` holds any other
      type (boolean, floating point, date, timestamp) by its text. */
  datatype Value = Null | Int(i: int) | Text(t: string) | Numeric(digits: string) | Other(text: string)

  /** One result row: column name to value, in the order of the result
      columns; the driver's dictionary has each name once. */
  datatype Field = Field(column: string, value: Value)
  type Row = seq<Field>

  /** What running one statement against the database gives: every fetched
      row, or the text of the exception the driver raised. */
  datatype DbOutcome = Rows(rows: seq<Row>) | DbError(message: string)

  /** The JSON object the handler answers with; a field is `None` when the
      key is absent from the object. */
  datatype Envelope = Envelope(
    success: Option<bool>,
    data: Option<seq<Row>>,
    rowCount: Option<int>,
    error: Option<string>,
    executedQuery: Option<string>)

  /** The value given for one key of the tool's arguments. */
  datatype Argument = Str(s: string) | NonStr

  /** Exceptions the handler lets escape. */
  datatype PyException = KeyError(key: string) | AttributeError

  /** What `call_tool` does: answer with an envelope, or raise. */
  datatype Response = Reply(envelope: Envelope) | Raised(exception: PyException)

  const ToolName := "query_employee_data"
  const SqlKey := "sql"
  const UnknownToolPrefix := "Unknown tool: "

  /** The shape `execute_query` promises: on success the rows and their
      number and no error; on failure the error text and nothing else. */
  predicate IsResultShape(e: Envelope) {
    match e.success
    case Some(true) =>
      e.data.Some? && e.rowCount.Some? && e.rowCount.value == |e.data.value| && e.error.None?
    case Some(false) =>
      e.error.Some? && e.data.None? && e.rowCount.None?
    case None => false
  }

  /** The envelope `execute_query` returns for the outcome of the statement. */
  function ExecuteQuery(outcome: DbOutcome): (e: Envelope)
    ensures IsResultShape(e) && e.executedQuery.None?
    ensures e.success == Some(outcome.Rows?)
    ensures outcome.Rows? ==> e.data == Some(outcome.rows)
    ensures outcome.DbError? ==> e.error == Some(outcome.message)
  {
    match outcome
    case Rows(rows) => Envelope(Some(true), Some(rows), Some(|rows|), None, None)
    case DbError(message) => Envelope(Some(false), None, None, Some(message), None)
  }

  /** The answer for a query that the filter turned down. */
  function Rejection(reason: string): (e: Envelope)
    ensures IsResultShape(e) && e.success == Some(false) && e.error == Some(reason)
    ensures e.executedQuery.None?
  {
    Envelope(Some(false), None, None, Some(reason), None)
  }

  /** `call_tool(name, arguments)`, the database being `run`. It raises only
      for the query tool with a missing or non-string `sql`; every answer of
      the query tool has the result shape; `executed_query` appears only on
      an accepted query, as its trimmed text. */
  function CallTool(name: string, arguments: map<string, Argument>, run: string -> DbOutcome): (r: Response)
    ensures r.Raised? <==> name == ToolName && (SqlKey !in arguments || arguments[SqlKey].NonStr?)
    ensures r.Reply? && name == ToolName ==> IsResultShape(r.envelope)
    ensures r.Reply? && r.envelope.executedQuery.Some? ==>
      && name == ToolName && SqlKey in arguments && arguments[SqlKey].Str?
      && r.envelope.executedQuery.value == Strip(arguments[SqlKey].s)
      && Validate(r.envelope.executedQuery.value) == Accept
  {
    if name == ToolName then
      if SqlKey !in arguments then Raised(KeyError(SqlKey))
      else match arguments[SqlKey]
        case NonStr => Raised(AttributeError)
        case Str(raw) =>
          var sql := Strip(raw);
          match Validate(sql)
          case Reject(reason) => Reply(Rejection(reason))
          case Accept => Reply(ExecuteQuery(run(sql)).(executedQuery := Some(sql)))
    else Reply(Envelope(None, None, None, Some(UnknownToolPrefix + name), None))
  }

  /** Any name but `query_employee_data` gets the bare unknown-tool error,
      whatever the arguments and without touching the database. */
  lemma UnknownTool(name: string, arguments: map<string, Argument>, run: string -> DbOutcome)
    requires name != ToolName
    ensures CallTool(name, arguments, run)
      == Reply(Envelope(None, None, None, Some("Unknown tool: " + name), None))
  {
  }

  /** The query handler raises `KeyError` without an `sql` argument and
      `AttributeError` when it is not a string. */
  lemma MalformedArguments(arguments: map<string, Argument>, run: string -> DbOutcome)
    ensures SqlKey !in arguments ==> CallTool(ToolName, arguments, run) == Raised(KeyError("sql"))
    ensures SqlKey in arguments && arguments[SqlKey].NonStr? ==>
      CallTool(ToolName, arguments, run) == Raised(AttributeError)
  {
  }

  /** A query the filter rejects never reaches the database: the answer is
      the same whatever `run` would do, and it carries exactly
      `success = false` and the reason, with no `executed_query`. */
  lemma RejectedNeverExecuted(raw: string, run1: string -> DbOutcome, run2: string -> DbOutcome)
    requires Validate(Strip(raw)).Reject?
    ensures CallTool(ToolName, map[SqlKey := Str(raw)], run1)
         == CallTool(ToolName, map[SqlKey := Str(raw)], run2)
         == Reply(Envelope(Some(false), None, None, Some(Validate(Strip(raw)).reason), None))
  {
  }

  /** An accepted query is run as the trimmed text and nothing else: two
      databases that agree on that one statement give the same answer. */
  lemma AcceptedRunsTrimmedText(raw: string, run1: string -> DbOutcome, run2: string -> DbOutcome)
    requires Validate(Strip(raw)) == Accept
    requires run1(Strip(raw)) == run2(Strip(raw))
    ensures CallTool(ToolName, map[SqlKey := Str(raw)], run1)
         == CallTool(ToolName, map[SqlKey := Str(raw)], run2)
  {
  }

  /** Every answer to a string `sql` argument has the result shape, and
      `executed_query` is present exactly for accepted queries, where it is
      the trimmed text. */
  lemma EnvelopeInvariant(raw: string, run: string -> DbOutcome)
    ensures CallTool(ToolName, map[SqlKey := Str(raw)], run).Reply?
    ensures var e := CallTool(ToolName, map[SqlKey := Str(raw)], run).envelope;
      && IsResultShape(e)
      && (e.executedQuery.Some? <==> Validate(Strip(raw)) == Accept)
      && (e.executedQuery.Some? ==> e.executedQuery.value == Strip(raw))
      && (e.success == Some(true) ==> Validate(Strip(raw)) == Accept && run(Strip(raw)).Rows?)
  {
  }

  /** An accepted query whose statement returns no row answers
      `success = true`, `data = []`, `row_count = 0`. */
  lemma ZeroRows(raw: string, run: string -> DbOutcome)
    requires Validate(Strip(raw)) == Accept
    requires run(Strip(raw)) == Rows([])
    ensures CallTool(ToolName, map[SqlKey := Str(raw)], run)
      == Reply(Envelope(Some(true), Some([]), Some(0), None, Some(Strip(raw))))
  {
  }

  /** A driver error becomes `success = false` with the error text. */
  lemma DatabaseFailure(raw: string, run: string -> DbOutcome)
    requires Validate(Strip(raw)) == Accept
    requires run(Strip(raw)).DbError?
    ensures CallTool(ToolName, map[SqlKey := Str(raw)], run)
      == Reply(Envelope(Some(false), None, None, Some(run(Strip(raw)).message), Some(Strip(raw))))
  {
  }

  /** Whitespace around the `sql` argument changes nothing in the answer. */
  lemma PaddingIgnored(w1: string, raw: string, w2: string, run: string -> DbOutcome)
    requires AllSpace(w1) && AllSpace(w2)
    ensures CallTool(ToolName, map[SqlKey := Str(w1 + raw + w2)], run)
         == CallTool(ToolName, map[SqlKey := Str(raw)], run)
  {
    StripPadded(w1, raw, w2);
  }

  /** Changing the case of ASCII letters in the `sql` argument never
      turns an accepted query into a rejected one or the reverse, nor
      changes the rejection reason. */
  lemma DecisionIgnoresCase(raw1: string, raw2: string, run: string -> DbOutcome)
    requires Upper(raw1) == Upper(raw2)
    ensures var e1 := CallTool(ToolName, map[SqlKey := Str(raw1)], run).envelope;
            var e2 := CallTool(ToolName, map[SqlKey := Str(raw2)], run).envelope;
      && (e1.executedQuery.Some? <==> e2.executedQuery.Some?)
      && (e1.executedQuery.None? ==> e1 == e2)
  {
    VerdictIgnoresCase(raw1, raw2);
  }

  /** An accepted query whose statement returns rows answers
      `success = true` with those rows, their number and the trimmed text. */
  lemma AcceptedAnswer(raw: string, run: string -> DbOutcome, rows: seq<Row>)
    requires Validate(Strip(raw)) == Accept
    requires run(Strip(raw)) == Rows(rows)
    ensures CallTool(ToolName, map[SqlKey := Str(raw)], run)
      == Reply(Envelope(Some(true), Some(rows), Some(|rows|), None, Some(Strip(raw))))
  {
  }

  /** End to end: a lower-case query padded with whitespace is trimmed,
      accepted, run as the trimmed text, and answered with its rows, their
      number and the trimmed text. */
  lemma PaddedQueryAnswered(w1: string, w2: string, run: string -> DbOutcome, rows: seq<Row>)
    requires AllSpace(w1) && AllSpace(w2)
    requires run("select count(*)") == Rows(rows)
    ensures CallTool(ToolName, map[SqlKey := Str(w1 + "select count(*)" + w2)], run)
      == Reply(Envelope(Some(true), Some(rows), Some(|rows|), None, Some("select count(*)")))
  {
    var sql := "select count(*)";
    CountAccepted();
    StripUnpadded(sql);
    PaddingIgnored(w1, sql, w2, run);
    AcceptedAnswer(sql, run, rows);
  }
}

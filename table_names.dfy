/** The pure part of the table-names tool: its one fixed catalog query, the
    projection of the result rows to their table names, and the shaping of
    its success and failure results. */
module TableNames {
  import opened ToolContent
  import opened PoolEvents

  /** The tables of the public schema. The tool takes no input, so this text never varies. */
  const NamesQuery := "SELECT * FROM pg_catalog.pg_tables WHERE schemaname = 'public';"

  const SuccessHeader := "Successfully retrieved the tables"

  const FailurePrefix := "Failed to list database tables. Error: "

  /** Each row mapped to its `tablename` column, keeping length and order. */
  function TableNamesOf(rows: seq<Row>): (names: seq<Value>)
    ensures |names| == |rows|
    ensures forall k | 0 <= k < |rows| :: names[k] == Field(rows[k], "tablename")
  {
    if rows == [] then [] else [Field(rows[0], "tablename")] + TableNamesOf(rows[1..])
  }

  /** The content the tool returns for a given pool answer and query reply. */
  function NamesContent(attempt: Attempt, reply: Reply): Content
  {
    if attempt.Refused? then [Text(FailurePrefix + attempt.message)]
    else
      match reply
      case Failure(m) => [Text(FailurePrefix + m)]
      case Rows(rows) => [Text(SuccessHeader), TablesJson(TableNamesOf(rows))]
  }

  /** The queries a call issues: the one fixed text, once, if the pool hands out a client. */
  function NamesQueries(attempt: Attempt): seq<string>
  {
    if attempt.Refused? then [] else [NamesQuery]
  }

  /** The projection works row by row: it commutes with concatenation. */
  lemma {:induction false} TableNamesOfConcat(a: seq<Row>, b: seq<Row>)
    ensures TableNamesOf(a + b) == TableNamesOf(a) + TableNamesOf(b)
  {
    if a != [] {
      assert (a + b)[1..] == a[1..] + b;
      TableNamesOfConcat(a[1..], b);
    }
  }

  /** On success the content is the header text followed by the json item
      holding the table names; otherwise it is one failure text carrying the
      message of the refusal or of the failed query. */
  lemma NamesContentShape(attempt: Attempt, reply: Reply)
    ensures |NamesContent(attempt, reply)| == 2 <==> attempt.Connected? && reply.Rows?
    ensures attempt.Connected? && reply.Rows? ==>
              NamesContent(attempt, reply)[0] == Text(SuccessHeader) &&
              NamesContent(attempt, reply)[1].TablesJson? &&
              |NamesContent(attempt, reply)[1].tables| == |reply.rows|
    ensures attempt.Refused? ==> NamesContent(attempt, reply) == [Text(FailurePrefix + attempt.message)]
    ensures attempt.Connected? && reply.Failure? ==> NamesContent(attempt, reply) == [Text(FailurePrefix + reply.message)]
  {
  }

  /** A call issues the one fixed query text exactly once when the pool
      hands out a client, and no query otherwise. */
  lemma OneFixedQueryPerCall(client: nat, attempt: Attempt)
    ensures QueriesOf(Session(client, attempt, NamesQueries(attempt))) ==
            if attempt.Connected? then [NamesQuery] else []
  {
    SessionQueries(client, attempt, NamesQueries(attempt));
  }

  /** A table listed in row k of the reply appears as entry k of the json item. */
  lemma NamesKeepRowOrder(reply: Reply, k: nat, name: string)
    requires reply.Rows? && k < |reply.rows| && "tablename" in reply.rows[k]
    requires reply.rows[k]["tablename"] == Str(name)
    ensures NamesContent(Connected, reply)[1].tables[k] == Str(name)
  {
  }
}

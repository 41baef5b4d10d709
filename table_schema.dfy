/** The pure part of the table-schema tool: the three catalog queries,
    built by splicing the table name into fixed SQL text, and the shaping of
    the tool's success and failure results. */
module TableSchema {
  import opened ToolContent
  import opened PoolEvents

  /** SQL text with one slot: head + table + tail. */
  datatype Template = Template(head: string, tail: string)

  /** The table name is copied into the slot as it is: no quoting, no escaping. */
  function Splice(t: Template, table: string): string
  {
    t.head + table + t.tail
  }

  /** The text between head and tail of a query built from the template. */
  function SlotOf(t: Template, sql: string): string
    requires |t.head| + |t.tail| <= |sql|
  {
    sql[|t.head|..|sql| - |t.tail|]
  }

  // In the three templates below the quote that opens the literal around the
  // slot ends the head and the quote that closes it starts the tail; each is
  // written as a separate "'" so that the two quotes are visible.

  /** Column definitions of the table in the public schema, in declaration order. */
  const ColumnsQuery := Template(
    "SELECT\n        column_name,\n        data_type,\n        character_maximum_length,\n        is_nullable,\n        column_default\n      FROM information_schema.columns\n      WHERE table_schema = 'public' AND table_name = " + "'",
    "'" + "\n      ORDER BY ordinal_position; ")

  /** Index names and definitions of the table in the public schema. */
  const IndexesQuery := Template(
    "SELECT\n        tablename,\n        indexname,\n        indexdef\n      FROM pg_indexes\n      WHERE tablename = " + "'",
    "'" + " AND schemaname = 'public';")

  /** Non-internal triggers of the table in the public schema. */
  const TriggersQuery := Template(
    "SELECT\n        tgname AS trigger_name,\n        pg_get_triggerdef(tr.oid) AS trigger_definition\n      FROM pg_trigger tr\n      JOIN pg_class tbl ON tbl.oid = tr.tgrelid\n      JOIN pg_namespace n ON n.oid = tbl.relnamespace\n      WHERE tbl.relname = " + "'",
    "'" + "\n      AND n.nspname = 'public'\n      AND NOT tr.tgisinternal; ")

  /** The slot sits inside a single-quoted SQL string literal. */
  predicate QuotedSlot(t: Template)
  {
    |t.head| > 0 && t.head[|t.head| - 1] == '\'' && |t.tail| > 0 && t.tail[0] == '\''
  }

  /** The first single quote at or after position i (or the end of the text). */
  function QuoteFrom(s: string, i: nat): (k: nat)
    requires i <= |s|
    ensures i <= k <= |s|
    ensures forall j | i <= j < k :: s[j] != '\''
    ensures k < |s| ==> s[k] == '\''
    decreases |s| - i
  {
    if i == |s| || s[i] == '\'' then i else QuoteFrom(s, i + 1)
  }

  /** The queries the tool issues, in order: it stops after the first one
      that fails. */
  function SchemaQueries(table: string, answer: string -> Reply): seq<string>
  {
    var columns := Splice(ColumnsQuery, table);
    var indexes := Splice(IndexesQuery, table);
    var triggers := Splice(TriggersQuery, table);
    if answer(columns).Failure? then [columns]
    else if answer(indexes).Failure? then [columns, indexes]
    else [columns, indexes, triggers]
  }

  const SuccessHeader := "Successfully retrieved the table schema"

  const FailurePrefix := "Failed to list table schema. Error: "

  /** The four text items of a successful call, from the serialized rows. */
  function SchemaSuccess(columns: string, indexes: string, triggers: string): Content
  {
    [Text(SuccessHeader), Text("Table Schema: " + columns),
     Text("Table Indexes: " + indexes), Text("Table triggers: " + triggers)]
  }

  /** The single text item of a failed call. */
  function SchemaFailure(message: string): Content
  {
    [Text(FailurePrefix + message)]
  }

  /** The content the tool returns. `stringify` stands for the JSON serializer. */
  function SchemaContent(table: string, attempt: Attempt, answer: string -> Reply,
                         stringify: seq<Row> -> string): Content
  {
    if attempt.Refused? then SchemaFailure(attempt.message)
    else
      match answer(Splice(ColumnsQuery, table))
      case Failure(m) => SchemaFailure(m)
      case Rows(columns) =>
        match answer(Splice(IndexesQuery, table))
        case Failure(m) => SchemaFailure(m)
        case Rows(indexes) =>
          match answer(Splice(TriggersQuery, table))
          case Failure(m) => SchemaFailure(m)
          case Rows(triggers) => SchemaSuccess(stringify(columns), stringify(indexes), stringify(triggers))
  }

  /** The table name can be read back unchanged from the query text: the
      splice neither escapes nor alters it. */
  lemma SpliceRoundTrip(t: Template, table: string)
    ensures |t.head| + |t.tail| <= |Splice(t, table)|
    ensures Splice(t, table)[..|t.head|] == t.head
    ensures SlotOf(t, Splice(t, table)) == table
    ensures Splice(t, table)[|Splice(t, table)| - |t.tail|..] == t.tail
  {
    var sql := Splice(t, table);
    assert sql[|t.head|..|sql| - |t.tail|] == table;
    assert sql[|sql| - |t.tail|..] == t.tail;
  }

  /** Different table names give different query texts. */
  lemma SpliceInjective(t: Template, a: string, b: string)
    requires Splice(t, a) == Splice(t, b)
    ensures a == b
  {
    SpliceRoundTrip(t, a);
    SpliceRoundTrip(t, b);
  }

  /** All three catalog queries put the table name inside a quoted literal. */
  lemma TemplatesQuoteTheSlot()
    ensures QuotedSlot(ColumnsQuery) && QuotedSlot(IndexesQuery) && QuotedSlot(TriggersQuery)
  {
  }

  /** The first single quote after the one that opens the slot's literal is
      the one just after the table name when the name holds no single quote,
      and falls inside the name when it holds one: the name is spliced
      unescaped, so a quote in it is SQL text, not part of the name. */
  lemma LiteralEndsInsideNameIffQuote(t: Template, table: string)
    requires QuotedSlot(t)
    ensures '\'' !in table ==> QuoteFrom(Splice(t, table), |t.head|) == |t.head| + |table|
    ensures '\'' in table ==> QuoteFrom(Splice(t, table), |t.head|) < |t.head| + |table|
  {
    var sql := Splice(t, table);
    var k := QuoteFrom(sql, |t.head|);
    var h := |t.head|;
    if '\'' !in table {
      assert sql[h + |table|] == t.tail[0];
      assert forall j | h <= j < h + |table| :: sql[j] == table[j - h];
    } else {
      var j :| 0 <= j < |table| && table[j] == '\'';
      assert sql[h + j] == table[j];
    }
  }

  /** The queries run in the fixed order columns, indexes, triggers; each
      one after the first runs only if all before it succeeded, and the run
      stops at the first failure. */
  lemma SchemaQueryOrder(table: string, answer: string -> Reply)
    ensures var qs := SchemaQueries(table, answer);
            1 <= |qs| <= 3 &&
            qs == [Splice(ColumnsQuery, table), Splice(IndexesQuery, table), Splice(TriggersQuery, table)][..|qs|]
    ensures var qs := SchemaQueries(table, answer);
            forall k | 0 <= k < |qs| - 1 :: answer(qs[k]).Rows?
    ensures var qs := SchemaQueries(table, answer);
            |qs| < 3 ==> answer(qs[|qs| - 1]).Failure?
  {
  }

  /** The call succeeds exactly when the pool hands out a client and all
      three queries return rows; its content is then the four text items, in
      order, carrying the serialized rows of each query. */
  lemma SchemaSuccessIff(table: string, attempt: Attempt, answer: string -> Reply, stringify: seq<Row> -> string)
    ensures |SchemaContent(table, attempt, answer, stringify)| == 4 <==>
            attempt.Connected? && answer(Splice(ColumnsQuery, table)).Rows? &&
            answer(Splice(IndexesQuery, table)).Rows? && answer(Splice(TriggersQuery, table)).Rows?
    ensures attempt.Connected? && answer(Splice(ColumnsQuery, table)).Rows? &&
            answer(Splice(IndexesQuery, table)).Rows? && answer(Splice(TriggersQuery, table)).Rows? ==>
            SchemaContent(table, attempt, answer, stringify) ==
            SchemaSuccess(stringify(answer(Splice(ColumnsQuery, table)).rows),
                          stringify(answer(Splice(IndexesQuery, table)).rows),
                          stringify(answer(Splice(TriggersQuery, table)).rows))
  {
  }

  /** Any failure gives exactly one text item carrying the message of what
      failed: the pool's refusal, or else the last query issued. */
  lemma SchemaFailureMessage(table: string, attempt: Attempt, answer: string -> Reply, stringify: seq<Row> -> string)
    ensures attempt.Refused? ==>
              SchemaContent(table, attempt, answer, stringify) == [Text(FailurePrefix + attempt.message)]
    ensures var qs := SchemaQueries(table, answer);
            var last := answer(qs[|qs| - 1]);
            attempt.Connected? && last.Failure? ==>
              SchemaContent(table, attempt, answer, stringify) == [Text(FailurePrefix + last.message)]
    ensures var qs := SchemaQueries(table, answer);
            attempt.Connected? && answer(qs[|qs| - 1]).Rows? ==> |qs| == 3
  {
  }

  /** A table with no catalog rows (for instance one that does not exist) is
      not an error: the call succeeds with three empty row lists. */
  lemma MissingTableIsNotAnError(table: string, answer: string -> Reply, stringify: seq<Row> -> string)
    requires answer(Splice(ColumnsQuery, table)) == Rows([])
    requires answer(Splice(IndexesQuery, table)) == Rows([])
    requires answer(Splice(TriggersQuery, table)) == Rows([])
    ensures SchemaContent(table, Connected, answer, stringify) ==
            [Text("Successfully retrieved the table schema"),
             Text("Table Schema: " + stringify([])),
             Text("Table Indexes: " + stringify([])),
             Text("Table triggers: " + stringify([]))]
  {
  }
}

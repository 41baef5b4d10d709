/** The raw-query tool: the read-only guard decides whether the query text
    reaches the executor at all; the executor's outcome is then wrapped in a
    single text item. */
module ReadOnlyQuery {
  import opened ReadOnlyGuard
  import opened ToolContent

  /** What the executor does with a query: returns a result, or throws. */
  datatype Outcome<V> = Returned(value: V) | Threw(message: string)

  /** One call of the tool: the query texts handed to the executor, and the
      content returned to the host. */
  datatype Run = Run(executed: seq<Units>, content: Content)

  const RejectionMessage := "Error: Only read-only queries (starting with SELECT) are allowed."

  const ExecutionErrorPrefix := "Error executing query: "

  /** The tool. The executor and the JSON serializer are parameters; both
      run inside the `try`, so a throw from either is caught. */
  function RawQuery<V>(query: Units, execute: Units -> Outcome<V>, serialize: V -> Outcome<string>): (run: Run)
    ensures |run.content| == 1 && run.content[0].Text?
    ensures |run.executed| <= 1 && forall q | q in run.executed :: q == query
    ensures run.executed == [] <==> !IsReadOnly(query)
    ensures run.executed == [] ==> run.content[0].text == RejectionMessage
    ensures run.executed != [] && execute(query).Returned? && serialize(execute(query).value).Returned? ==>
              run.content[0].text == serialize(execute(query).value).value
    ensures run.executed != [] && execute(query).Returned? && serialize(execute(query).value).Threw? ==>
              run.content[0].text == ExecutionErrorPrefix + serialize(execute(query).value).message
    ensures run.executed != [] && execute(query).Threw? ==>
              run.content[0].text == ExecutionErrorPrefix + execute(query).message
  {
    if !IsReadOnly(query) then
      Run([], [Text(RejectionMessage)])
    else
      match execute(query)
      case Returned(value) =>
        (match serialize(value)
         case Returned(text) => Run([query], [Text(text)])
         case Threw(message) => Run([query], [Text(ExecutionErrorPrefix + message)]))
      case Threw(message) => Run([query], [Text(ExecutionErrorPrefix + message)])
  }

  /** The executor is reached exactly for the texts the pattern
      /^\s*SELECT/i matches, and then with the text unchanged. */
  lemma ExecutesIffPatternMatches<V>(query: Units, execute: Units -> Outcome<V>, serialize: V -> Outcome<string>)
    ensures RegexMatches(query) ==> RawQuery(query, execute, serialize).executed == [query]
    ensures !RegexMatches(query) ==> RawQuery(query, execute, serialize).executed == []
  {
    IsReadOnlyIffRegexMatches(query);
  }

  /** A rejected query gets the fixed message whatever the executor would
      have done: two executors give the same content. */
  lemma RejectionIgnoresExecutor<V>(query: Units, e1: Units -> Outcome<V>, e2: Units -> Outcome<V>, serialize: V -> Outcome<string>)
    requires !IsReadOnly(query)
    ensures RawQuery(query, e1, serialize) == RawQuery(query, e2, serialize)
  {
  }

  /** Leading blanks added to a query change only the text handed on, not
      whether it is handed on nor, for the same executor outcome, the reply. */
  lemma LeadingBlanksKeepDispatch<V>(w: Units, query: Units, execute: Units -> Outcome<V>, serialize: V -> Outcome<string>)
    requires forall i | 0 <= i < |w| :: IsSpace(w[i])
    requires execute(w + query) == execute(query)
    ensures RawQuery(w + query, execute, serialize).content == RawQuery(query, execute, serialize).content
    ensures |RawQuery(w + query, execute, serialize).executed| == |RawQuery(query, execute, serialize).executed|
  {
    LeadingSpaceIrrelevant(w, query);
  }
}

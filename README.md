# Stock and database tools: read-only guard and pooled database tools

This project models the logic in an MCP tool server that serves stock-market data and database introspection. Every tool makes one outbound call and wraps what comes back. Three tools have behaviour that can be stated and proved:

- **`readOnlyQuery`** runs a free-form SQL query only if the regular expression `/^\s*SELECT/i` matches it. Otherwise it returns a fixed error text. The executor's result or error is wrapped in one text item. The guard is modelled over UTF-16 code units (`ReadOnlyGuard`), as an ECMAScript regular expression reads a string:
  - `\s` is the WhiteSpace and LineTerminator set of ECMAScript 2022 and later.
  - Case-insensitivity is the `ignoreCase` Canonicalize of a non-Unicode pattern.
  - The greedy skip is proved equal to a backtracking reading of the pattern (`RegexMatches`).
  - The dispatch around the guard is `ReadOnlyQuery.RawQuery`. The executor and the serializer are function parameters. The returned `Run` records which query texts reached the executor.
- **`get_table_schema`** takes a client from the pool and runs three catalog queries on it: columns, indexes, triggers. The SQL text is built by splicing the `table` argument, unescaped, into fixed text. Four text items come back on success and one on failure, and the client is released in `finally`. The pure part is in `TableSchema`; the imperative sequence is `Db.Pool.GetTableSchema`.
- **`get_table_names`** takes a client from the pool and runs one fixed query. It maps each result row to its `tablename` column and releases the client in `finally`. The pure part is in `TableNames`; the sequence is `Db.Pool.GetTableNames`.

The pool is the class `Db.Pool`. It keeps a count of checked-out clients and a log of `Acquired`, `Queried` and `Released` events, each tagged with the client it concerns. Its invariant `Valid()` ties the count to the log. `Db.Client` is a checked-out client. Its `Release` requires that the client was not released yet, so a double release does not verify.

The model takes several things as parameters instead of modelling them:
- the pool's answer to `connect`;
- the database's answer to each SQL text (`answer: string -> Reply`);
- the raw-query executor;
- the JSON serializer (`stringify`).

`PoolEvents` proves that every tool call leaves the checked-out count where it found it. It also proves that a client is released exactly once when `connect` succeeded and never otherwise.

Two things about the code shape the model:
- `src/tools/getTableSchema.ts:43,53,63` splice `table` into the SQL text unescaped. It is not bound as a query parameter. `TableSchema.Splice` models the splice.
- In `src/tools/readOnlyQuery.ts` the executor is the pg pool from `src/lib/db.ts`, imported under the name `prisma`, and the tool calls `$queryRawUnsafe` on it. A pg pool has no such method. The model keeps the executor fully abstract and does not assume that it can succeed.

## Model

| member | source | states |
|---|---|---|
| ReadOnlyGuard.Canonicalize | src/tools/readOnlyQuery.ts:25 | The `i` flag upper-cases every lower-case ASCII letter and changes no other unit. An ASCII unit stays ASCII, and a non-ASCII unit is never mapped into ASCII. |
| ReadOnlyGuard.SkipSpaces | src/tools/readOnlyQuery.ts:25 | The `\s*` step ends at the first non-`\s` unit. Every unit it skips is `\s`, and it stops at the end or at a non-`\s` unit. |
| ReadOnlyGuard.MatchesLetterIff | src/tools/readOnlyQuery.ts:25 | Under the `i` flag a unit matches an upper-case pattern letter exactly when it is that letter in upper or lower case. |
| ReadOnlyGuard.KeywordAtIff | src/tools/readOnlyQuery.ts:25 | The keyword test at a position holds exactly when the six units there spell SELECT up to ASCII case (both directions). |
| ReadOnlyGuard.AcceptIff | src/tools/readOnlyQuery.ts:25-27 | A query is accepted exactly when, after the maximal leading `\s` run, its next six units equal SELECT up to ASCII case (both directions). |
| ReadOnlyGuard.IsReadOnlyIffRegexMatches | src/tools/readOnlyQuery.ts:25 | The greedy skip accepts exactly the texts that the backtracking reading of `/^\s*SELECT/i` matches (both directions). |
| ReadOnlyGuard.LeadingSpaceIrrelevant | src/tools/readOnlyQuery.ts:25 | Prepending any string of `\s` units never changes the verdict (both directions). |
| ReadOnlyGuard.AcceptedExtends | src/tools/readOnlyQuery.ts:25 | If a query is accepted, the query followed by any text is accepted. |
| ReadOnlyGuard.OnlyPrefixMatters | src/tools/readOnlyQuery.ts:25 | The verdict on a query equals the verdict on its prefix up to the sixth unit after the leading `\s` run. |
| ReadOnlyGuard.KeywordThenAnything | src/tools/readOnlyQuery.ts:25 | SELECT in any ASCII case followed by anything at all is accepted, so no word boundary is required. |
| ReadOnlyGuard.RejectedUnlessFirstIsS | src/tools/readOnlyQuery.ts:25-27 | A query is rejected if it is blank or if its first non-`\s` unit does not match S. |
| ReadOnlyGuard.NonAsciiNeverMatches | src/tools/readOnlyQuery.ts:25 | No non-ASCII unit matches any letter of SELECT. In particular U+017F does not match S. |
| ReadOnlyGuard.AcceptedExamples | src/tools/readOnlyQuery.ts:25 | `SELECTX`, `selectfoo` and `select 1; drop table t` are accepted. |
| ReadOnlyGuard.RejectedExamples | src/tools/readOnlyQuery.ts:25-27 | These are rejected: the empty text, a blank text, `; SELECT 1`, `-- c\nSELECT 1`, a `WITH` query, and U+017F followed by `ELECT 1`. |
| ReadOnlyQuery.RawQuery | src/tools/readOnlyQuery.ts:23-48 | Always exactly one text item, so no failure escapes. The executor is called exactly when the guard accepts, and then once, with the query unchanged. A rejected query gets the fixed message. The executor's value gives its serialized text. An error from the executor or from the serializer gives `"Error executing query: " + message`. |
| ReadOnlyQuery.ExecutesIffPatternMatches | src/tools/readOnlyQuery.ts:25-39 | The executor receives the unchanged query exactly when the pattern matches it, and nothing otherwise. |
| ReadOnlyQuery.RejectionIgnoresExecutor | src/tools/readOnlyQuery.ts:27-36 | For a rejected query the result is the same whatever the executor would do, so the executor is never consulted. |
| ReadOnlyQuery.LeadingBlanksKeepDispatch | src/tools/readOnlyQuery.ts:25-47 | Leading blanks change neither whether the query is executed nor, for the same executor outcome, the reply. |
| PoolEvents.SessionBalanced | src/tools/getTableSchema.ts:31-101 | The events of one tool call acquire and release equally, so the checked-out count returns to its value before the call. |
| PoolEvents.ReleasedOnceIffConnected | src/tools/getTableSchema.ts:98-101 | The client is released exactly once if `connect` succeeded and never if it failed. The release is the call's last event. |
| PoolEvents.SessionQueries | src/tools/getTableSchema.ts:31-66 | A call issues exactly the given query texts, in order, and only if `connect` succeeded. |
| PoolEvents.SessionPrefixBalance | src/tools/getTableSchema.ts:31-101 | At every point of a call at most one client is out and nothing is released before it is acquired. Strictly inside a call exactly one client is out. |
| TableSchema.SpliceRoundTrip | src/tools/getTableSchema.ts:35-66 | Each SQL text is the fixed head, then `table` verbatim, then the fixed tail, and the table name can be read back unchanged. |
| TableSchema.SpliceInjective | src/tools/getTableSchema.ts:35-66 | Different table names give different SQL texts. |
| TableSchema.TemplatesQuoteTheSlot | src/tools/getTableSchema.ts:35-66 | In all three SQL texts the table name sits between single quotes. |
| TableSchema.LiteralEndsInsideNameIffQuote | src/tools/getTableSchema.ts:43 | The first `'` after the opening quote of the slot is the one right after the name when the name has no `'`, and falls inside the name when it has one. |
| TableSchema.SchemaQueryOrder | src/tools/getTableSchema.ts:35-66 | The queries run in the order columns, indexes, triggers. A query runs only if all before it returned rows, and nothing runs after a failure. |
| TableSchema.SchemaSuccessIff | src/tools/getTableSchema.ts:68-87 | The result has four items exactly when `connect` and all three queries succeed. It is then the header, `"Table Schema: "`, `"Table Indexes: "` and `"Table triggers: "` items, each with its query's serialized rows. |
| TableSchema.SchemaFailureMessage | src/tools/getTableSchema.ts:88-97 | Every failure gives exactly one text item, `"Failed to list table schema. Error: "` followed by the message of the refusal or of the last query issued. |
| TableSchema.MissingTableIsNotAnError | src/tools/getTableSchema.ts:68-87 | Zero catalog rows for all three queries give the four-item success result with three empty row lists. |
| TableNames.TableNamesOf | src/tools/getTableNames.ts:32 | The names list has the same length as the rows, and entry k is row k's `tablename` value. |
| TableNames.TableNamesOfConcat | src/tools/getTableNames.ts:32 | The projection commutes with concatenation, so the order of rows is kept. |
| TableNames.NamesContentShape | src/tools/getTableNames.ts:34-55 | Success gives exactly the header text and a json item with one name per row. Any failure gives one text item, `"Failed to list database tables. Error: "` followed by the message. |
| TableNames.OneFixedQueryPerCall | src/tools/getTableNames.ts:27-31 | The tool takes no input; a call issues the one fixed query text exactly once if `connect` succeeded and no query if it failed. |
| TableNames.NamesKeepRowOrder | src/tools/getTableNames.ts:32-45 | The table named in row k is entry k of the json item. |
| Db.Pool.constructor | src/lib/db.ts:7-15 | A new pool has no client checked out and an empty history. |
| Db.Pool.Connect | src/tools/getTableSchema.ts:33 | On success, a fresh unreleased client, one more checked out, and an `Acquired` event. On failure, no client and nothing changed. |
| Db.Client.Query | src/tools/getTableSchema.ts:35-45 | Returns the database's reply to exactly the given text and records that text. The checked-out count does not change, and the pool stays valid. |
| Db.Client.QuerySchema | src/tools/getTableSchema.ts:34-87 | Issues the columns, indexes and triggers texts in order, stopping at the first failure, and records exactly those texts. The content is the tool's result for those answers. The count does not change and the pool stays valid. |
| Db.Client.Release | src/tools/getTableSchema.ts:98-101 | Needs an unreleased client, marks it released, gives it back (one fewer out) and records the release. The pool stays valid. |
| Db.Pool.GetTableSchema | src/tools/getTableSchema.ts:27-103 | The pool stays valid and its count returns to its old value. The history gains exactly this call's events on one new client, and one client id is used up only if `connect` succeeded. The content is the tool's result for those answers. |
| Db.Pool.GetTableNames | src/tools/getTableNames.ts:27-61 | The pool stays valid and its count returns to its old value. The history gains acquire, the one fixed query and release if `connect` succeeded, and nothing if it failed. One client id is used up only on success. The content is the tool's result for the reply. |

## Left out

- ReadOnlyGuard.Canonicalize: maps every non-ASCII unit to itself. The real Canonicalize may map a non-ASCII unit to another non-ASCII unit (its upper-case form). That cannot change the guard's verdict, because the pattern is all ASCII and neither function maps a non-ASCII unit into ASCII. Unicode case tables are not modelled.
- The four upstream-API tools (`get52WeekHighLow`, `getMostActiveNseStocks`, `getNews`, `getStockByName`) are thin HTTP clients. Their only branch is a content-type substring test between two library calls, so there is nothing to state beyond network I/O.
- Pool configuration from the environment, the fatal handler for errors on idle clients (process exit), and the SIGINT drain in `src/lib/db.ts` are left out. They are process, signal and library behaviour. Only the checked-out count and the history are kept.
- The pool's capacity of 20 and blocking in `connect` are left out: `connect` succeeds or fails as its parameter says. Concurrent tool calls and async scheduling are left out too: each call is one sequential run.
- `JSON.stringify` and the executor are function parameters. Neither is modelled. In the raw-query tool the serializer may throw, and its message is reported like the executor's; in the schema tool it is total, because rows of `Value`s hold no BigInt and no cycle, which are what make `JSON.stringify` throw. What PostgreSQL returns for the catalog queries is the `answer` parameter.
- TableSchema.LiteralEndsInsideNameIffQuote: locates the first `'` after the opening quote, not where PostgreSQL ends the literal. PostgreSQL reads a doubled `''` inside a literal as one quote, so for a name such as `O''Brien` the literal does not end inside the name. The SQL lexer is not modelled.
- The `console.error` calls in the catch blocks of `src/tools/getTableSchema.ts:89` and `src/tools/getTableNames.ts:47` are left out. They only write to the process log.
- Turning a caught value into a message (`error.message` or `String(error)`) is left out. A failure carries its message string directly.
- Row values keep only a few JSON-like kinds, with integer numbers. No floating point.
- The `metadata` and `schema` declarations of each tool and `xmcp.config.ts` are constants with no behaviour.
- Output texts are Dafny strings of characters. Only the guard works at the level of UTF-16 code units.

/** The connection pool as the two database tools use it, and the two tools
    themselves: acquire a client, run the queries on it, and release it in
    `finally`. What the pool and the database answer comes in as parameters. */
module Db {
  import opened ToolContent
  import opened PoolEvents
  import TableSchema
  import TableNames

  /** The shared pool: how many clients are checked out, and the history of
      acquisitions, queries and releases. */
  class Pool {
    var checkedOut: nat
    var log: seq<Event>
    var nextId: nat

    /** The counter agrees with the history. */
    ghost predicate Valid()
      reads this
    {
      Balance(log) == checkedOut
    }

    constructor ()
      ensures Valid() && checkedOut == 0 && log == [] && nextId == 0
    {
      checkedOut, log, nextId := 0, [], 0;
    }

    /** `connect`: on success a new client is checked out; on failure
        nothing changes and there is no client. */
    method Connect(attempt: Attempt) returns (client: Client?)
      requires Valid()
      modifies this
      ensures Valid()
      ensures attempt.Refused? ==> client == null && checkedOut == old(checkedOut) &&
                                   log == old(log) && nextId == old(nextId)
      ensures attempt.Connected? ==>
                client != null && fresh(client) && client.pool == this && client.id == old(nextId) &&
                !client.released && checkedOut == old(checkedOut) + 1 &&
                log == old(log) + [Acquired(old(nextId))] && nextId == old(nextId) + 1
    {
      if attempt.Refused? {
        client := null;
      } else {
        client := new Client(this, nextId);
        BalanceConcat(log, [Acquired(nextId)]);
        checkedOut, log, nextId := checkedOut + 1, log + [Acquired(nextId)], nextId + 1;
      }
    }

    /** The table-schema tool: columns, indexes and triggers of `table`, on one client. */
    method GetTableSchema(table: string, attempt: Attempt, answer: string -> Reply,
                          stringify: seq<Row> -> string) returns (content: Content)
      requires Valid()
      modifies this
      ensures Valid()
      ensures checkedOut == old(checkedOut)
      ensures nextId == old(nextId) + (if attempt.Connected? then 1 else 0)
      ensures log == old(log) + Session(old(nextId), attempt, TableSchema.SchemaQueries(table, answer))
      ensures content == TableSchema.SchemaContent(table, attempt, answer, stringify)
    {
      ghost var log0, id := log, nextId;
      var client: Client? := null;
      client := Connect(attempt);
      if client == null {
        content := TableSchema.SchemaFailure(attempt.message);
      } else {
        content := client.QuerySchema(table, answer, stringify);
      }
      // finally
      if client != null {
        client.Release();
      }
      SessionLogged(log0, id, attempt, TableSchema.SchemaQueries(table, answer), log);
    }

    /** The table-names tool: the table names of the public schema, on one client. */
    method GetTableNames(attempt: Attempt, answer: string -> Reply) returns (content: Content)
      requires Valid()
      modifies this
      ensures Valid()
      ensures checkedOut == old(checkedOut)
      ensures nextId == old(nextId) + (if attempt.Connected? then 1 else 0)
      ensures log == old(log) + Session(old(nextId), attempt, TableNames.NamesQueries(attempt))
      ensures content == TableNames.NamesContent(attempt, answer(TableNames.NamesQuery))
    {
      ghost var log0, id := log, nextId;
      var client: Client? := null;
      client := Connect(attempt);
      if client == null {
        content := [Text(TableNames.FailurePrefix + attempt.message)];
      } else {
        var result := client.Query(TableNames.NamesQuery, answer);
        if result.Failure? {
          content := [Text(TableNames.FailurePrefix + result.message)];
        } else {
          var names := TableNames.TableNamesOf(result.rows);
          content := [Text(TableNames.SuccessHeader), TablesJson(names)];
        }
      }
      // finally
      if client != null {
        client.Release();
      }
      SessionLogged(log0, id, attempt, TableNames.NamesQueries(attempt), log);
    }
  }

  /** A client checked out of a pool. */
  class Client {
    const pool: Pool
    const id: nat
    var released: bool

    constructor (pool: Pool, id: nat)
      ensures this.pool == pool && this.id == id && !released
    {
      this.pool, this.id, released := pool, id, false;
    }

    /** `client.query`: the database's reply to the text, which is recorded. */
    method Query(sql: string, answer: string -> Reply) returns (reply: Reply)
      requires !released && pool.Valid()
      modifies pool
      ensures pool.Valid()
      ensures reply == answer(sql)
      ensures pool.log == old(pool.log) + [Queried(id, sql)]
      ensures pool.checkedOut == old(pool.checkedOut) && pool.nextId == old(pool.nextId)
    {
      reply := answer(sql);
      BalanceConcat(pool.log, [Queried(id, sql)]);
      pool.log := pool.log + [Queried(id, sql)];
    }

    /** The `try` body of the table-schema tool: the columns, indexes and
        triggers queries in turn, stopping at the first failure. */
    method QuerySchema(table: string, answer: string -> Reply, stringify: seq<Row> -> string)
      returns (content: Content)
      requires !released && pool.Valid()
      modifies pool
      ensures pool.Valid()
      ensures pool.checkedOut == old(pool.checkedOut) && pool.nextId == old(pool.nextId)
      ensures pool.log == old(pool.log) + Issued(id, TableSchema.SchemaQueries(table, answer))
      ensures content == TableSchema.SchemaContent(table, Connected, answer, stringify)
    {
      var columns := Query(TableSchema.Splice(TableSchema.ColumnsQuery, table), answer);
      if columns.Failure? {
        content := TableSchema.SchemaFailure(columns.message);
        return;
      }
      var indexes := Query(TableSchema.Splice(TableSchema.IndexesQuery, table), answer);
      if indexes.Failure? {
        content := TableSchema.SchemaFailure(indexes.message);
        return;
      }
      var triggers := Query(TableSchema.Splice(TableSchema.TriggersQuery, table), answer);
      if triggers.Failure? {
        content := TableSchema.SchemaFailure(triggers.message);
      } else {
        content := TableSchema.SchemaSuccess(stringify(columns.rows), stringify(indexes.rows),
                                             stringify(triggers.rows));
      }
    }

    /** `client.release`: gives the client back; a client is released at most once. */
    method Release()
      requires !released && pool.checkedOut > 0 && pool.Valid()
      modifies this, pool
      ensures pool.Valid()
      ensures released
      ensures pool.checkedOut == old(pool.checkedOut) - 1
      ensures pool.log == old(pool.log) + [Released(id)]
      ensures pool.nextId == old(pool.nextId)
    {
      released := true;
      BalanceConcat(pool.log, [Released(id)]);
      pool.checkedOut := pool.checkedOut - 1;
      pool.log := pool.log + [Released(id)];
    }
  }

  /** A call's events appended to a valid history leave the balance as it was. */
  lemma SessionLogged(log0: seq<Event>, id: nat, attempt: Attempt, sqls: seq<string>, log: seq<Event>)
    requires log == log0 + Session(id, attempt, sqls)
    ensures Balance(log) == Balance(log0)
  {
    BalanceConcat(log0, Session(id, attempt, sqls));
    SessionBalanced(id, attempt, sqls);
  }
}

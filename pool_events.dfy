/** What happens between a tool and the connection pool during one call,
    recorded as events, and the balance of checked-out connections those
    events imply. */
module PoolEvents {
  import opened ToolContent

  /** How the pool answers a request for a client: a client, or an error. */
  datatype Attempt = Connected | Refused(message: string)

  /** How the database answers one query: its rows, or an error. */
  datatype Reply = Rows(rows: seq<Row>) | Failure(message: string)

  /** One step of pool use, tagged with the client it concerns. */
  datatype Event = Acquired(client: nat) | Queried(client: nat, sql: string) | Released(client: nat)

  /** How an event changes the number of checked-out clients. */
  function Delta(e: Event): int
  {
    match e
    case Acquired(_) => 1
    case Queried(_, _) => 0
    case Released(_) => -1
  }

  /** Clients acquired and not yet released over a log. */
  function Balance(log: seq<Event>): int
  {
    if log == [] then 0 else Balance(log[..|log| - 1]) + Delta(log[|log| - 1])
  }

  /** Number of releases of the given client in a log. */
  function ReleasesOf(log: seq<Event>, client: nat): nat
  {
    if log == [] then 0
    else ReleasesOf(log[..|log| - 1], client) + (if log[|log| - 1] == Released(client) then 1 else 0)
  }

  /** The query texts of a log, in order. */
  function QueriesOf(log: seq<Event>): seq<string>
  {
    if log == [] then []
    else QueriesOf(log[..|log| - 1]) + (if log[|log| - 1].Queried? then [log[|log| - 1].sql] else [])
  }

  /** The query events a client issues for the given texts, in order. */
  function Issued(client: nat, sqls: seq<string>): seq<Event>
  {
    seq(|sqls|, k requires 0 <= k < |sqls| => Queried(client, sqls[k]))
  }

  /** The events of one tool call: nothing if the pool refused a client;
      otherwise acquire, the queries issued, and the release in `finally`. */
  function Session(client: nat, attempt: Attempt, sqls: seq<string>): seq<Event>
  {
    if attempt.Refused? then [] else [Acquired(client)] + Issued(client, sqls) + [Released(client)]
  }

  lemma {:induction false} BalanceConcat(a: seq<Event>, b: seq<Event>)
    ensures Balance(a + b) == Balance(a) + Balance(b)
    decreases |b|
  {
    if b == [] {
      assert a + b == a;
    } else {
      var b' := b[..|b| - 1];
      assert (a + b)[..|a + b| - 1] == a + b';
      assert (a + b)[|a + b| - 1] == b[|b| - 1];
      BalanceConcat(a, b');
    }
  }

  lemma {:induction false} ReleasesConcat(a: seq<Event>, b: seq<Event>, client: nat)
    ensures ReleasesOf(a + b, client) == ReleasesOf(a, client) + ReleasesOf(b, client)
    decreases |b|
  {
    if b == [] {
      assert a + b == a;
    } else {
      var b' := b[..|b| - 1];
      assert (a + b)[..|a + b| - 1] == a + b';
      assert (a + b)[|a + b| - 1] == b[|b| - 1];
      ReleasesConcat(a, b', client);
    }
  }

  lemma {:induction false} QueriesConcat(a: seq<Event>, b: seq<Event>)
    ensures QueriesOf(a + b) == QueriesOf(a) + QueriesOf(b)
    decreases |b|
  {
    if b == [] {
      assert a + b == a;
    } else {
      var b' := b[..|b| - 1];
      assert (a + b)[..|a + b| - 1] == a + b';
      assert (a + b)[|a + b| - 1] == b[|b| - 1];
      QueriesConcat(a, b');
    }
  }

  /** Issuing queries neither acquires nor releases, and records the texts in order. */
  lemma {:induction false} IssuedFacts(client: nat, sqls: seq<string>)
    ensures Balance(Issued(client, sqls)) == 0
    ensures ReleasesOf(Issued(client, sqls), client) == 0
    ensures QueriesOf(Issued(client, sqls)) == sqls
    decreases |sqls|
  {
    if sqls != [] {
      var s' := sqls[..|sqls| - 1];
      assert Issued(client, sqls)[..|sqls| - 1] == Issued(client, s');
      IssuedFacts(client, s');
      assert sqls == s' + [sqls[|sqls| - 1]];
    }
  }

  /** Every call leaves the number of checked-out clients as it found it. */
  lemma SessionBalanced(client: nat, attempt: Attempt, sqls: seq<string>)
    ensures Balance(Session(client, attempt, sqls)) == 0
  {
    if attempt.Connected? {
      IssuedFacts(client, sqls);
      BalanceConcat([Acquired(client)], Issued(client, sqls));
      BalanceConcat([Acquired(client)] + Issued(client, sqls), [Released(client)]);
    }
  }

  /** The client is released exactly once if the pool handed it out, never
      otherwise, and the release is the last event of the call. */
  lemma ReleasedOnceIffConnected(client: nat, attempt: Attempt, sqls: seq<string>)
    ensures ReleasesOf(Session(client, attempt, sqls), client) == if attempt.Connected? then 1 else 0
    ensures attempt.Connected? ==> Session(client, attempt, sqls)[|Session(client, attempt, sqls)| - 1] == Released(client)
  {
    if attempt.Connected? {
      IssuedFacts(client, sqls);
      ReleasesConcat([Acquired(client)], Issued(client, sqls), client);
      ReleasesConcat([Acquired(client)] + Issued(client, sqls), [Released(client)], client);
    }
  }

  /** The queries of a call are exactly the given texts, in order, and only
      when the pool handed out a client. */
  lemma SessionQueries(client: nat, attempt: Attempt, sqls: seq<string>)
    ensures QueriesOf(Session(client, attempt, sqls)) == if attempt.Connected? then sqls else []
  {
    if attempt.Connected? {
      IssuedFacts(client, sqls);
      QueriesConcat([Acquired(client)], Issued(client, sqls));
      QueriesConcat([Acquired(client)] + Issued(client, sqls), [Released(client)]);
    }
  }

  /** During a call at most one client is out and none is released before
      it was acquired: every prefix of the call's events has balance 0 or 1. */
  lemma SessionPrefixBalance(client: nat, attempt: Attempt, sqls: seq<string>, k: nat)
    requires k <= |Session(client, attempt, sqls)|
    ensures 0 <= Balance(Session(client, attempt, sqls)[..k]) <= 1
    ensures 0 < k < |Session(client, attempt, sqls)| ==> Balance(Session(client, attempt, sqls)[..k]) == 1
  {
    var s := Session(client, attempt, sqls);
    if attempt.Connected? && k > 0 {
      var qs := Issued(client, sqls);
      if k <= 1 + |qs| {
        assert s[..k] == [Acquired(client)] + qs[..k - 1];
        IssuedFacts(client, sqls[..k - 1]);
        assert qs[..k - 1] == Issued(client, sqls[..k - 1]);
        BalanceConcat([Acquired(client)], qs[..k - 1]);
      } else {
        assert s[..k] == s;
        SessionBalanced(client, attempt, sqls);
      }
    }
  }
}

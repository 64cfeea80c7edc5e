/**
 * Connection scopes (python-decorators-0x01/1-with_db_connection.py and the
 * copies of `with_db_connection` in 2-transactional.py, 3-retry_on_failure.py
 * and 4-cache_query.py): open a connection, call the wrapped function with
 * it, commit or roll back, and always close.
 *
 * A connection is an object that records the commands issued on it. What the
 * database driver does is left out; each command may raise, as fixed by the
 * connection's `Faults`, and the wrapped function is an oracle `Outcome`.
 */
module Connection {
  import opened Python

  /** A command issued on a connection. `Invoke` marks a call of the wrapped function with it. */
  datatype Command = Invoke | Commit | Rollback | Close | Execute(sql: string)

  /** The exception, if any, the driver raises for each command. */
  datatype Faults = Faults(commit: Option<Error>, rollback: Option<Error>, close: Option<Error>, execute: map<string, Error>)

  const NoFaults: Faults := Faults(None, None, None, map[])

  function FaultOf(f: Faults, c: Command): Option<Error> {
    match c
    case Invoke => None
    case Commit => f.commit
    case Rollback => f.rollback
    case Close => f.close
    case Execute(sql) => if sql in f.execute then Some(f.execute[sql]) else None
  }

  /** Number of times `c` occurs in `log`. */
  function Count(log: seq<Command>, c: Command): nat {
    if log == [] then 0
    else (if log[0] == c then 1 else 0) + Count(log[1..], c)
  }

  lemma {:induction false} CountAppend(a: seq<Command>, b: seq<Command>, c: Command)
    ensures Count(a + b, c) == Count(a, c) + Count(b, c)
    decreases |a|
  {
    if a == [] {
      assert a + b == b;
    } else {
      CountAppend(a[1..], b, c);
      assert (a + b)[1..] == a[1..] + b;
    }
  }

  lemma {:induction false} CountAbsent(log: seq<Command>, c: Command)
    requires c !in log
    ensures Count(log, c) == 0
    decreases |log|
  {
    if log != [] {
      assert forall i :: 0 <= i < |log| - 1 ==> log[1..][i] == log[i + 1];
      CountAbsent(log[1..], c);
    }
  }

  class Connection {
    const path: Value
    const faults: Faults
    var log: seq<Command>

    constructor (path: Value, faults: Faults)
      ensures this.path == path && this.faults == faults && log == []
    {
      this.path := path;
      this.faults := faults;
      log := [];
    }

    /**
     * Issues one command through an object whose methods raise as `f` says:
     * the connection's own `faults`, or those of the value a caller holds in
     * its place (a missing method raises AttributeError). The log records
     * every command attempted.
     */
    method Issue(c: Command, f: Faults) returns (err: Option<Error>)
      modifies this
      ensures log == old(log) + [c] && err == FaultOf(f, c)
    {
      log := log + [c];
      err := FaultOf(f, c);
    }

    /**
     * `transactional`'s protocol once the wrapped function has returned or
     * raised: commit on return, and roll back when an `Exception` (the
     * function's or the commit's) reaches the handler.
     */
    method Resolve(body: Outcome, f: Faults) returns (out: Outcome)
      modifies this
      ensures log == old(log) + Settle(body, f).log
      ensures out == Settle(body, f).out
    {
      var pending := body;
      if body.Returned? {
        var err := Issue(Commit, f);
        if err.Some? {
          pending := Raised(err.value);
        }
      }
      if pending.Raised? && IsException(pending.error) {
        var err := Issue(Rollback, f);
        if err.Some? {
          pending := Raised(err.value);
        }
      }
      out := pending;
    }

    /**
     * The end of a scope once the wrapped function has returned or raised:
     * `Resolve` for committing scopes, then close in `finally`.
     */
    method Conclude(p: Protocol, body: Outcome) returns (out: Outcome)
      modifies this
      ensures log == old(log) + Closing(p, body, faults).log
      ensures out == Closing(p, body, faults).out
    {
      var pending := body;
      if p == CommitOrRollback {
        pending := Resolve(body, faults);
      }
      var err := Issue(Close, faults);
      out := if err.Some? then Raised(err.value) else pending;
    }
  }

  /**
   * `CommitOrRollback`: the scopes of 1-with_db_connection.py. `CloseOnly`: the
   * copies of `with_db_connection` in the other decorator files, which neither
   * commit nor roll back.
   */
  datatype Protocol = CommitOrRollback | CloseOnly

  /** Commands issued after the wrapped function ends, and how the wrapper ends. */
  datatype Trace = Trace(log: seq<Command>, out: Outcome)

  /** What reaches the `except` clauses: the function's exception, or else the commit's. */
  function Pending(body: Outcome, f: Faults): Outcome {
    if body.Returned? && f.commit.Some? then Raised(f.commit.value) else body
  }

  /** An `Exception` reached the handler, so the transaction is rolled back. */
  predicate RollsBack(body: Outcome, f: Faults) {
    Pending(body, f).Raised? && IsException(Pending(body, f).error)
  }

  /**
   * Commit-or-rollback: commit exactly once when the function returned, and
   * no commit after a failure; roll back exactly once when an `Exception`
   * (including one raised by the commit) reached the handler, and never for a
   * `KeyboardInterrupt`; re-raise that exception unchanged, or return the
   * result unchanged, unless the rollback itself raises.
   */
  function Settle(body: Outcome, f: Faults): (t: Trace)
    ensures Count(t.log, Commit) == (if body.Returned? then 1 else 0)
    ensures Count(t.log, Rollback) == (if RollsBack(body, f) then 1 else 0)
    ensures Invoke !in t.log && Close !in t.log
    ensures Commit in t.log && Rollback in t.log ==> t.log == [Commit, Rollback]
    ensures body.Returned? && f.commit.None? ==> t.out == body
    ensures body.Raised? && (f.rollback.None? || !IsException(body.error)) ==> t.out == body
    ensures body.Returned? && f.commit.Some? && (f.rollback.None? || !IsException(f.commit.value)) ==>
      t.out == Raised(f.commit.value)
    ensures RollsBack(body, f) && f.rollback.Some? ==> t.out == Raised(f.rollback.value)
  {
    var rolls := RollsBack(body, f);
    var log :=
      if body.Returned? && rolls then [Commit, Rollback]
      else if body.Returned? then [Commit]
      else if rolls then [Rollback]
      else [];
    Trace(log, if rolls && f.rollback.Some? then Raised(f.rollback.value) else Pending(body, f))
  }

  /**
   * The end of a scope. It closes exactly once, as its last command, after
   * the commit-or-rollback of committing scopes; the close's own exception,
   * if any, replaces the outcome.
   */
  function Closing(p: Protocol, body: Outcome, f: Faults): (t: Trace)
    ensures |t.log| > 0 && t.log[|t.log| - 1] == Close && Count(t.log, Close) == 1
    ensures Count(t.log, Commit) == (if p == CommitOrRollback && body.Returned? then 1 else 0)
    ensures Count(t.log, Rollback) == (if p == CommitOrRollback && RollsBack(body, f) then 1 else 0)
    ensures Invoke !in t.log
    ensures f.close.Some? ==> t.out == Raised(f.close.value)
    ensures f.close.None? && p == CloseOnly ==> t.out == body
  {
    var settled := if p == CommitOrRollback then Settle(body, f) else Trace([], body);
    CountAppend(settled.log, [Close], Close);
    CountAppend(settled.log, [Close], Commit);
    CountAppend(settled.log, [Close], Rollback);
    Trace(settled.log + [Close], if f.close.Some? then Raised(f.close.value) else settled.out)
  }

  /** `kwargs.pop('db_path', 'users.db')`. */
  function DbPath(kwargs: map<string, Value>): Value {
    if "db_path" in kwargs then kwargs["db_path"] else StrV("users.db")
  }

  /** `sqlite3.connect(path)`: a fresh connection, or the driver's exception. */
  method Open(path: Value, connectFault: Option<Error>, faults: Faults) returns (conn: Connection?, err: Option<Error>)
    ensures connectFault.Some? ==> conn == null && err == connectFault
    ensures connectFault.None? ==> (conn != null && fresh(conn) && err.None?
      && conn.path == path && conn.faults == faults && conn.log == [])
  {
    if connectFault.Some? {
      return null, connectFault;
    }
    conn := new Connection(path, faults);
    err := None;
  }

  /**
   * One connection scope around one call of the wrapped function: if connect
   * raises, nothing else happens and the error propagates (`conn` stays None,
   * so neither rollback nor close runs); otherwise the function is called
   * once with the connection and the scope ends as `Closing` says.
   */
  method Scope(p: Protocol, path: Value, connectFault: Option<Error>, faults: Faults, body: Outcome)
    returns (conn: Connection?, out: Outcome)
    ensures connectFault.Some? ==> conn == null && out == Raised(connectFault.value)
    ensures connectFault.None? ==> (conn != null && fresh(conn) && conn.path == path && conn.faults == faults
      && conn.log == [Invoke] + Closing(p, body, faults).log && out == Closing(p, body, faults).out)
  {
    var err;
    conn, err := Open(path, connectFault, faults);
    if conn == null {
      return null, Raised(err.value);
    }
    var _ := conn.Issue(Invoke, conn.faults);
    out := conn.Conclude(p, body);
  }

  /**
   * `with_db_connection` of 1-with_db_connection.py: pops `db_path` (default
   * 'users.db') before calling the function with the remaining keywords, then
   * commits on success, rolls back on an exception, and always closes.
   */
  method WithDbConnection(kwargs: map<string, Value>, connectFault: Option<Error>, faults: Faults, body: Outcome)
    returns (conn: Connection?, passed: map<string, Value>, out: Outcome)
    ensures passed == kwargs - {"db_path"} && "db_path" !in passed
    ensures connectFault.Some? ==> conn == null && out == Raised(connectFault.value)
    ensures connectFault.None? ==> (conn != null && fresh(conn) && conn.path == DbPath(kwargs)
      && conn.log == [Invoke] + Closing(CommitOrRollback, body, faults).log
      && out == Closing(CommitOrRollback, body, faults).out)
  {
    passed := kwargs - {"db_path"};
    conn, out := Scope(CommitOrRollback, DbPath(kwargs), connectFault, faults, body);
  }

  /**
   * `with_db_connection_configurable(db_path)`: the same protocol on a path
   * fixed by the decorator; the keywords are passed through untouched.
   */
  method WithDbConnectionConfigurable(dbPath: Value, connectFault: Option<Error>, faults: Faults, body: Outcome)
    returns (conn: Connection?, out: Outcome)
    ensures connectFault.Some? ==> conn == null && out == Raised(connectFault.value)
    ensures connectFault.None? ==> (conn != null && fresh(conn) && conn.path == dbPath
      && conn.log == [Invoke] + Closing(CommitOrRollback, body, faults).log
      && out == Closing(CommitOrRollback, body, faults).out)
  {
    conn, out := Scope(CommitOrRollback, dbPath, connectFault, faults, body);
  }

  /**
   * The `db_connection(db_path)` context manager: the `with` block (its
   * outcome is `block`) runs where the generator yields; the connection is
   * committed after the block, rolled back if it raises, and always closed.
   */
  method DbConnectionContext(dbPath: Value, connectFault: Option<Error>, faults: Faults, block: Outcome)
    returns (conn: Connection?, out: Outcome)
    ensures connectFault.Some? ==> conn == null && out == Raised(connectFault.value)
    ensures connectFault.None? ==> (conn != null && fresh(conn) && conn.path == dbPath
      && conn.log == [Invoke] + Closing(CommitOrRollback, block, faults).log
      && out == Closing(CommitOrRollback, block, faults).out)
  {
    conn, out := Scope(CommitOrRollback, dbPath, connectFault, faults, block);
  }

  /**
   * The `with_db_connection` copies in 2-transactional.py, 3-retry_on_failure.py
   * and 4-cache_query.py: pop `db_path`, call, re-raise, and always close;
   * they never commit and never roll back.
   */
  method WithDbConnectionCloseOnly(kwargs: map<string, Value>, connectFault: Option<Error>, faults: Faults, body: Outcome)
    returns (conn: Connection?, passed: map<string, Value>, out: Outcome)
    ensures passed == kwargs - {"db_path"}
    ensures connectFault.Some? ==> conn == null && out == Raised(connectFault.value)
    ensures connectFault.None? ==> (conn != null && fresh(conn) && conn.path == DbPath(kwargs)
      && conn.log == [Invoke, Close]
      && out == (if faults.close.Some? then Raised(faults.close.value) else body))
  {
    passed := kwargs - {"db_path"};
    conn, out := Scope(CloseOnly, DbPath(kwargs), connectFault, faults, body);
  }

  /** On return, a committing scope commits once, then closes once, and returns the result unchanged. */
  lemma SuccessCommitsThenCloses(body: Outcome, f: Faults)
    requires body.Returned? && f.commit.None? && f.close.None?
    ensures Closing(CommitOrRollback, body, f) == Trace([Commit, Close], body)
  {
  }

  /**
   * When the function raises an `Exception`, a committing scope rolls back,
   * closes, and re-raises the same exception; it never commits after a failure.
   */
  lemma FailureRollsBackThenCloses(body: Outcome, f: Faults)
    requires body.Raised? && IsException(body.error) && f.rollback.None? && f.close.None?
    ensures Closing(CommitOrRollback, body, f) == Trace([Rollback, Close], body)
  {
  }

  /** A failing commit is rolled back, and its own exception is the one re-raised. */
  lemma FailedCommitRollsBack(body: Outcome, f: Faults)
    requires body.Returned? && f.commit.Some? && IsException(f.commit.value) && f.rollback.None? && f.close.None?
    ensures Closing(CommitOrRollback, body, f) == Trace([Commit, Rollback, Close], Raised(f.commit.value))
  {
  }

  /** `except Exception` does not catch KeyboardInterrupt: the scope only closes and lets it through. */
  lemma InterruptIsNotRolledBack(p: Protocol, msg: string, f: Faults)
    requires f.close.None?
    ensures Closing(p, Raised(PyError(KeyboardInterrupt, msg)), f) == Trace([Close], Raised(PyError(KeyboardInterrupt, msg)))
  {
    assert !IsSubclass(BaseException, Exception);
  }

  /** Across a whole scope, the function is called once and the connection closed once. */
  lemma ScopeCallsOnceClosesOnce(p: Protocol, body: Outcome, f: Faults)
    ensures Count([Invoke] + Closing(p, body, f).log, Invoke) == 1
    ensures Count([Invoke] + Closing(p, body, f).log, Close) == 1
  {
    var t := Closing(p, body, f);
    CountAppend([Invoke], t.log, Invoke);
    CountAppend([Invoke], t.log, Close);
    CountAbsent(t.log, Invoke);
  }
}

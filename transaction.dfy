/**
 * Transaction guards (python-decorators-0x01/2-transactional.py): the
 * `transactional` decorator, which validates its connection argument and then
 * commits or rolls back around the call; the savepoint variant, which brackets
 * the call with SAVEPOINT / RELEASE / ROLLBACK TO statements; and the counting
 * and validation in the example functions `bulk_update_users` and
 * `create_user_with_validation`.
 *
 * The decorator's first positional argument is the connection; the model
 * passes that connection object as `conn` and its Python value as `args[0]`.
 */
module Transaction {
  import opened Python
  import opened Text
  import opened Connection

  const NoConnectionArg: string := "Transactional decorator requires a database connection as first argument"
  const NotAConnection: string := "First argument must be a database connection object"

  /** The Python value a wrapped function receives for a connection opened by `with_db_connection`. */
  const ConnectionHandle: Value := ObjectV(0, {"execute", "cursor", "commit", "rollback", "close"})

  /** `transactional`'s check on its first argument (lines 70-76). */
  predicate LooksLikeConnection(v: Value) {
    HasAttr(v, "execute") || HasAttr(v, "cursor")
  }

  /** The AttributeError Python raises for a method `name` the object lacks (the message is reduced to the name). */
  function MissingMethod(name: string): Error {
    PyError(AttributeError, name)
  }

  /**
   * What `conn.commit()` and `conn.rollback()` raise when `conn = args[0]` is
   * the value `v` (lines 88 and 97/104): AttributeError for a method `v` lacks,
   * otherwise what the driver `f` raises.
   */
  function ArgumentFaults(v: Value, f: Faults): Faults {
    f.(commit := if HasAttr(v, "commit") then f.commit else Some(MissingMethod("commit")),
       rollback := if HasAttr(v, "rollback") then f.rollback else Some(MissingMethod("rollback")))
  }

  /**
   * `transactional`: with no positional argument, or a first argument with
   * neither `execute` nor `cursor`, it raises ValueError without calling the
   * function or touching the connection. Otherwise it calls the function
   * once, then commits or rolls back through `args[0]` as `Settle` says.
   */
  method Transactional(args: seq<Value>, conn: Connection, body: Outcome) returns (out: Outcome)
    modifies conn
    ensures args == [] ==> out == Raised(PyError(ValueError, NoConnectionArg)) && conn.log == old(conn.log)
    ensures args != [] && !LooksLikeConnection(args[0]) ==>
      out == Raised(PyError(ValueError, NotAConnection)) && conn.log == old(conn.log)
    ensures args != [] && LooksLikeConnection(args[0]) ==>
      var t := Settle(body, ArgumentFaults(args[0], conn.faults));
      conn.log == old(conn.log) + [Invoke] + t.log && out == t.out
  {
    if args == [] {
      return Raised(PyError(ValueError, NoConnectionArg));
    }
    if !LooksLikeConnection(args[0]) {
      return Raised(PyError(ValueError, NotAConnection));
    }
    var _ := conn.Issue(Invoke, conn.faults);
    out := conn.Resolve(body, ArgumentFaults(args[0], conn.faults));
  }

  /** A connection handle has every method, so the driver's faults are the ones met. */
  lemma HandleKeepsFaults(f: Faults)
    ensures ArgumentFaults(ConnectionHandle, f) == f
  {
    assert HasAttr(ConnectionHandle, "commit") && HasAttr(ConnectionHandle, "rollback");
  }

  /**
   * A first argument with `execute` but no `commit` or `rollback`: after a
   * return, the commit raises AttributeError, the handler's rollback raises
   * AttributeError again, and that one propagates.
   */
  lemma {:induction false} CommitOnCursorLike(v: Value, body: Outcome, f: Faults)
    requires LooksLikeConnection(v) && !HasAttr(v, "commit") && !HasAttr(v, "rollback")
    requires body.Returned?
    ensures Settle(body, ArgumentFaults(v, f)) == Trace([Commit, Rollback], Raised(MissingMethod("rollback")))
  {
    assert IsException(MissingMethod("commit"));
  }

  /**
   * `@with_db_connection` over `@transactional`, as on the example functions:
   * the connection is opened once, the function is called with it once, the
   * transaction is committed or rolled back, and the connection is closed
   * once, last.
   */
  method ConnectedTransactional(kwargs: map<string, Value>, rest: seq<Value>, connectFault: Option<Error>,
                                faults: Faults, body: Outcome)
    returns (conn: Connection?, out: Outcome)
    ensures connectFault.Some? ==> conn == null && out == Raised(connectFault.value)
    ensures connectFault.None? ==> (conn != null && fresh(conn) && conn.path == DbPath(kwargs)
      && conn.log == [Invoke] + Settle(body, faults).log + [Close]
      && out == (if faults.close.Some? then Raised(faults.close.value) else Settle(body, faults).out))
  {
    var err;
    conn, err := Open(DbPath(kwargs), connectFault, faults);
    if conn == null {
      return null, Raised(err.value);
    }
    HandleKeepsFaults(faults);
    var settled := Transactional([ConnectionHandle] + rest, conn, body);
    out := conn.Conclude(CloseOnly, settled);
  }

  /** `savepoint_name or f"sp_{func_name}_{id(func)}"`; the empty name stands for None. */
  function SavepointName(given: string, funcName: string, funcId: nat): string {
    if given != "" then given else "sp_" + funcName + "_" + Decimal(funcId)
  }

  function SavepointSql(name: string): string { "SAVEPOINT " + name }
  function ReleaseSql(name: string): string { "RELEASE SAVEPOINT " + name }
  function RollbackToSql(name: string): string { "ROLLBACK TO SAVEPOINT " + name }

  /** `except sqlite3.Error`. */
  predicate IsSqliteError(e: Error) {
    IsSubclass(e.cls, SqliteError)
  }

  /**
   * The bracketed call: SAVEPOINT, then (if that succeeded) the call, then
   * (if the call returned) RELEASE SAVEPOINT; the outcome is the first
   * exception raised, or the function's result.
   */
  function Attempt(name: string, body: Outcome, f: Faults): (t: Trace)
    ensures |t.log| > 0 && t.log[0] == Execute(SavepointSql(name))
    ensures Count(t.log, Invoke) == (if FaultOf(f, Execute(SavepointSql(name))).None? then 1 else 0)
    ensures t.out.Returned? ==> t.out == body
  {
    var sp, rel := Execute(SavepointSql(name)), Execute(ReleaseSql(name));
    if FaultOf(f, sp).Some? then Trace([sp], Raised(FaultOf(f, sp).value))
    else
      CountAppend([sp], [Invoke], Invoke);
      CountAppend([sp, Invoke], [rel], Invoke);
      assert [sp] + [Invoke] == [sp, Invoke] && [sp, Invoke] + [rel] == [sp, Invoke, rel];
      if body.Raised? then Trace([sp, Invoke], body)
      else if FaultOf(f, rel).Some? then Trace([sp, Invoke, rel], Raised(FaultOf(f, rel).value))
      else Trace([sp, Invoke, rel], body)
  }

  /**
   * The recovery from an exception `e`: ROLLBACK TO SAVEPOINT, then (if that
   * succeeded) RELEASE SAVEPOINT; an sqlite error from either is swallowed and
   * `e` re-raised, any other error replaces it.
   */
  function Recover(name: string, e: Error, f: Faults): (t: Trace)
    ensures |t.log| > 0 && t.log[0] == Execute(RollbackToSql(name)) && Invoke !in t.log
    ensures t.out.Raised?
  {
    var rbt, rel := Execute(RollbackToSql(name)), Execute(ReleaseSql(name));
    if FaultOf(f, rbt).Some? then
      Trace([rbt], if IsSqliteError(FaultOf(f, rbt).value) then Raised(e) else Raised(FaultOf(f, rbt).value))
    else
      Trace([rbt, rel], if FaultOf(f, rel).Some? && !IsSqliteError(FaultOf(f, rel).value) then Raised(FaultOf(f, rel).value) else Raised(e))
  }

  /**
   * The savepoint protocol: the bracketed call, followed by the recovery when
   * it ended in an `Exception`. The function is called once when SAVEPOINT
   * succeeds and not at all otherwise; no commit, rollback or close is issued.
   */
  function SavepointRun(name: string, body: Outcome, f: Faults): (t: Trace)
    ensures |t.log| > 0 && t.log[0] == Execute(SavepointSql(name))
    ensures Count(t.log, Invoke) == (if FaultOf(f, Execute(SavepointSql(name))).None? then 1 else 0)
    ensures t.out.Returned? ==> t.out == body
  {
    var a := Attempt(name, body, f);
    if a.out.Raised? && IsException(a.out.error) then
      var r := Recover(name, a.out.error, f);
      CountAppend(a.log, r.log, Invoke);
      CountAbsent(r.log, Invoke);
      Trace(a.log + r.log, r.out)
    else
      a
  }

  /**
   * What `conn.execute(...)` raises for the three savepoint statements when
   * `conn = args[0]` is the value `v` (lines 135, 140, 147 and 148):
   * AttributeError when `v` has no `execute`, otherwise what the driver `f`
   * raises.
   */
  function StatementFaults(v: Value, name: string, f: Faults): (g: Faults)
    ensures g.commit == f.commit && g.rollback == f.rollback && g.close == f.close
    ensures HasAttr(v, "execute") ==> g == f
    ensures !HasAttr(v, "execute") ==>
      forall sql :: sql in {SavepointSql(name), ReleaseSql(name), RollbackToSql(name)} ==>
        FaultOf(g, Execute(sql)) == Some(MissingMethod("execute"))
  {
    if HasAttr(v, "execute") then f
    else
      var m := MissingMethod("execute");
      f.(execute := f.execute[SavepointSql(name) := m][ReleaseSql(name) := m][RollbackToSql(name) := m])
  }

  /**
   * `transactional_with_savepoints(savepoint_name)`: ValueError without any
   * statement when there is no positional argument; otherwise the savepoint
   * protocol through `args[0]`.
   */
  method TransactionalWithSavepoints(savepointName: string, funcName: string, funcId: nat,
                                     args: seq<Value>, conn: Connection, body: Outcome)
    returns (out: Outcome)
    modifies conn
    ensures args == [] ==> out == Raised(PyError(ValueError, NoConnectionArg)) && conn.log == old(conn.log)
    ensures args != [] ==>
      var name := SavepointName(savepointName, funcName, funcId);
      var t := SavepointRun(name, body, StatementFaults(args[0], name, conn.faults));
      conn.log == old(conn.log) + t.log && out == t.out
  {
    if args == [] {
      return Raised(PyError(ValueError, NoConnectionArg));
    }
    var name := SavepointName(savepointName, funcName, funcId);
    var f := StatementFaults(args[0], name, conn.faults);
    var pending := AttemptSavepoint(name, conn, f, body);
    if pending.Raised? && IsException(pending.error) {
      out := RecoverSavepoint(name, conn, f, pending.error);
    } else {
      out := pending;
    }
  }

  method AttemptSavepoint(name: string, conn: Connection, f: Faults, body: Outcome) returns (out: Outcome)
    modifies conn
    ensures conn.log == old(conn.log) + Attempt(name, body, f).log
    ensures out == Attempt(name, body, f).out
  {
    var err := conn.Issue(Execute(SavepointSql(name)), f);
    if err.Some? {
      return Raised(err.value);
    }
    var _ := conn.Issue(Invoke, f);
    out := body;
    if body.Returned? {
      err := conn.Issue(Execute(ReleaseSql(name)), f);
      if err.Some? {
        out := Raised(err.value);
      }
    }
  }

  method RecoverSavepoint(name: string, conn: Connection, f: Faults, e: Error) returns (out: Outcome)
    modifies conn
    ensures conn.log == old(conn.log) + Recover(name, e, f).log
    ensures out == Recover(name, e, f).out
  {
    var err := conn.Issue(Execute(RollbackToSql(name)), f);
    if err.None? {
      err := conn.Issue(Execute(ReleaseSql(name)), f);
    }
    out := if err.Some? && !IsSqliteError(err.value) then Raised(err.value) else Raised(e);
  }

  /** On success the statements are exactly SAVEPOINT, the call, RELEASE SAVEPOINT, and the result is returned. */
  lemma SavepointSuccess(name: string, body: Outcome, f: Faults)
    requires body.Returned?
    requires FaultOf(f, Execute(SavepointSql(name))).None? && FaultOf(f, Execute(ReleaseSql(name))).None?
    ensures SavepointRun(name, body, f)
      == Trace([Execute(SavepointSql(name)), Invoke, Execute(ReleaseSql(name))], body)
  {
  }

  /**
   * On an `Exception` from the function, the call is followed by ROLLBACK TO
   * SAVEPOINT and then RELEASE SAVEPOINT for the same name; sqlite errors from
   * those are swallowed and the original exception is re-raised.
   */
  lemma SavepointFailure(name: string, body: Outcome, f: Faults)
    requires body.Raised? && IsException(body.error)
    requires FaultOf(f, Execute(SavepointSql(name))).None?
    requires var e := FaultOf(f, Execute(RollbackToSql(name))); e.None? || IsSqliteError(e.value)
    requires var e := FaultOf(f, Execute(ReleaseSql(name))); e.None? || IsSqliteError(e.value)
    ensures var t := SavepointRun(name, body, f);
      && t.out == body
      && t.log == [Execute(SavepointSql(name)), Invoke, Execute(RollbackToSql(name))]
        + (if FaultOf(f, Execute(RollbackToSql(name))).None? then [Execute(ReleaseSql(name))] else [])
  {
  }

  /**
   * A first argument without `execute`: the SAVEPOINT statement raises
   * AttributeError, the function is not called, the ROLLBACK TO in the
   * handler raises AttributeError again (not an sqlite error), and that one
   * propagates.
   */
  lemma {:induction false} SavepointWithoutExecute(name: string, v: Value, body: Outcome, f: Faults)
    requires !HasAttr(v, "execute")
    ensures SavepointRun(name, body, StatementFaults(v, name, f))
      == Trace([Execute(SavepointSql(name)), Execute(RollbackToSql(name))], Raised(MissingMethod("execute")))
  {
    var g := StatementFaults(v, name, f);
    assert FaultOf(g, Execute(SavepointSql(name))) == Some(MissingMethod("execute"));
    assert FaultOf(g, Execute(RollbackToSql(name))) == Some(MissingMethod("execute"));
    assert IsException(MissingMethod("execute")) && !IsSqliteError(MissingMethod("execute"));
  }

  /** The outcome of one `cursor.execute` in a loop: the statement's rowcount, or the driver's exception. */
  datatype ExecResult = RowCount(n: int) | ExecFailed(error: Error)

  /** How many of the first `n` statements matched a row (`cursor.rowcount > 0`). */
  function Matched(exec: nat -> ExecResult, n: nat): (c: nat)
    ensures c <= n
  {
    if n == 0 then 0
    else Matched(exec, n - 1) + (if exec(n - 1).RowCount? && exec(n - 1).n > 0 then 1 else 0)
  }

  /** The count is zero exactly when no statement matched a row. */
  lemma {:induction false} MatchedZero(exec: nat -> ExecResult, n: nat)
    ensures Matched(exec, n) == 0 <==> forall i :: 0 <= i < n ==> !(exec(i).RowCount? && exec(i).n > 0)
  {
    if n > 0 {
      MatchedZero(exec, n - 1);
    }
  }

  /** The count is `n` exactly when every statement matched a row. */
  lemma {:induction false} MatchedAll(exec: nat -> ExecResult, n: nat)
    ensures Matched(exec, n) == n <==> forall i :: 0 <= i < n ==> exec(i).RowCount? && exec(i).n > 0
  {
    if n > 0 {
      MatchedAll(exec, n - 1);
    }
  }

  const NoUsersUpdated: Error := PyError(ValueError, "No users were updated")

  /**
   * `bulk_update_users`: one UPDATE per `(user_id, new_email)` pair, with
   * parameters `(new_email, user_id)`; `exec(i)` is what the i-th statement
   * does. The result is the number of statements that matched a row, and a
   * count of 0 raises ValueError. A failing statement stops the loop and its
   * exception propagates.
   */
  method BulkUpdateUsers(updates: seq<(Value, Value)>, exec: nat -> ExecResult)
    returns (out: Outcome, executed: seq<seq<Value>>)
    ensures |executed| <= |updates|
    ensures forall i :: 0 <= i < |executed| ==> executed[i] == [updates[i].1, updates[i].0]
    ensures out.Raised? && out.error != NoUsersUpdated ==>
      |executed| > 0 && exec(|executed| - 1) == ExecFailed(out.error)
    ensures forall i :: 0 <= i < |executed| - 1 ==> exec(i).RowCount?
    ensures (forall i :: 0 <= i < |updates| ==> exec(i).RowCount?) ==>
      |executed| == |updates|
      && out == (if Matched(exec, |updates|) == 0 then Raised(NoUsersUpdated) else Returned(IntV(Matched(exec, |updates|))))
    ensures (exists i :: 0 <= i < |updates| && exec(i).ExecFailed?) ==>
      |executed| > 0 && exec(|executed| - 1).ExecFailed? && out == Raised(exec(|executed| - 1).error)
  {
    var updatedCount := 0;
    executed := [];
    var i := 0;
    while i < |updates|
      invariant 0 <= i <= |updates| && |executed| == i
      invariant forall j :: 0 <= j < i ==> executed[j] == [updates[j].1, updates[j].0]
      invariant forall j :: 0 <= j < i ==> exec(j).RowCount?
      invariant updatedCount == Matched(exec, i)
    {
      var (userId, newEmail) := updates[i];
      executed := executed + [[newEmail, userId]];
      match exec(i)
      case ExecFailed(e) =>
        return Raised(e), executed;
      case RowCount(n) =>
        if n > 0 {
          updatedCount := updatedCount + 1;
        }
      i := i + 1;
    }
    if updatedCount == 0 {
      return Raised(NoUsersUpdated), executed;
    }
    out := Returned(IntV(updatedCount));
  }

  const SelectByEmail: string := "SELECT id FROM users WHERE email = ?"
  const InsertUser: string := "INSERT INTO users (name, email, age) VALUES (?, ?, ?)"

  /**
   * `create_user_with_validation`: an empty name or email, or an age outside
   * 0..150, is rejected with ValueError before any statement runs. The
   * SELECT then runs: `lookupFault` is what it raises, if anything, and
   * otherwise `emailTaken` is whether it found a row, which is rejected. The
   * INSERT runs last: `insertFault` is what it raises, if anything, and
   * otherwise the new row id is returned. A statement's exception
   * propagates. The empty string stands for any falsy name or email.
   */
  method CreateUserWithValidation(name: string, email: string, age: int, lookupFault: Option<Error>, emailTaken: bool,
                                  insertFault: Option<Error>, lastRowId: int)
    returns (out: Outcome, executed: seq<string>)
    ensures name == "" || email == "" ==>
      out == Raised(PyError(ValueError, "Name and email are required")) && executed == []
    ensures name != "" && email != "" && (age < 0 || age > 150) ==>
      out == Raised(PyError(ValueError, "Age must be between 0 and 150")) && executed == []
    ensures name != "" && email != "" && 0 <= age <= 150 && lookupFault.Some? ==>
      out == Raised(lookupFault.value) && executed == [SelectByEmail]
    ensures name != "" && email != "" && 0 <= age <= 150 && lookupFault.None? && emailTaken ==>
      out == Raised(PyError(ValueError, "User with email " + email + " already exists")) && executed == [SelectByEmail]
    ensures name != "" && email != "" && 0 <= age <= 150 && lookupFault.None? && !emailTaken && insertFault.Some? ==>
      out == Raised(insertFault.value) && executed == [SelectByEmail, InsertUser]
    ensures out.Returned? <==>
      name != "" && email != "" && 0 <= age <= 150 && lookupFault.None? && !emailTaken && insertFault.None?
    ensures out.Returned? ==> out.value == IntV(lastRowId) && executed == [SelectByEmail, InsertUser]
  {
    executed := [];
    if name == "" || email == "" {
      return Raised(PyError(ValueError, "Name and email are required")), executed;
    }
    if age < 0 || age > 150 {
      return Raised(PyError(ValueError, "Age must be between 0 and 150")), executed;
    }
    executed := executed + [SelectByEmail];
    if lookupFault.Some? {
      return Raised(lookupFault.value), executed;
    }
    if emailTaken {
      return Raised(PyError(ValueError, "User with email " + email + " already exists")), executed;
    }
    executed := executed + [InsertUser];
    if insertFault.Some? {
      return Raised(insertFault.value), executed;
    }
    out := Returned(IntV(lastRowId));
  }
}

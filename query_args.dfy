/**
 * How the logging decorators find "the query" and "the parameters" among a
 * call's arguments (python-decorators-0x01/0-log_queries.py), and what they
 * do around the call: log the whitespace-normalised query, call the wrapped
 * function once, and pass its result or exception through unchanged. The
 * search for the first matching argument is shared with the result cache.
 */
module QueryArgs {
  import opened Python
  import opened Text

  /** Position of the first element of `xs[from..]` that satisfies `p`. */
  function FirstIndexFrom(xs: seq<Value>, p: Value -> bool, from: nat): (r: Option<nat>)
    requires from <= |xs|
    ensures r.Some? ==>
      from <= r.value < |xs| && p(xs[r.value]) && forall j :: from <= j < r.value ==> !p(xs[j])
    ensures r.None? ==> forall j :: from <= j < |xs| ==> !p(xs[j])
    decreases |xs| - from
  {
    if from == |xs| then None
    else if p(xs[from]) then Some(from)
    else FirstIndexFrom(xs, p, from + 1)
  }

  /** Position of the first element of `xs` that satisfies `p`. */
  function FirstIndex(xs: seq<Value>, p: Value -> bool): Option<nat> {
    FirstIndexFrom(xs, p, 0)
  }

  /** The `for arg in args: if p(arg): ...; break` search. */
  method FindFirst(xs: seq<Value>, p: Value -> bool) returns (r: Option<nat>)
    ensures r == FirstIndex(xs, p)
  {
    var i := 0;
    while i < |xs|
      invariant 0 <= i <= |xs|
      invariant FirstIndexFrom(xs, p, i) == FirstIndex(xs, p)
    {
      if p(xs[i]) {
        return Some(i);
      }
      i := i + 1;
    }
    return None;
  }

  /** A string argument that mentions one of `keywords` once upper-cased. */
  predicate MentionsAny(v: Value, keywords: seq<string>) {
    v.StrV? && exists k :: 0 <= k < |keywords| && Contains(Upper(v.s), keywords[k])
  }

  /** The test the logging decorators use to recognise a query argument. */
  predicate IsStatementArg(v: Value) {
    MentionsAny(v, ["SELECT", "INSERT", "UPDATE", "DELETE"])
  }

  /**
   * The error raised when a non-string value is used as the query
   * (`query.split()` / `query.strip()`). Non-string queries are taken to
   * have neither method; bytes, which have both, are not modelled.
   */
  function NotAString(attr: string): Error {
    PyError(AttributeError, "object has no attribute '" + attr + "'")
  }

  /** What `log_queries` takes as the query (lines 31-45). */
  function LoggedQuery(args: seq<Value>, kwargs: map<string, Value>): Value {
    match FirstIndex(args, IsStatementArg)
    case Some(i) => args[i]
    case None => if kwargs != map[] then GetFirstTruthy(kwargs, ["query", "sql", "statement"]) else NoneV
  }

  /**
   * `log_queries`: finds the query, logs it normalised by `' '.join(q.split())`,
   * then calls the wrapped function exactly once and returns its result, or
   * re-raises its exception, unchanged. `run` is what the wrapped function does.
   * A truthy non-string query fails the normalisation before the call.
   */
  method LogQueries(args: seq<Value>, kwargs: map<string, Value>, run: Outcome)
    returns (logged: Option<string>, out: Outcome, invoked: bool)
    ensures var q := LoggedQuery(args, kwargs);
      && (Truthy(q) && !q.StrV? ==> !invoked && logged.None? && out == Raised(NotAString("split")))
      && (!Truthy(q) ==> invoked && logged.None? && out == run)
      && (q.StrV? && Truthy(q) ==> invoked && logged == Some(Collapse(q.s)) && out == run)
  {
    var query := NoneV;
    var found := FindFirst(args, IsStatementArg);
    if found.Some? {
      query := args[found.value];
    }
    if !Truthy(query) && kwargs != map[] {
      query := GetFirstTruthy(kwargs, ["query", "sql", "statement"]);
    }
    logged := None;
    if Truthy(query) {
      if !query.StrV? {
        return None, Raised(NotAString("split")), false;
      }
      logged := Some(Collapse(query.s));
    }
    invoked := true;
    out := run;
  }

  /**
   * The first positional string naming a statement wins, before any keyword;
   * otherwise `query`, then `sql`, then `statement` (log_queries).
   */
  lemma LoggedQueryPrecedence(args: seq<Value>, kwargs: map<string, Value>)
    ensures (exists i :: 0 <= i < |args| && IsStatementArg(args[i])) ==>
      exists i :: 0 <= i < |args| && IsStatementArg(args[i]) && LoggedQuery(args, kwargs) == args[i]
        && forall j :: 0 <= j < i ==> !IsStatementArg(args[j])
    ensures (forall i :: 0 <= i < |args| ==> !IsStatementArg(args[i])) && kwargs != map[] ==>
      LoggedQuery(args, kwargs) == GetFirstTruthy(kwargs, ["query", "sql", "statement"])
  {
  }

  /** The logged query has no leading, trailing or doubled whitespace and keeps the word sequence. */
  lemma LoggedQueryIsNormalised(q: string)
    ensures IsStripped(Collapse(q)) && NoDoubleSpace(Collapse(q)) && OnlyPlainSpaces(Collapse(q))
    ensures Words(Collapse(q)) == Words(q)
  {
    CollapseProperties(q);
  }

  /**
   * `log_queries_detailed`: the query is the first positional string naming a
   * statement, and the parameters are the argument right after it, only when
   * that is a list, tuple or dict (lines 126-135); with no such argument both
   * come from the keywords (lines 137-139). A truthy non-string query fails
   * `query.strip()` before the call; otherwise the wrapped function is called
   * once and its outcome passed through.
   */
  method LogQueriesDetailed(args: seq<Value>, kwargs: map<string, Value>, run: Outcome)
    returns (query: Value, params: Value, out: Outcome, invoked: bool)
    ensures match FirstIndex(args, IsStatementArg)
      case Some(i) =>
        && query == args[i]
        && params == (if i + 1 < |args| && IsParamsContainer(args[i + 1]) then args[i + 1] else NoneV)
      case None =>
        && query == GetFirstTruthy(kwargs, ["query", "sql"])
        && params == GetFirstTruthy(kwargs, ["params", "parameters"])
    ensures Truthy(query) && !query.StrV? ==> !invoked && out == Raised(NotAString("strip"))
    ensures !(Truthy(query) && !query.StrV?) ==> invoked && out == run
  {
    query, params := NoneV, NoneV;
    var i := 0;
    while i < |args|
      invariant 0 <= i <= |args|
      invariant FirstIndexFrom(args, IsStatementArg, i) == FirstIndex(args, IsStatementArg)
      invariant query == NoneV && params == NoneV
    {
      if IsStatementArg(args[i]) {
        query := args[i];
        if i + 1 < |args| && IsParamsContainer(args[i + 1]) {
          params := args[i + 1];
        }
        break;
      }
      i := i + 1;
    }
    if !Truthy(query) {
      query := GetFirstTruthy(kwargs, ["query", "sql"]);
      params := GetFirstTruthy(kwargs, ["params", "parameters"]);
    }
    if Truthy(query) && !query.StrV? {
      return query, params, Raised(NotAString("strip")), false;
    }
    invoked := true;
    out := run;
  }
}

/**
 * The dynamic `UPDATE ... SET` builder of `update_user`
 * (python-decorators-0x01/1-with_db_connection.py): one `column = ?`
 * assignment per field that is not None, in the order name, email, age, and
 * the parameters in the same order followed by the user id.
 */
module UpdateUser {
  import opened Python
  import opened Text

  /** A statement with its positional parameters. */
  datatype Statement = Statement(sql: string, params: seq<Value>)

  const NoFieldsToUpdate: Error := PyError(ValueError, "No fields to update")

  /** The fields to set, as `column = ?` assignments with their values: those given (not None), in the order name, email, age. */
  function Present(name: Value, email: Value, age: Value): seq<(string, Value)> {
    (if name != NoneV then [("name = ?", name)] else [])
    + (if email != NoneV then [("email = ?", email)] else [])
    + (if age != NoneV then [("age = ?", age)] else [])
  }

  /** The assignments of the fields, in order. */
  function Assignments(fields: seq<(string, Value)>): (a: seq<string>)
    ensures |a| == |fields|
    ensures forall k :: 0 <= k < |a| ==> a[k] == fields[k].0
  {
    seq(|fields|, k requires 0 <= k < |fields| => fields[k].0)
  }

  /** The values of the fields, in the same order. */
  function Values(fields: seq<(string, Value)>): (v: seq<Value>)
    ensures |v| == |fields|
    ensures forall k :: 0 <= k < |v| ==> v[k] == fields[k].1
  {
    seq(|fields|, k requires 0 <= k < |fields| => fields[k].1)
  }

  /** One more field adds its assignment and its value at the end. */
  lemma AddField(fields: seq<(string, Value)>, f: (string, Value))
    ensures Assignments(fields + [f]) == Assignments(fields) + [f.0]
    ensures Values(fields + [f]) == Values(fields) + [f.1]
  {
    assert Assignments(fields + [f])[|fields|] == f.0;
    assert Values(fields + [f])[|fields|] == f.1;
  }

  /** One `if value is not None` step: the assignment and the value are appended when the value is given. */
  method AddIfGiven(updates: seq<string>, params: seq<Value>, ghost fields: seq<(string, Value)>,
                    assignment: string, value: Value)
    returns (updates': seq<string>, params': seq<Value>, ghost fields': seq<(string, Value)>)
    requires updates == Assignments(fields) && params == Values(fields)
    ensures updates' == updates + (if value != NoneV then [assignment] else [])
    ensures params' == params + (if value != NoneV then [value] else [])
    ensures fields' == fields + (if value != NoneV then [(assignment, value)] else [])
    ensures updates' == Assignments(fields') && params' == Values(fields')
  {
    updates', params', fields' := updates, params, fields;
    if value != NoneV {
      AddField(fields, (assignment, value));
      updates' := updates + [assignment];
      params' := params + [value];
      fields' := fields + [(assignment, value)];
    }
  }

  /**
   * `update_user`'s query building: ValueError("No fields to update") when
   * all three fields are None, before anything is executed; otherwise the SET
   * clause joins the assignments of the given fields with ", ", and the
   * parameters are their values followed by `user_id`, so every `?` of the
   * statement has exactly one parameter.
   */
  method BuildUpdate(userId: Value, name: Value, email: Value, age: Value) returns (r: Result<Statement>)
    ensures r.Err? <==> name == NoneV && email == NoneV && age == NoneV
    ensures r.Err? ==> r.error == NoFieldsToUpdate
    ensures r.Ok? ==> var fields := Present(name, email, age);
      && r.value.sql == SetPrefix + Join(Assignments(fields), Separator) + WhereId
      && r.value.params == Values(fields) + [userId]
    ensures r.Ok? ==> CountChar(r.value.sql, '?') == |r.value.params|
  {
    var updates: seq<string> := [];
    var params: seq<Value> := [];
    ghost var fields: seq<(string, Value)> := [];
    assert Assignments(fields) == [] && Values(fields) == [];
    updates, params, fields := AddIfGiven(updates, params, fields, "name = ?", name);
    updates, params, fields := AddIfGiven(updates, params, fields, "email = ?", email);
    updates, params, fields := AddIfGiven(updates, params, fields, "age = ?", age);
    assert fields == Present(name, email, age);
    if updates == [] {
      return Err(NoFieldsToUpdate);
    }
    params := params + [userId];
    var sql := SetPrefix + Join(updates, Separator) + WhereId;
    PlaceholderCount(updates, userId);
    r := Ok(Statement(sql, params));
  }

  /** A string whose only `c` is its last character holds one `c`. */
  lemma EndsWithOnly(s: string, c: char)
    requires s != [] && s[|s| - 1] == c && c !in s[..|s| - 1]
    ensures CountChar(s, c) == 1
  {
    assert s == s[..|s| - 1] + [c];
    CountCharAbsent(s[..|s| - 1], c);
    CountCharAppend(s[..|s| - 1], [c], c);
    assert CountChar([c], c) == 1 by {
      assert [c][1..] == [];
    }
  }

  /** Each of the three assignments holds one `?`. */
  lemma AssignmentsHoldOne(updates: seq<string>)
    requires forall k :: 0 <= k < |updates| ==> updates[k] in ["name = ?", "email = ?", "age = ?"]
    ensures forall k :: 0 <= k < |updates| ==> CountChar(updates[k], '?') == 1
  {
    forall k | 0 <= k < |updates|
      ensures CountChar(updates[k], '?') == 1
    {
      var u := updates[k];
      assert '?' !in u[..|u| - 1];
      EndsWithOnly(u, '?');
    }
  }

  const SetPrefix: string := "UPDATE users SET "
  const WhereId: string := " WHERE id = ?"

  lemma PrefixHoldsNone()
    ensures CountChar(SetPrefix, '?') == 0
  {
    CountCharAbsent(SetPrefix, '?');
  }

  const Separator: string := ", "

  lemma SeparatorHoldsNone()
    ensures CountChar(Separator, '?') == 0
  {
    assert Separator[0] != '?' && Separator[1] != '?';
    CountCharAbsent(Separator, '?');
  }

  lemma WhereHoldsOne()
    ensures CountChar(WhereId, '?') == 1
  {
    assert '?' !in WhereId[..|WhereId| - 1];
    EndsWithOnly(WhereId, '?');
  }

  /** The text around the SET clause holds one `?`, for the id. */
  lemma FrameHoldsOne(body: string)
    ensures CountChar(SetPrefix + body + WhereId, '?') == CountChar(body, '?') + 1
  {
    PrefixHoldsNone();
    WhereHoldsOne();
    CountCharAppend(SetPrefix, body, '?');
    CountCharAppend(SetPrefix + body, WhereId, '?');
  }

  /** Each assignment holds one `?` and the surrounding text adds one more, for the id. */
  lemma PlaceholderCount(updates: seq<string>, userId: Value)
    requires forall k :: 0 <= k < |updates| ==> updates[k] in ["name = ?", "email = ?", "age = ?"]
    ensures CountChar(SetPrefix + Join(updates, Separator) + WhereId, '?') == |updates| + 1
  {
    AssignmentsHoldOne(updates);
    SeparatorHoldsNone();
    CountCharJoin(updates, Separator, '?');
    FrameHoldsOne(Join(updates, Separator));
  }
}

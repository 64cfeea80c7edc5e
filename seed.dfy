/**
 * The database seeder of the generators project: its hand-written,
 * quote-aware CSV line splitter, the row filter of the CSV loader (over the
 * lines of the file), the batched insertion of the loaded rows and the shape
 * of the user ids it generates.
 */
module Seed {
  import opened Python
  import opened Text

  // ---------------------------------------------------------------------
  // generate_uuid
  // ---------------------------------------------------------------------

  /** One draw of `random.choice` over the sixteen hex digits, as an index. */
  type HexDigit = x: int | 0 <= x < 16

  /** The random draws of one call to `generate_uuid`, in the order they are made. */
  type Draws = nat -> HexDigit

  const HexChars: string := "0123456789abcdef"

  predicate IsLowerHex(c: char) {
    ('0' <= c <= '9') || ('a' <= c <= 'f')
  }

  /** Positions of the four separators in an 8-4-4-4-12 id. */
  predicate IsDashPosition(k: int) {
    k == 8 || k == 13 || k == 18 || k == 23
  }

  /** `''.join(random.choice(chars) for _ in range(n))`, using draws `from`, `from + 1`, ... */
  function HexGroup(draws: Draws, from: nat, n: nat): (g: string)
    ensures |g| == n
    ensures forall j :: 0 <= j < n ==> IsLowerHex(g[j])
  {
    seq(n, j requires 0 <= j < n => HexChars[draws(from + j)])
  }

  /**
   * `generate_uuid()`: five groups of 8, 4, 4, 4 and 12 random hex digits
   * joined by '-'. The clock-seeded generator is replaced by its draws.
   */
  function GenerateUuid(draws: Draws): (u: string)
    ensures |u| == 36
    ensures forall k :: 0 <= k < 36 ==> (u[k] == '-' <==> IsDashPosition(k))
    ensures forall k :: 0 <= k < 36 && !IsDashPosition(k) ==> IsLowerHex(u[k])
  {
    var g1, g2, g3, g4, g5 := HexGroup(draws, 0, 8), HexGroup(draws, 8, 4), HexGroup(draws, 12, 4),
      HexGroup(draws, 16, 4), HexGroup(draws, 20, 12);
    var u := Join([g1, g2, g3, g4, g5], "-");
    assert u == g1 + ("-" + (g2 + ("-" + (g3 + ("-" + (g4 + ("-" + g5))))))) by {
      JoinCons([g1, g2, g3, g4, g5], "-");
      JoinCons([g2, g3, g4, g5], "-");
      JoinCons([g3, g4, g5], "-");
      JoinCons([g4, g5], "-");
      assert [g1, g2, g3, g4, g5][1..] == [g2, g3, g4, g5];
      assert [g2, g3, g4, g5][1..] == [g3, g4, g5];
      assert [g3, g4, g5][1..] == [g4, g5];
      assert [g4, g5][1..] == [g5];
    }
    u
  }

  // ---------------------------------------------------------------------
  // parse_csv_line
  // ---------------------------------------------------------------------

  /**
   * The fields of `s`, before stripping, when the scan starts inside quotes
   * (`quoted`) or outside them: a double quote flips the state and is
   * dropped, a comma outside quotes closes the current field, and every
   * other character, a comma inside quotes included, joins the current field.
   */
  function RawFields(s: string, quoted: bool): (fs: seq<string>)
    ensures |fs| >= 1
    decreases |s|
  {
    if s == [] then [""]
    else if s[0] == '"' then RawFields(s[1..], !quoted)
    else if s[0] == ',' && !quoted then [""] + RawFields(s[1..], false)
    else
      var rest := RawFields(s[1..], quoted);
      [[s[0]] + rest[0]] + rest[1..]
  }

  function StripAll(vs: seq<string>): seq<string> {
    seq(|vs|, k requires 0 <= k < |vs| => Strip(vs[k]))
  }

  /** What `parse_csv_line(line)` returns. */
  function Fields(line: string): seq<string> {
    StripAll(RawFields(line, false))
  }

  /** `value[1:-1]` when `value` starts and ends with a double quote (one lone quote gives ""). */
  function Unquote(v: string): string {
    if StartsWith(v, "\"") && |v| >= 1 && v[|v| - 1] == '"' then
      (if |v| >= 2 then v[1..|v| - 1] else "")
    else v
  }

  /** `fs` with `prefix` put in front of its first field. */
  function Continued(prefix: string, fs: seq<string>): seq<string>
    requires |fs| >= 1
  {
    [prefix + fs[0]] + fs[1..]
  }

  /** One character of the scan: what `RawFields` does with the first character of `s`. */
  lemma RawFieldsStep(s: string, quoted: bool)
    requires s != []
    ensures s[0] == '"' ==> RawFields(s, quoted) == RawFields(s[1..], !quoted)
    ensures s[0] == ',' && !quoted ==> RawFields(s, quoted) == [""] + RawFields(s[1..], false)
    ensures s[0] != '"' && !(s[0] == ',' && !quoted) ==>
      RawFields(s, quoted) == [[s[0]] + RawFields(s[1..], quoted)[0]] + RawFields(s[1..], quoted)[1..]
  {
  }

  lemma StripAllAppend(vs: seq<string>, v: string)
    ensures StripAll(vs + [v]) == StripAll(vs) + [Strip(v)]
  {
  }

  /** Every value of `parse_csv_line` has been stripped. */
  lemma FieldsStripped(line: string)
    ensures forall k :: 0 <= k < |Fields(line)| ==> IsStripped(Fields(line)[k])
  {
  }

  lemma ContinuedEmpty(fs: seq<string>)
    requires |fs| >= 1
    ensures Continued("", fs) == fs
  {
    assert "" + fs[0] == fs[0];
  }

  lemma ContinuedAfterComma(raw: seq<string>, current: string, rest: seq<string>)
    requires |rest| >= 1
    ensures raw + Continued(current, [""] + rest) == (raw + [current]) + Continued("", rest)
  {
    assert ([""] + rest)[1..] == rest;
    assert current + "" == current;
    ContinuedEmpty(rest);
  }

  lemma ContinuedAfterChar(current: string, c: char, rest: seq<string>)
    requires |rest| >= 1
    ensures Continued(current, [[c] + rest[0]] + rest[1..]) == Continued(current + [c], rest)
  {
    assert current + ([c] + rest[0]) == (current + [c]) + rest[0];
    assert ([[c] + rest[0]] + rest[1..])[1..] == rest[1..];
  }

  /** How the scan's account of the line's raw fields moves on past character `i`. */
  lemma ScanAdvance(line: string, i: nat, raw: seq<string>, current: string, inQuotes: bool)
    requires i < |line|
    requires RawFields(line, false) == raw + Continued(current, RawFields(line[i..], inQuotes))
    ensures line[i] == '"' ==>
      RawFields(line, false) == raw + Continued(current, RawFields(line[i + 1..], !inQuotes))
    ensures line[i] == ',' && !inQuotes ==>
      RawFields(line, false) == (raw + [current]) + Continued("", RawFields(line[i + 1..], false))
    ensures line[i] != '"' && !(line[i] == ',' && !inQuotes) ==>
      RawFields(line, false) == raw + Continued(current + [line[i]], RawFields(line[i + 1..], inQuotes))
  {
    assert line[i..][1..] == line[i + 1..];
    RawFieldsStep(line[i..], inQuotes);
    if line[i] == ',' && !inQuotes {
      ContinuedAfterComma(raw, current, RawFields(line[i + 1..], false));
    } else if line[i] != '"' {
      ContinuedAfterChar(current, line[i], RawFields(line[i + 1..], inQuotes));
    }
  }

  /**
   * The character loop of `parse_csv_line`: toggles `in_quotes` at each
   * double quote, closes a stripped field at each comma outside quotes and
   * finally strips and adds the last field.
   */
  method ScanFields(line: string) returns (values: seq<string>)
    ensures values == Fields(line)
  {
    values := [];
    var current := "";
    var inQuotes := false;
    ghost var raw: seq<string> := [];
    var i := 0;
    assert line[0..] == line;
    ContinuedEmpty(RawFields(line, false));
    while i < |line|
      invariant 0 <= i <= |line|
      invariant values == StripAll(raw)
      invariant RawFields(line, false) == raw + Continued(current, RawFields(line[i..], inQuotes))
    {
      var c := line[i];
      ScanAdvance(line, i, raw, current, inQuotes);
      if c == '"' {
        inQuotes := !inQuotes;
      } else if c == ',' && !inQuotes {
        StripAllAppend(raw, current);
        values := values + [Strip(current)];
        raw := raw + [current];
        current := "";
      } else {
        current := current + [c];
      }
      i := i + 1;
    }
    ScanEnd(line, raw, current, inQuotes);
    StripAllAppend(raw, current);
    values := values + [Strip(current)];
  }

  /** Once the whole line is scanned, the field being built is the last raw field. */
  lemma ScanEnd(line: string, raw: seq<string>, current: string, inQuotes: bool)
    requires RawFields(line, false) == raw + Continued(current, RawFields(line[|line|..], inQuotes))
    ensures RawFields(line, false) == raw + [current]
  {
    assert line[|line|..] == [];
    assert current + "" == current;
  }

  /**
   * `parse_csv_line(line)`: the fields found by the character loop, each
   * then stripped of surrounding double quotes, which changes nothing since
   * no field holds a quote.
   */
  method ParseCsvLine(line: string) returns (cleaned: seq<string>)
    ensures cleaned == Fields(line)
    ensures forall k :: 0 <= k < |cleaned| ==> IsStripped(cleaned[k]) && '"' !in cleaned[k]
  {
    var values := ScanFields(line);
    FieldsHaveNoQuotes(line);
    FieldsStripped(line);
    cleaned := UnquoteAll(values);
  }

  /** The cleaning loop of `parse_csv_line`: `Unquote` on each value, which leaves quote-free values as they are. */
  method UnquoteAll(values: seq<string>) returns (cleaned: seq<string>)
    requires forall j :: 0 <= j < |values| ==> '"' !in values[j]
    ensures cleaned == values
  {
    cleaned := [];
    var k := 0;
    while k < |values|
      invariant 0 <= k <= |values|
      invariant cleaned == values[..k]
    {
      UnquoteWithoutQuotes(values[k]);
      assert values[..k + 1] == values[..k] + [values[k]];
      cleaned := cleaned + [Unquote(values[k])];
      k := k + 1;
    }
    assert values[..k] == values;
  }

  lemma UnquoteWithoutQuotes(v: string)
    requires '"' !in v
    ensures Unquote(v) == v
  {
    if v != [] {
      assert v[0] in v;
    }
  }

  /** Quote characters are never copied into a field. */
  lemma {:induction false} RawFieldsHaveNoQuotes(s: string, quoted: bool)
    ensures forall k :: 0 <= k < |RawFields(s, quoted)| ==> '"' !in RawFields(s, quoted)[k]
    decreases |s|
  {
    if s != [] {
      RawFieldsHaveNoQuotes(s[1..], if s[0] == '"' then !quoted else quoted);
      if s[0] != '"' && !(s[0] == ',' && !quoted) {
        var rest := RawFields(s[1..], quoted);
        var fs := RawFields(s, quoted);
        assert fs == [[s[0]] + rest[0]] + rest[1..];
        forall k | 0 <= k < |fs|
          ensures '"' !in fs[k]
        {
          if k > 0 {
            assert fs[k] == rest[k];
          }
        }
      }
    }
  }

  /** No value returned by `parse_csv_line` contains a double quote. */
  lemma FieldsHaveNoQuotes(line: string)
    ensures forall k :: 0 <= k < |Fields(line)| ==> '"' !in Fields(line)[k]
  {
    RawFieldsHaveNoQuotes(line, false);
    forall k | 0 <= k < |Fields(line)|
      ensures '"' !in Fields(line)[k]
    {
      if '"' in Fields(line)[k] {
        StripKeepsCharacters(RawFields(line, false)[k], '"');
      }
    }
  }

  /** Whether position `k` of `line` lies inside double quotes: an odd number of quotes precede it. */
  predicate QuotedAt(line: string, k: nat)
    requires k <= |line|
  {
    CountChar(line[..k], '"') % 2 == 1
  }

  /** Commas among the first `n` characters of `line` that lie outside quotes. */
  function UnquotedCommas(line: string, n: nat): nat
    requires n <= |line|
  {
    if n == 0 then 0
    else UnquotedCommas(line, n - 1) + (if line[n - 1] == ',' && !QuotedAt(line, n - 1) then 1 else 0)
  }

  /** Commas among the first `n` characters of `line` that lie inside quotes. */
  function QuotedCommas(line: string, n: nat): nat
    requires n <= |line|
  {
    if n == 0 then 0
    else QuotedCommas(line, n - 1) + (if line[n - 1] == ',' && QuotedAt(line, n - 1) then 1 else 0)
  }

  /** A quote flips the quote state of the next position; any other character keeps it. */
  lemma QuotedStep(line: string, i: nat)
    requires i < |line|
    ensures QuotedAt(line, i + 1) == (QuotedAt(line, i) != (line[i] == '"'))
  {
    assert line[..i + 1] == line[..i] + [line[i]];
    CountCharAppend(line[..i], [line[i]], '"');
    assert [line[i]][1..] == [];
  }

  lemma {:induction false} FieldCountFrom(line: string, i: nat)
    requires i <= |line|
    ensures |RawFields(line[i..], QuotedAt(line, i))| + UnquotedCommas(line, i) == 1 + UnquotedCommas(line, |line|)
    decreases |line| - i
  {
    if i < |line| {
      FieldCountFrom(line, i + 1);
      QuotedStep(line, i);
      assert line[i..][1..] == line[i + 1..];
    }
  }

  lemma ScanStart(line: string)
    ensures line[0..] == line && !QuotedAt(line, 0)
    ensures UnquotedCommas(line, 0) == 0 && QuotedCommas(line, 0) == 0
  {
    assert line[..0] == [];
  }

  /** `parse_csv_line` returns one more value than there are commas outside quotes. */
  lemma FieldCount(line: string)
    ensures |Fields(line)| == UnquotedCommas(line, |line|) + 1
  {
    ScanStart(line);
    FieldCountFrom(line, 0);
  }

  /** Commas in all the fields together. */
  function CommaTotal(fs: seq<string>): nat
    decreases |fs|
  {
    if fs == [] then 0 else CountChar(fs[0], ',') + CommaTotal(fs[1..])
  }

  lemma {:induction false} CommasKeptFrom(line: string, i: nat)
    requires i <= |line|
    ensures CommaTotal(RawFields(line[i..], QuotedAt(line, i))) + QuotedCommas(line, i) == QuotedCommas(line, |line|)
    decreases |line| - i
  {
    if i < |line| {
      CommasKeptFrom(line, i + 1);
      QuotedStep(line, i);
      assert line[i..][1..] == line[i + 1..];
      var q := QuotedAt(line, i);
      var c := line[i];
      if c == ',' && !q {
        var rest := RawFields(line[i + 1..], false);
        assert ([""] + rest)[1..] == rest;
      } else if c != '"' {
        var rest := RawFields(line[i + 1..], q);
        var fs := [[c] + rest[0]] + rest[1..];
        assert fs[1..] == rest[1..];
        CountCharAppend([c], rest[0], ',');
        assert [c][1..] == [];
        assert CommaTotal(rest) == CountChar(rest[0], ',') + CommaTotal(rest[1..]);
      }
    }
  }

  lemma {:induction false} TrimStartKeepsCommas(s: string)
    ensures CountChar(TrimStart(s), ',') == CountChar(s, ',')
    decreases |s|
  {
    if s != [] && IsSpace(s[0]) {
      TrimStartKeepsCommas(s[1..]);
    }
  }

  lemma {:induction false} TrimEndKeepsCommas(s: string)
    ensures CountChar(TrimEnd(s), ',') == CountChar(s, ',')
    decreases |s|
  {
    if s != [] && IsSpace(s[|s| - 1]) {
      var n := |s| - 1;
      TrimEndKeepsCommas(s[..n]);
      assert s == s[..n] + [s[n]];
      CountCharAppend(s[..n], [s[n]], ',');
      assert [s[n]][1..] == [];
    }
  }

  /** Stripping removes only whitespace, so it keeps every comma. */
  lemma StripKeepsCommas(s: string)
    ensures CountChar(Strip(s), ',') == CountChar(s, ',')
  {
    TrimStartKeepsCommas(s);
    TrimEndKeepsCommas(TrimStart(s));
  }

  /** Two lists whose values pair up with equally many commas hold equally many in total. */
  lemma {:induction false} CommaTotalPointwise(fs: seq<string>, gs: seq<string>)
    requires |gs| == |fs|
    requires forall k :: 0 <= k < |fs| ==> CountChar(gs[k], ',') == CountChar(fs[k], ',')
    ensures CommaTotal(gs) == CommaTotal(fs)
    decreases |fs|
  {
    if fs != [] {
      CommaTotalPointwise(fs[1..], gs[1..]);
    }
  }

  lemma CommaTotalStripAll(fs: seq<string>)
    ensures CommaTotal(StripAll(fs)) == CommaTotal(fs)
  {
    var ss := StripAll(fs);
    forall k | 0 <= k < |fs|
      ensures CountChar(ss[k], ',') == CountChar(fs[k], ',')
    {
      StripKeepsCommas(fs[k]);
    }
    CommaTotalPointwise(fs, ss);
  }

  /** Every comma inside quotes survives, as an ordinary character, in some value. */
  lemma CommasKept(line: string)
    ensures CommaTotal(Fields(line)) == QuotedCommas(line, |line|)
  {
    ScanStart(line);
    CommasKeptFrom(line, 0);
    CommaTotalStripAll(RawFields(line, false));
  }

  // ---------------------------------------------------------------------
  // load_csv_data
  // ---------------------------------------------------------------------

  /** A loaded row (`clean_row`); the age is still the text of the file. */
  datatype Record = Record(userId: string, name: string, email: string, age: string)

  /** `header.lower().strip()`: the dictionary key of a column. */
  function HeaderKey(h: string): string {
    Strip(Lower(h))
  }

  /** `d.get(key, default)`. */
  function GetOr(d: map<string, string>, key: string, default: string): string {
    if key in d then d[key] else default
  }

  /** The dictionary keys of the columns, in column order. */
  function Keys(headers: seq<string>): (keys: seq<string>)
    ensures |keys| == |headers|
  {
    seq(|headers|, i requires 0 <= i < |headers| => HeaderKey(headers[i]))
  }

  /**
   * `row_dict` after the loop over `enumerate(headers)`: each column's key
   * maps to its value, a later column overwriting an earlier one with the
   * same key.
   */
  function RowDict(keys: seq<string>, values: seq<string>): map<string, string>
    decreases |keys|
  {
    if keys == [] then map[]
    else
      var n := |keys| - 1;
      RowDict(keys[..n], values)[keys[n] := if n < |values| then values[n] else ""]
  }

  /** Column `i` is the last one whose key is `key`. */
  predicate LastColumn(keys: seq<string>, key: string, i: int) {
    0 <= i < |keys| && keys[i] == key
    && forall j :: i < j < |keys| ==> keys[j] != key
  }

  /** The dictionary loop of `load_csv_data`. */
  method BuildRow(headers: seq<string>, values: seq<string>) returns (row: map<string, string>)
    ensures row == RowDict(Keys(headers), values)
  {
    ghost var keys := Keys(headers);
    row := map[];
    var i := 0;
    while i < |headers|
      invariant 0 <= i <= |headers|
      invariant row == RowDict(keys[..i], values)
    {
      var key := HeaderKey(headers[i]);
      RowDictStep(keys, values, i);
      row := row[key := if i < |values| then values[i] else ""];
      i := i + 1;
    }
    assert keys[..i] == keys;
  }

  lemma RowDictStep(keys: seq<string>, values: seq<string>, i: nat)
    requires i < |keys|
    ensures RowDict(keys[..i + 1], values) == RowDict(keys[..i], values)[keys[i] := if i < |values| then values[i] else ""]
  {
    assert keys[..i + 1][..i] == keys[..i];
  }

  /**
   * The keys of `row_dict` are exactly the column keys, and each key holds
   * the value of the last column that has it.
   */
  lemma {:induction false} RowDictLookup(keys: seq<string>, values: seq<string>, key: string)
    ensures key in RowDict(keys, values) <==> key in keys
    ensures forall i :: LastColumn(keys, key, i) && i < |values| ==> RowDict(keys, values)[key] == values[i]
    decreases |keys|
  {
    if keys != [] {
      var n := |keys| - 1;
      var init := keys[..n];
      RowDictLookup(init, values, key);
      assert keys == init + [keys[n]];
      forall i | LastColumn(keys, key, i) && i < |values|
        ensures RowDict(keys, values)[key] == values[i]
      {
        if i < n {
          assert LastColumn(init, key, i);
        }
      }
    }
  }

  /** The last column with key `key` has a non-empty value. */
  ghost predicate HasValue(keys: seq<string>, values: seq<string>, key: string) {
    exists i :: LastColumn(keys, key, i) && i < |values| && values[i] != []
  }

  /** Some column with key `key` is the last one with it. */
  lemma {:induction false} LastIndex(keys: seq<string>, key: string, i: nat) returns (last: nat)
    requires i < |keys| && keys[i] == key
    ensures LastColumn(keys, key, last)
    decreases |keys| - i
  {
    if forall j :: i < j < |keys| ==> keys[j] != key {
      last := i;
    } else {
      var j :| i < j < |keys| && keys[j] == key;
      last := LastIndex(keys, key, j);
    }
  }

  /** The value `row_dict.get(key, '').strip()` in terms of the columns, when every value is stripped. */
  lemma KeyValue(keys: seq<string>, values: seq<string>, key: string)
    requires |values| == |keys|
    requires forall k :: 0 <= k < |values| ==> IsStripped(values[k])
    ensures Strip(GetOr(RowDict(keys, values), key, "")) != [] <==> HasValue(keys, values, key)
    ensures forall i :: LastColumn(keys, key, i) ==> Strip(GetOr(RowDict(keys, values), key, "")) == values[i]
  {
    RowDictLookup(keys, values, key);
    if key in keys {
      var i :| 0 <= i < |keys| && keys[i] == key;
      var last := LastIndex(keys, key, i);
      StripOfStripped(values[last]);
    } else {
      assert Strip("") == "";
    }
  }

  /**
   * The row made of one line's values, which have already been counted
   * against the header: none without a name or an email.
   */
  function RowFrom(keys: seq<string>, values: seq<string>, id: Draws): Option<Record> {
    var row := RowDict(keys, values);
    var name := Strip(GetOr(row, "name", ""));
    var email := Strip(GetOr(row, "email", ""));
    if name == [] || email == [] then None
    else
      var userId := Strip(GetOr(row, "user_id", ""));
      Some(Record(if userId != [] then userId else GenerateUuid(id), name, email, Strip(GetOr(row, "age", "0"))))
  }

  /**
   * What `load_csv_data` makes of one data line, given the header fields
   * and the draws of the id it would generate: nothing for a blank line or
   * a line with the wrong number of values.
   */
  function RowOf(headers: seq<string>, line: string, id: Draws): Option<Record> {
    var t := Strip(line);
    if t == [] then None
    else
      var values := Fields(t);
      if |values| != |headers| then None else RowFrom(Keys(headers), values, id)
  }

  /** The body of the loop of `load_csv_data` for one line. */
  method LoadRow(headers: seq<string>, line: string, id: Draws) returns (row: Option<Record>)
    ensures row == RowOf(headers, line, id)
  {
    var t := Strip(line);
    if t == [] {
      return None;
    }
    var values := ParseCsvLine(t);
    if |values| != |headers| {
      return None;
    }
    var dict := BuildRow(headers, values);
    var name := Strip(GetOr(dict, "name", ""));
    var email := Strip(GetOr(dict, "email", ""));
    if name == [] || email == [] {
      return None;
    }
    var userId := Strip(GetOr(dict, "user_id", ""));
    if userId == [] {
      userId := GenerateUuid(id);
    }
    row := Some(Record(userId, name, email, Strip(GetOr(dict, "age", "0"))));
  }

  /**
   * Given stripped values, one per column: a row is made exactly when the
   * `name` and `email` columns have non-empty values, and it holds those
   * two values.
   */
  lemma RowFromValues(keys: seq<string>, values: seq<string>, id: Draws)
    requires |values| == |keys|
    requires forall k :: 0 <= k < |values| ==> IsStripped(values[k])
    ensures RowFrom(keys, values, id).Some? <==> HasValue(keys, values, "name") && HasValue(keys, values, "email")
    ensures forall i :: RowFrom(keys, values, id).Some? && LastColumn(keys, "name", i) ==>
      RowFrom(keys, values, id).value.name == values[i]
    ensures forall i :: RowFrom(keys, values, id).Some? && LastColumn(keys, "email", i) ==>
      RowFrom(keys, values, id).value.email == values[i]
  {
    KeyValue(keys, values, "name");
    KeyValue(keys, values, "email");
  }

  /**
   * A row keeps a non-empty `user_id` value unchanged and otherwise gets a
   * generated id; its age is "0" when no column is called `age`.
   */
  lemma RowDefaults(keys: seq<string>, values: seq<string>, id: Draws)
    requires |values| == |keys|
    requires forall k :: 0 <= k < |values| ==> IsStripped(values[k])
    ensures forall i :: RowFrom(keys, values, id).Some? && LastColumn(keys, "user_id", i) && values[i] != [] ==>
      RowFrom(keys, values, id).value.userId == values[i]
    ensures RowFrom(keys, values, id).Some? && !HasValue(keys, values, "user_id") ==>
      RowFrom(keys, values, id).value.userId == GenerateUuid(id)
    ensures RowFrom(keys, values, id).Some? && "age" !in keys ==> RowFrom(keys, values, id).value.age == "0"
  {
    KeyValue(keys, values, "user_id");
    RowDictLookup(keys, values, "age");
    StripOfStripped("0");
  }

  /**
   * A line is kept exactly when it is not blank, has one value per header
   * and its `name` and `email` columns are non-empty; the row is then the
   * one made of its values.
   */
  lemma RowKept(headers: seq<string>, line: string, id: Draws)
    ensures RowOf(headers, line, id).Some? <==>
      Strip(line) != [] && |Fields(Strip(line))| == |headers|
      && HasValue(Keys(headers), Fields(Strip(line)), "name") && HasValue(Keys(headers), Fields(Strip(line)), "email")
    ensures RowOf(headers, line, id).Some? ==> RowOf(headers, line, id) == RowFrom(Keys(headers), Fields(Strip(line)), id)
  {
    var t := Strip(line);
    if t != [] && |Fields(t)| == |headers| {
      RowFromValues(Keys(headers), Fields(t), id);
    }
  }

  /** The rows that `rows` gives for the positions 1 to `n - 1`, in order. */
  function Selected(rows: nat -> Option<Record>, n: nat): seq<Record> {
    if n <= 1 then []
    else Selected(rows, n - 1) + match rows(n - 1) case Some(r) => [r] case None => []
  }

  /** The header fields: `parse_csv_line(lines[0].strip())`. */
  function Headers(lines: seq<string>): seq<string>
    requires lines != []
  {
    Fields(Strip(lines[0]))
  }

  /** The row (if any) of each data line; `draws(k)` feeds the id generated for line `k`. */
  function LineRows(headers: seq<string>, lines: seq<string>, draws: nat -> Draws): nat -> Option<Record> {
    k => if 1 <= k < |lines| then RowOf(headers, lines[k], draws(k)) else None
  }

  /** What `load_csv_data` returns for a file with these lines. */
  function LoadedRows(lines: seq<string>, draws: nat -> Draws): seq<Record> {
    if lines == [] then [] else Selected(LineRows(Headers(lines), lines, draws), |lines|)
  }

  /** One more line: its row, if it has one, follows the rows selected so far. */
  lemma SelectedNext(rows: nat -> Option<Record>, k: nat, headers: seq<string>, lines: seq<string>, draws: nat -> Draws)
    requires rows == LineRows(headers, lines, draws) && 1 <= k < |lines|
    ensures rows(k) == RowOf(headers, lines[k], draws(k))
    ensures Selected(rows, k + 1) == Selected(rows, k) + match rows(k) case Some(r) => [r] case None => []
  {
  }

  /** `load_csv_data` over the lines of the file (an empty file gives no rows). */
  method LoadCsvData(lines: seq<string>, draws: nat -> Draws) returns (data: seq<Record>)
    ensures data == LoadedRows(lines, draws)
  {
    data := [];
    if lines == [] {
      return;
    }
    var headers := ParseCsvLine(Strip(lines[0]));
    ghost var rows := LineRows(headers, lines, draws);
    var k := 1;
    while k < |lines|
      invariant 1 <= k <= |lines|
      invariant data == Selected(rows, k)
    {
      var row := LoadRow(headers, lines[k], draws(k));
      SelectedNext(rows, k, headers, lines, draws);
      if row.Some? {
        data := data + [row.value];
      }
      k := k + 1;
    }
  }

  /** The positions of the rows `Selected` returns: increasing, and exactly those with a row. */
  lemma {:induction false} SelectedPositions(rows: nat -> Option<Record>, n: nat) returns (idx: seq<nat>)
    ensures |idx| == |Selected(rows, n)|
    ensures forall j :: 0 <= j < |idx| ==> 1 <= idx[j] < n && rows(idx[j]) == Some(Selected(rows, n)[j])
    ensures forall j, j' :: 0 <= j < j' < |idx| ==> idx[j] < idx[j']
    ensures forall k :: 1 <= k < n && rows(k).Some? ==> k in idx
  {
    if n <= 1 {
      idx := [];
    } else {
      var prev := SelectedPositions(rows, n - 1);
      if rows(n - 1).Some? {
        idx := prev + [n - 1];
      } else {
        idx := prev;
      }
    }
  }

  /**
   * The loaded rows are the kept lines' rows, one per kept line, in the
   * order of the lines; the header line itself is never a row.
   */
  lemma KeptInOrder(lines: seq<string>, draws: nat -> Draws) returns (idx: seq<nat>)
    requires lines != []
    ensures |idx| == |LoadedRows(lines, draws)|
    ensures forall j :: 0 <= j < |idx| ==> 1 <= idx[j] < |lines|
    ensures forall j :: 0 <= j < |idx| ==> RowOf(Headers(lines), lines[idx[j]], draws(idx[j])) == Some(LoadedRows(lines, draws)[j])
    ensures forall j, j' :: 0 <= j < j' < |idx| ==> idx[j] < idx[j']
    ensures forall k :: 1 <= k < |lines| && RowOf(Headers(lines), lines[k], draws(k)).Some? ==> k in idx
  {
    var rows := LineRows(Headers(lines), lines, draws);
    idx := SelectedPositions(rows, |lines|);
    forall k | 1 <= k < |lines|
      ensures rows(k) == RowOf(Headers(lines), lines[k], draws(k))
    {
    }
  }

  // ---------------------------------------------------------------------
  // insert_data
  // ---------------------------------------------------------------------

  /** Rows are inserted, and committed, in slices of this many. */
  const BatchSize: nat := 1000

  /** One tuple of `batch_values`: the row as inserted, its age an integer. */
  datatype InsertRow = InsertRow(userId: string, name: string, email: string, age: int)

  /**
   * The tuple inserted for a record: a generated id when the record has
   * none, and the age as `int(float(age))` gives it (`parseAge`), or 0 when
   * that conversion raises.
   */
  function ToInsertRow(r: Record, id: Draws, parseAge: string -> Option<int>): InsertRow {
    InsertRow(if r.userId == [] then GenerateUuid(id) else r.userId, r.name, r.email,
      match parseAge(r.age) case Some(a) => a case None => 0)
  }

  /** The tuples for all of `data`; `draws(i)` feeds the id generated for record `i`. */
  function Converted(data: seq<Record>, draws: nat -> Draws, parseAge: string -> Option<int>): (rows: seq<InsertRow>)
    ensures |rows| == |data|
  {
    seq(|data|, i requires 0 <= i < |data| => ToInsertRow(data[i], draws(i), parseAge))
  }

  /**
   * The caller's record after the inner loop has seen it: `insert_data`
   * writes a generated id back into a record that had none.
   */
  function WithId(r: Record, id: Draws): Record {
    if r.userId == [] then r.(userId := GenerateUuid(id)) else r
  }

  /** The id written back into the caller's record is the id inserted for it, and nothing else changes. */
  lemma WrittenIdIsInserted(r: Record, id: Draws, parseAge: string -> Option<int>)
    ensures WithId(r, id).userId == ToInsertRow(r, id, parseAge).userId
    ensures WithId(r, id).name == r.name && WithId(r, id).email == r.email && WithId(r, id).age == r.age
    ensures r.userId != [] ==> WithId(r, id) == r
  {
  }

  /** The concatenation of the batches. */
  function Flatten<T>(batches: seq<seq<T>>): seq<T> {
    if batches == [] then [] else Flatten(batches[..|batches| - 1]) + batches[|batches| - 1]
  }

  /** The body of the inner loop of `insert_data`: one record's tuple. */
  method ConvertRecord(r: Record, id: Draws, parseAge: string -> Option<int>) returns (row: InsertRow, written: Record)
    ensures row == ToInsertRow(r, id, parseAge)
    ensures row.name == r.name && row.email == r.email
    ensures r.userId != [] ==> row.userId == r.userId
    ensures written == WithId(r, id) && written.userId == row.userId
  {
    written := r;
    if written.userId == [] {
      written := written.(userId := GenerateUuid(id));
    }
    var age := match parseAge(r.age) case Some(a) => a case None => 0;
    row := InsertRow(written.userId, r.name, r.email, age);
  }

  /** The tuples of the first `|values|` records, followed by the next one's. */
  lemma ConvertedAppend(batch: seq<Record>, offset: nat, draws: nat -> Draws, parseAge: string -> Option<int>,
                        values: seq<InsertRow>, row: InsertRow)
    requires |values| < |batch|
    requires forall t :: 0 <= t < |values| ==> values[t] == ToInsertRow(batch[t], draws(offset + t), parseAge)
    requires row == ToInsertRow(batch[|values|], draws(offset + |values|), parseAge)
    ensures forall t :: 0 <= t < |values| + 1 ==> (values + [row])[t] == ToInsertRow(batch[t], draws(offset + t), parseAge)
  {
    forall t | 0 <= t < |values| + 1
      ensures (values + [row])[t] == ToInsertRow(batch[t], draws(offset + t), parseAge)
    {
      if t < |values| {
        assert (values + [row])[t] == values[t];
      }
    }
  }

  /**
   * The inner loop of `insert_data`: the tuples of one batch starting at
   * record `offset`, and the batch's records after their ids were written
   * back.
   */
  method ConvertBatch(batch: seq<Record>, offset: nat, draws: nat -> Draws, parseAge: string -> Option<int>)
    returns (values: seq<InsertRow>, updated: seq<Record>)
    ensures |values| == |batch| && |updated| == |batch|
    ensures forall j :: 0 <= j < |batch| ==> values[j] == ToInsertRow(batch[j], draws(offset + j), parseAge)
    ensures forall j :: 0 <= j < |batch| ==> updated[j] == WithId(batch[j], draws(offset + j))
  {
    values, updated := [], [];
    var j := 0;
    while j < |batch|
      invariant 0 <= j <= |batch| && |values| == j && |updated| == j
      invariant forall t :: 0 <= t < j ==> values[t] == ToInsertRow(batch[t], draws(offset + t), parseAge)
      invariant forall t :: 0 <= t < j ==> updated[t] == WithId(batch[t], draws(offset + t))
    {
      var row, written := ConvertRecord(batch[j], draws(offset + j), parseAge);
      ConvertedAppend(batch, offset, draws, parseAge, values, row);
      values := values + [row];
      updated := updated + [written];
      j := j + 1;
    }
  }

  /** Batch `b` holds the rows from position `BatchSize * b` on. */
  ghost predicate IsBatchOf<T>(rows: seq<T>, batches: seq<seq<T>>, b: nat)
    requires b < |batches|
  {
    BatchSize * b + |batches[b]| <= |rows| && batches[b] == rows[BatchSize * b..BatchSize * b + |batches[b]|]
  }

  /** Consecutive slices, all full but the last, concatenate to a prefix of the rows. */
  lemma {:induction false} BatchesFlatten<T>(rows: seq<T>, batches: seq<seq<T>>)
    requires forall b :: 0 <= b < |batches| ==> IsBatchOf(rows, batches, b)
    requires forall b :: 0 <= b < |batches| - 1 ==> |batches[b]| == BatchSize
    ensures |Flatten(batches)| <= |rows| && Flatten(batches) == rows[..|Flatten(batches)|]
    ensures batches != [] ==> |Flatten(batches)| == BatchSize * (|batches| - 1) + |batches[|batches| - 1]|
    decreases |batches|
  {
    if |batches| > 1 {
      var n := |batches| - 1;
      var init := batches[..n];
      assert forall b :: 0 <= b < n ==> init[b] == batches[b];
      assert forall b :: 0 <= b < |init| ==> IsBatchOf(rows, init, b) by {
        forall b | 0 <= b < |init|
          ensures IsBatchOf(rows, init, b)
        {
          assert IsBatchOf(rows, batches, b);
        }
      }
      BatchesFlatten(rows, init);
      assert IsBatchOf(rows, batches, n);
      var lo := BatchSize * n;
      assert Flatten(init) == rows[..lo];
      assert rows[..lo + |batches[n]|] == rows[..lo] + rows[lo..lo + |batches[n]|];
    } else if |batches| == 1 {
      assert batches[..0] == [];
      assert IsBatchOf(rows, batches, 0);
    }
  }

  /** Appending the slice that starts where the batches end keeps them consecutive slices. */
  lemma AppendBatch<T>(rows: seq<T>, batches: seq<seq<T>>, hi: nat)
    requires forall b :: 0 <= b < |batches| ==> IsBatchOf(rows, batches, b)
    requires BatchSize * |batches| <= hi <= |rows|
    ensures forall b :: 0 <= b < |batches| + 1 ==>
      IsBatchOf(rows, batches + [rows[BatchSize * |batches|..hi]], b)
  {
    var next := batches + [rows[BatchSize * |batches|..hi]];
    forall b | 0 <= b < |next|
      ensures IsBatchOf(rows, next, b)
    {
      if b < |batches| {
        assert next[b] == batches[b];
        assert IsBatchOf(rows, batches, b);
      }
    }
  }

  /**
   * What has been committed so far: consecutive slices of `rows` from the
   * start, none empty, none over `BatchSize`, all full but the last, and
   * none whose insert failed.
   */
  ghost predicate Batches(rows: seq<InsertRow>, committed: seq<seq<InsertRow>>, fails: nat -> bool) {
    (forall b :: 0 <= b < |committed| ==> IsBatchOf(rows, committed, b))
    && (forall b :: 0 <= b < |committed| ==> 0 < |committed[b]| <= BatchSize && !fails(b))
    && (forall b :: 0 <= b < |committed| - 1 ==> |committed[b]| == BatchSize)
  }

  /** Committing the next slice after full batches keeps `Batches`. */
  lemma CommitBatch(rows: seq<InsertRow>, committed: seq<seq<InsertRow>>, fails: nat -> bool, hi: nat)
    requires Batches(rows, committed, fails)
    requires forall b :: 0 <= b < |committed| ==> |committed[b]| == BatchSize
    requires BatchSize * |committed| < hi <= |rows| && hi <= BatchSize * |committed| + BatchSize
    requires !fails(|committed|)
    ensures Batches(rows, committed + [rows[BatchSize * |committed|..hi]], fails)
  {
    var next := committed + [rows[BatchSize * |committed|..hi]];
    AppendBatch(rows, committed, hi);
    forall b | 0 <= b < |next|
      ensures 0 < |next[b]| <= BatchSize && !fails(b)
    {
      if b < |committed| {
        assert next[b] == committed[b];
      }
    }
    forall b | 0 <= b < |next| - 1
      ensures |next[b]| == BatchSize
    {
      assert next[b] == committed[b];
    }
  }

  /** The tuples `ConvertBatch` gives for `data[lo..hi]` are that slice of `Converted`. */
  lemma ConvertedSlice(data: seq<Record>, draws: nat -> Draws, parseAge: string -> Option<int>,
                       lo: nat, hi: nat, values: seq<InsertRow>)
    requires lo <= hi <= |data|
    requires |values| == hi - lo
    requires forall j :: 0 <= j < hi - lo ==> values[j] == ToInsertRow(data[lo..hi][j], draws(lo + j), parseAge)
    ensures values == Converted(data, draws, parseAge)[lo..hi]
  {
  }

  /**
   * The caller's records once the first `n` of them have been through the
   * inner loop: those carry their written-back ids, the rest are untouched.
   */
  function WrittenBack(data: seq<Record>, draws: nat -> Draws, n: nat): (records: seq<Record>)
    ensures |records| == |data|
  {
    seq(|data|, k requires 0 <= k < |data| => if k < n then WithId(data[k], draws(k)) else data[k])
  }

  /** Writing back one more batch extends the written-back prefix. */
  lemma WriteBackBatch(data: seq<Record>, draws: nat -> Draws, records: seq<Record>, lo: nat, hi: nat,
                       updated: seq<Record>)
    requires lo <= hi <= |data| && records == WrittenBack(data, draws, lo)
    requires |updated| == hi - lo
    requires forall j :: 0 <= j < hi - lo ==> updated[j] == WithId(data[lo..hi][j], draws(lo + j))
    ensures records[..lo] + updated + records[hi..] == WrittenBack(data, draws, hi)
  {
    var next := records[..lo] + updated + records[hi..];
    forall k | 0 <= k < |data|
      ensures next[k] == WrittenBack(data, draws, hi)[k]
    {
      if lo <= k < hi {
        assert next[k] == updated[k - lo];
      }
    }
  }

  /**
   * `insert_data(connection, data)`. `existing` is what `SELECT COUNT(*)`
   * gives, or None when that statement raises, which rolls back and ends the
   * call with False before any batch. Nothing is inserted when the table
   * already has rows; otherwise the records go in consecutive slices of at
   * most `BatchSize`, each committed on its own. `fails(b)` says whether
   * inserting or committing batch `b` raises, which rolls back that batch and
   * ends the call with False; the batches committed before it stay.
   * `records` is the caller's `data` after the call: every record the inner
   * loop has seen carries the id generated for it.
   */
  method InsertData(existing: Option<nat>, data: seq<Record>, draws: nat -> Draws, parseAge: string -> Option<int>,
                    fails: nat -> bool)
    returns (ok: bool, committed: seq<seq<InsertRow>>, inserted: nat, records: seq<Record>)
    ensures existing == None ==> !ok && committed == [] && inserted == 0 && records == data
    ensures existing.Some? && existing.value > 0 ==> ok && committed == [] && inserted == 0 && records == data
    ensures forall b :: 0 <= b < |committed| ==> IsBatchOf(Converted(data, draws, parseAge), committed, b)
    ensures forall b :: 0 <= b < |committed| ==> 0 < |committed[b]| <= BatchSize && !fails(b)
    ensures forall b :: 0 <= b < |committed| - 1 ==> |committed[b]| == BatchSize
    ensures ok && existing == Some(0) ==>
      Flatten(committed) == Converted(data, draws, parseAge) && inserted == |data|
      && records == WrittenBack(data, draws, |data|)
    ensures !ok && existing != None ==>
      existing == Some(0) && fails(|committed|) && BatchSize * |committed| < |data|
      && records == WrittenBack(data, draws, BatchSize * (|committed| + 1))
  {
    ok, committed, inserted, records := true, [], 0, data;
    if existing == None {
      return false, committed, inserted, records;
    }
    if existing.value > 0 {
      return;
    }
    ghost var rows := Converted(data, draws, parseAge);
    assert records == WrittenBack(data, draws, 0);
    var i := 0;
    while i < |data|
      invariant i == BatchSize * |committed|
      invariant inserted == if i <= |data| then i else |data|
      invariant committed != [] ==> BatchSize * (|committed| - 1) + |committed[|committed| - 1]| == inserted
      invariant Batches(rows, committed, fails)
      invariant i < |data| ==> forall b :: 0 <= b < |committed| ==> |committed[b]| == BatchSize
      invariant records == WrittenBack(data, draws, i)
    {
      var hi := if i + BatchSize <= |data| then i + BatchSize else |data|;
      var batch := data[i..hi];
      var values, updated := ConvertBatch(batch, i, draws, parseAge);
      ConvertedSlice(data, draws, parseAge, i, hi, values);
      WriteBackBatch(data, draws, records, i, hi, updated);
      records := records[..i] + updated + records[hi..];
      assert records == WrittenBack(data, draws, BatchSize * (|committed| + 1)) by {
        assert WrittenBack(data, draws, hi) == WrittenBack(data, draws, i + BatchSize);
      }
      if fails(|committed|) {
        ok := false;
        return;
      }
      CommitBatch(rows, committed, fails, hi);
      committed := committed + [values];
      inserted := inserted + |batch|;
      i := i + BatchSize;
    }
    BatchesFlatten(rows, committed);
    assert rows[..|data|] == rows;
  }
}

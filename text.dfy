/**
 * The string operations of Python that the decorators and the CSV parser
 * rely on: `str.strip()`, `str.split()` with no argument, `sep.join(...)`,
 * `upper()`/`lower()`, `startswith` and the `in` substring test, plus the
 * whitespace normalisation `' '.join(q.split())` used to fingerprint and log
 * queries.
 */
module Text {

  /** `str.isspace()` on one character, as Python defines it for `split()` and `strip()`. */
  predicate IsSpace(c: char) {
    ('\t' <= c <= '\r') || ('\U{1c}' <= c <= ' ') || c == '\U{85}' || c == '\U{a0}'
    || c == '\U{1680}' || ('\U{2000}' <= c <= '\U{200a}') || c == '\U{2028}' || c == '\U{2029}'
    || c == '\U{202f}' || c == '\U{205f}' || c == '\U{3000}'
  }

  /** A non-empty run of non-space characters: one element of `str.split()`. */
  predicate IsWord(w: string) {
    w != [] && forall i :: 0 <= i < |w| ==> !IsSpace(w[i])
  }

  /** No leading or trailing whitespace: what `strip()` produces. */
  predicate IsStripped(s: string) {
    s == [] || (!IsSpace(s[0]) && !IsSpace(s[|s| - 1]))
  }

  /** `s.lstrip()`: drops the leading whitespace and keeps the rest. */
  function TrimStart(s: string): (r: string)
    ensures |r| <= |s| && r == s[|s| - |r|..]
    ensures r == [] || !IsSpace(r[0])
    ensures forall i :: 0 <= i < |s| - |r| ==> IsSpace(s[i])
    decreases |s|
  {
    if s != [] && IsSpace(s[0]) then
      var r := TrimStart(s[1..]);
      assert s[1..][|s| - 1 - |r|..] == s[|s| - |r|..];
      assert forall i :: 1 <= i < |s| ==> s[i] == s[1..][i - 1];
      r
    else s
  }

  /** `s.rstrip()`: drops the trailing whitespace and keeps the rest. */
  function TrimEnd(s: string): (r: string)
    ensures |r| <= |s| && r == s[..|r|]
    ensures r == [] || !IsSpace(r[|r| - 1])
    ensures forall i :: |r| <= i < |s| ==> IsSpace(s[i])
    decreases |s|
  {
    if s != [] && IsSpace(s[|s| - 1]) then
      var r := TrimEnd(s[..|s| - 1]);
      assert s[..|s| - 1][..|r|] == s[..|r|];
      r
    else s
  }

  /** `s.strip()`: no whitespace left at either end. */
  function Strip(s: string): (r: string)
    ensures IsStripped(r)
    ensures |r| <= |s|
  {
    var t := TrimStart(s);
    var r := TrimEnd(t);
    assert r == [] || r[0] == t[0];
    r
  }

  /** `strip()` returns a contiguous slice of its input, cutting off only whitespace on either side. */
  lemma StripIsSlice(s: string) returns (i: nat)
    ensures i + |Strip(s)| <= |s| && Strip(s) == s[i..i + |Strip(s)|]
    ensures forall k :: 0 <= k < i ==> IsSpace(s[k])
    ensures forall k :: i + |Strip(s)| <= k < |s| ==> IsSpace(s[k])
  {
    var t := TrimStart(s);
    i := |s| - |t|;
    var r := TrimEnd(t);
    assert Strip(s) == r;
    SliceOfSlice(s, i, |r|);
    forall k | i + |r| <= k < |s|
      ensures IsSpace(s[k])
    {
      assert s[k] == t[k - i];
    }
  }

  /** The first `n` characters of `s[i..]` are `s[i..i + n]`. */
  lemma SliceOfSlice(s: string, i: nat, n: nat)
    requires i + n <= |s|
    ensures s[i..][..n] == s[i..i + n]
  {
  }

  /** `strip()` keeps only characters of its input. */
  lemma StripKeepsCharacters(s: string, c: char)
    requires c in Strip(s)
    ensures c in s
  {
    var r := Strip(s);
    var i := StripIsSlice(s);
    var k :| 0 <= k < |r| && r[k] == c;
    assert s[i + k] == c;
  }

  /** `strip()` does nothing to a string that is already stripped. */
  lemma StripOfStripped(s: string)
    requires IsStripped(s)
    ensures Strip(s) == s
  {
  }

  /** The length of the run of non-space characters that starts `s`. */
  function WordLen(s: string): (n: nat)
    ensures n <= |s|
    ensures forall i :: 0 <= i < n ==> !IsSpace(s[i])
    ensures n == |s| || IsSpace(s[n])
    decreases |s|
  {
    if s == [] || IsSpace(s[0]) then 0 else 1 + WordLen(s[1..])
  }

  /** `s.split()`: the maximal runs of non-space characters, in order. */
  function Words(s: string): (ws: seq<string>)
    ensures forall k :: 0 <= k < |ws| ==> IsWord(ws[k])
    decreases |s|
  {
    var t := TrimStart(s);
    if t == [] then []
    else
      var n := WordLen(t);
      FirstWord(t);
      AllWordsCons(t[..n], Words(t[n..]));
      [t[..n]] + Words(t[n..])
  }

  /** The run of non-space characters at the start of `t` is a word when `t` starts with one. */
  lemma FirstWord(t: string)
    requires t != [] && !IsSpace(t[0])
    ensures IsWord(t[..WordLen(t)])
  {
    var n := WordLen(t);
    assert n >= 1;
    forall i | 0 <= i < n
      ensures !IsSpace(t[..n][i])
    {
      assert t[..n][i] == t[i];
    }
  }

  /** `split()` of a string that starts with a non-space: its first run, then the split of the rest. */
  lemma WordsUnfold(t: string)
    requires t != [] && !IsSpace(t[0])
    ensures Words(t) == [t[..WordLen(t)]] + Words(t[WordLen(t)..])
  {
    assert TrimStart(t) == t;
  }

  /** A word in front of words gives words. */
  lemma AllWordsCons(w: string, ws: seq<string>)
    requires IsWord(w) && forall k :: 0 <= k < |ws| ==> IsWord(ws[k])
    ensures forall k :: 0 <= k < |[w] + ws| ==> IsWord(([w] + ws)[k])
  {
    forall k | 0 <= k < |[w] + ws|
      ensures IsWord(([w] + ws)[k])
    {
      if k > 0 {
        assert ([w] + ws)[k] == ws[k - 1];
      }
    }
  }

  /** `sep.join(parts)`. */
  function Join(parts: seq<string>, sep: string): string
    decreases |parts|
  {
    if parts == [] then ""
    else if |parts| == 1 then parts[0]
    else parts[0] + sep + Join(parts[1..], sep)
  }

  lemma JoinCons(parts: seq<string>, sep: string)
    requires |parts| >= 2
    ensures Join(parts, sep) == parts[0] + (sep + Join(parts[1..], sep))
  {
  }

  /** `' '.join(s.split())`: runs of whitespace become one space, ends are trimmed. */
  function Collapse(s: string): string {
    Join(Words(s), " ")
  }

  /** No two adjacent whitespace characters. */
  predicate NoDoubleSpace(s: string) {
    forall i :: 0 <= i < |s| - 1 ==> !(IsSpace(s[i]) && IsSpace(s[i + 1]))
  }

  /** The only whitespace character left is the plain space. */
  predicate OnlyPlainSpaces(s: string) {
    forall i :: 0 <= i < |s| ==> IsSpace(s[i]) ==> s[i] == ' '
  }

  lemma {:induction false} WordLenOfWordThenSpace(w: string, rest: string)
    requires IsWord(w)
    requires rest == [] || IsSpace(rest[0])
    ensures WordLen(w + rest) == |w|
    decreases |w|
  {
    var s := w + rest;
    if |w| == 1 {
      assert s[1..] == rest;
    } else {
      assert s[1..] == w[1..] + rest;
      WordLenOfWordThenSpace(w[1..], rest);
    }
  }

  /** A word followed by whitespace (or nothing) splits off as the first word. */
  lemma WordsOfWordThen(w: string, rest: string)
    requires IsWord(w)
    requires rest == [] || IsSpace(rest[0])
    ensures Words(w + rest) == [w] + Words(rest)
  {
    var s := w + rest;
    assert s[0] == w[0];
    WordsUnfold(s);
    WordLenOfWordThenSpace(w, rest);
    assert s[..|w|] == w;
    assert s[|w|..] == rest;
  }

  /** Leading whitespace does not change the split. */
  lemma WordsSkipSpace(c: char, rest: string)
    requires IsSpace(c)
    ensures Words([c] + rest) == Words(rest)
  {
    assert ([c] + rest)[1..] == rest;
    assert TrimStart([c] + rest) == TrimStart(rest);
  }

  /** A single word splits to itself. */
  lemma WordsOfWord(w: string)
    requires IsWord(w)
    ensures Words(w) == [w]
  {
    WordsOfWordThen(w, "");
    assert w + "" == w;
  }

  /** One step of `WordsOfJoin`: a word in front of a join that already splits back. */
  lemma WordsOfJoinStep(ws: seq<string>)
    requires |ws| >= 2 && IsWord(ws[0])
    requires Words(Join(ws[1..], " ")) == ws[1..]
    ensures Words(Join(ws, " ")) == ws
  {
    var rest := Join(ws[1..], " ");
    JoinCons(ws, " ");
    WordsOfWordThen(ws[0], " " + rest);
    WordsSkipSpace(' ', rest);
    assert [' '] + rest == " " + rest;
  }

  /** Splitting the space-join of words gives the words back. */
  lemma {:induction false} WordsOfJoin(ws: seq<string>)
    requires forall k :: 0 <= k < |ws| ==> IsWord(ws[k])
    ensures Words(Join(ws, " ")) == ws
    decreases |ws|
  {
    if ws == [] {
    } else if |ws| == 1 {
      WordsOfWord(ws[0]);
    } else {
      WordsOfJoin(ws[1..]);
      WordsOfJoinStep(ws);
    }
  }

  /** The space-join of words has no whitespace at either end, no doubled whitespace, and only plain spaces. */
  lemma {:induction false} JoinOfWordsShape(ws: seq<string>)
    requires forall k :: 0 <= k < |ws| ==> IsWord(ws[k])
    ensures IsStripped(Join(ws, " "))
    ensures NoDoubleSpace(Join(ws, " "))
    ensures OnlyPlainSpaces(Join(ws, " "))
    ensures ws != [] ==> Join(ws, " ") != []
    decreases |ws|
  {
    if |ws| <= 1 {
    } else {
      var w := ws[0];
      var rest := Join(ws[1..], " ");
      JoinOfWordsShape(ws[1..]);
      var s := w + " " + rest;
      assert Join(ws, " ") == s;
      assert s[0] == w[0];
      assert s[|s| - 1] == rest[|rest| - 1];
      forall i | 0 <= i < |s| - 1
        ensures !(IsSpace(s[i]) && IsSpace(s[i + 1]))
      {
        if i < |w| - 1 {
        } else if i == |w| - 1 {
        } else if i == |w| {
          assert s[i + 1] == rest[0];
        } else {
          assert s[i] == rest[i - |w| - 1] && s[i + 1] == rest[i - |w|];
        }
      }
      forall i | 0 <= i < |s| && IsSpace(s[i])
        ensures s[i] == ' '
      {
        if i < |w| {
        } else if i == |w| {
        } else {
          assert s[i] == rest[i - |w| - 1];
        }
      }
    }
  }

  /** The normalised query: stripped, single plain spaces only, and the same word sequence as the input. */
  lemma CollapseProperties(s: string)
    ensures IsStripped(Collapse(s))
    ensures NoDoubleSpace(Collapse(s))
    ensures OnlyPlainSpaces(Collapse(s))
    ensures Words(Collapse(s)) == Words(s)
  {
    JoinOfWordsShape(Words(s));
    WordsOfJoin(Words(s));
  }

  /** Normalising twice is normalising once. */
  lemma CollapseIdempotent(s: string)
    ensures Collapse(Collapse(s)) == Collapse(s)
  {
    WordsOfJoin(Words(s));
  }

  function UpperChar(c: char): char {
    if 'a' <= c <= 'z' then (c as int - 'a' as int + 'A' as int) as char else c
  }

  function LowerChar(c: char): char {
    if 'A' <= c <= 'Z' then (c as int - 'A' as int + 'a' as int) as char else c
  }

  /** `s.upper()` on ASCII letters. */
  function Upper(s: string): string {
    seq(|s|, i requires 0 <= i < |s| => UpperChar(s[i]))
  }

  /** `s.lower()` on ASCII letters. */
  function Lower(s: string): string {
    seq(|s|, i requires 0 <= i < |s| => LowerChar(s[i]))
  }

  /** `s.startswith(p)`. */
  predicate StartsWith(s: string, p: string) {
    |p| <= |s| && s[..|p|] == p
  }

  /** `p in s`, the substring test; the empty string occurs in every string. */
  predicate Contains(s: string, p: string)
    decreases |s|
  {
    StartsWith(s, p) || (s != [] && Contains(s[1..], p))
  }

  /** A string occurs in any string built around it. */
  lemma {:induction false} ContainsMiddle(a: string, p: string, b: string)
    ensures Contains(a + p + b, p)
    decreases |a|
  {
    if a == [] {
      assert a + p + b == p + b;
      assert (p + b)[..|p|] == p;
    } else {
      assert (a + p + b)[1..] == a[1..] + p + b;
      ContainsMiddle(a[1..], p, b);
    }
  }

  /** Number of occurrences of `c` in `s` (`s.count(c)`). */
  function CountChar(s: string, c: char): nat
    decreases |s|
  {
    if s == [] then 0 else (if s[0] == c then 1 else 0) + CountChar(s[1..], c)
  }

  lemma {:induction false} CountCharAbsent(s: string, c: char)
    requires c !in s
    ensures CountChar(s, c) == 0
    decreases |s|
  {
    if s != [] {
      assert forall i :: 0 <= i < |s| - 1 ==> s[1..][i] == s[i + 1];
      CountCharAbsent(s[1..], c);
    }
  }

  lemma {:induction false} CountCharAppend(a: string, b: string, c: char)
    ensures CountChar(a + b, c) == CountChar(a, c) + CountChar(b, c)
    decreases |a|
  {
    if a == [] {
      assert a + b == b;
    } else {
      assert (a + b)[1..] == a[1..] + b;
      CountCharAppend(a[1..], b, c);
    }
  }

  /** Occurrences of `c` in a join of two or more parts: the first part's, the separator's, and the rest's. */
  lemma CountCharJoinStep(parts: seq<string>, sep: string, c: char)
    requires |parts| >= 2
    ensures CountChar(Join(parts, sep), c) == CountChar(parts[0], c) + CountChar(sep, c) + CountChar(Join(parts[1..], sep), c)
  {
    var rest := Join(parts[1..], sep);
    assert Join(parts, sep) == parts[0] + sep + rest;
    CountCharAppend(parts[0] + sep, rest, c);
    CountCharAppend(parts[0], sep, c);
  }

  /** Parts holding one `c` each, joined by a separator without `c`: the join holds one per part. */
  lemma {:induction false} CountCharJoin(parts: seq<string>, sep: string, c: char)
    requires forall k :: 0 <= k < |parts| ==> CountChar(parts[k], c) == 1
    requires CountChar(sep, c) == 0
    ensures CountChar(Join(parts, sep), c) == |parts|
    decreases |parts|
  {
    if |parts| == 1 {
      assert Join(parts, sep) == parts[0];
    } else if |parts| >= 2 {
      var tail := parts[1..];
      assert forall k :: 0 <= k < |tail| ==> tail[k] == parts[k + 1];
      CountCharJoin(tail, sep, c);
      CountCharJoinStep(parts, sep, c);
    }
  }

  /** `str(n)` for a natural number: its decimal digits, most significant first, without leading zeros. */
  function Decimal(n: nat): (s: string)
    ensures s != [] && forall i :: 0 <= i < |s| ==> '0' <= s[i] <= '9'
    ensures |s| > 1 ==> s[0] != '0'
    decreases n
  {
    if n < 10 then ["0123456789"[n]]
    else Decimal(n / 10) + ["0123456789"[n % 10]]
  }

  /** Each of `ws` upper-cased. */
  function UpperAll(ws: seq<string>): (us: seq<string>)
    ensures |us| == |ws| && forall k :: 0 <= k < |ws| ==> us[k] == Upper(ws[k])
  {
    seq(|ws|, k requires 0 <= k < |ws| => Upper(ws[k]))
  }

  /** Upper-casing neither creates nor removes whitespace. */
  lemma UpperCharKeepsSpace(c: char)
    ensures IsSpace(UpperChar(c)) <==> IsSpace(c)
  {
  }

  lemma UpperAppend(a: string, b: string)
    ensures Upper(a + b) == Upper(a) + Upper(b)
  {
  }

  lemma UpperIdempotent(s: string)
    ensures Upper(Upper(s)) == Upper(s)
  {
  }

  lemma {:induction false} TrimStartUpper(s: string)
    ensures TrimStart(Upper(s)) == Upper(TrimStart(s))
    decreases |s|
  {
    if s != [] {
      UpperCharKeepsSpace(s[0]);
      assert Upper(s)[1..] == Upper(s[1..]);
      TrimStartUpper(s[1..]);
    }
  }

  lemma {:induction false} WordLenUpper(s: string)
    ensures WordLen(Upper(s)) == WordLen(s)
    decreases |s|
  {
    if s != [] {
      UpperCharKeepsSpace(s[0]);
      assert Upper(s)[1..] == Upper(s[1..]);
      WordLenUpper(s[1..]);
    }
  }

  lemma UpperAllCons(w: string, ws: seq<string>)
    ensures UpperAll([w] + ws) == [Upper(w)] + UpperAll(ws)
  {
  }

  /** Upper-casing commutes with cutting a string in two. */
  lemma UpperSlices(t: string, n: nat)
    requires n <= |t|
    ensures Upper(t)[..n] == Upper(t[..n])
    ensures Upper(t)[n..] == Upper(t[n..])
  {
  }

  /** One step of `WordsUpper`: the first word of a string that starts with a non-space. */
  lemma WordsUpperStep(t: string)
    requires t != [] && !IsSpace(t[0])
    ensures var n := WordLen(t);
      Words(Upper(t)) == [Upper(t[..n])] + Words(Upper(t[n..]))
  {
    var n := WordLen(t);
    var u := Upper(t);
    UpperCharKeepsSpace(t[0]);
    WordsUnfold(u);
    WordLenUpper(t);
    UpperSlices(t, n);
  }

  /** Splitting an upper-cased string gives the upper-cased words. */
  lemma {:induction false} WordsUpper(s: string)
    ensures Words(Upper(s)) == UpperAll(Words(s))
    decreases |s|
  {
    var t := TrimStart(s);
    TrimStartUpper(s);
    assert Words(Upper(s)) == Words(Upper(t));
    if t != [] {
      var n := WordLen(t);
      WordsUpperStep(t);
      WordsUpper(t[n..]);
      assert Words(s) == [t[..n]] + Words(t[n..]);
      UpperAllCons(t[..n], Words(t[n..]));
    }
  }

  /** Joining upper-cased parts with a space is upper-casing the join. */
  lemma {:induction false} JoinUpper(ws: seq<string>)
    ensures Join(UpperAll(ws), " ") == Upper(Join(ws, " "))
    decreases |ws|
  {
    if |ws| >= 2 {
      JoinUpper(ws[1..]);
      assert UpperAll(ws)[1..] == UpperAll(ws[1..]);
      UpperAppend(ws[0] + " ", Join(ws[1..], " "));
      UpperAppend(ws[0], " ");
    }
  }

  /** Collapsing whitespace and upper-casing can be done in either order. */
  lemma CollapseUpper(s: string)
    ensures Collapse(Upper(s)) == Upper(Collapse(s))
  {
    WordsUpper(s);
    JoinUpper(Words(s));
  }
}

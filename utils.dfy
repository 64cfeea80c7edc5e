/**
 * The `utils` helpers of the unit-testing project: `access_nested_map`,
 * which follows a path of keys through nested dictionaries, and `memoize`,
 * which turns a method into a property computed once per object.
 */
module Utils {
  import opened Python

  // ---------------------------------------------------------------------
  // access_nested_map
  // ---------------------------------------------------------------------

  /** `KeyError(key)`: its argument, and so its message, is the key. */
  function MissingKey(key: string): Error {
    PyError(KeyError, key)
  }

  /** `isinstance(v, dict) and key in v`. */
  predicate HasKey(v: Value, key: string) {
    v.DictV? && key in v.entries
  }

  /**
   * The value reached from `v` by looking up each key of `path` in turn,
   * or a KeyError for the first key that is missing or is applied to
   * something other than a dictionary.
   */
  function Lookup(v: Value, path: seq<string>): Result<Value>
    decreases |path|
  {
    if path == [] then Ok(v)
    else if HasKey(v, path[0]) then Lookup(v.entries[path[0]], path[1..])
    else Err(MissingKey(path[0]))
  }

  /** `access_nested_map(nested_map, path)`: the loop that carries `current` forward key by key. */
  method AccessNestedMap(nestedMap: Value, path: seq<string>) returns (r: Result<Value>)
    ensures r == Lookup(nestedMap, path)
    ensures path == [] ==> r == Ok(nestedMap)
  {
    var current := nestedMap;
    var i := 0;
    while i < |path|
      invariant 0 <= i <= |path|
      invariant Lookup(nestedMap, path) == Lookup(current, path[i..])
    {
      var key := path[i];
      assert path[i..][1..] == path[i + 1..];
      if !HasKey(current, key) {
        return Err(MissingKey(key));
      }
      current := current.entries[key];
      i := i + 1;
    }
    assert path[i..] == [];
    r := Ok(current);
  }

  /** Looking up `p + q` is looking up `q` in what `p` reaches; a failure along `p` is final. */
  lemma {:induction false} LookupAppend(v: Value, p: seq<string>, q: seq<string>)
    ensures Lookup(v, p + q) == match Lookup(v, p) case Ok(w) => Lookup(w, q) case Err(e) => Err(e)
    decreases |p|
  {
    if p == [] {
      assert p + q == q;
    } else {
      assert (p + q)[0] == p[0];
      assert (p + q)[1..] == p[1..] + q;
      if HasKey(v, p[0]) {
        LookupAppend(v.entries[p[0]], p[1..], q);
      }
    }
  }

  /**
   * A failing lookup raises KeyError for the first key of the path that
   * cannot be applied: every key before it succeeds, and the value reached
   * there is not a dictionary holding it.
   */
  lemma {:induction false} FirstMissingKey(v: Value, path: seq<string>) returns (i: nat)
    requires Lookup(v, path).Err?
    ensures i < |path| && Lookup(v, path[..i]).Ok?
    ensures !HasKey(Lookup(v, path[..i]).value, path[i])
    ensures Lookup(v, path).error == MissingKey(path[i])
    decreases |path|
  {
    assert path != [];
    if HasKey(v, path[0]) {
      var j := FirstMissingKey(v.entries[path[0]], path[1..]);
      i := j + 1;
      assert path[..i][0] == path[0];
      assert path[..i][1..] == path[1..][..j];
    } else {
      i := 0;
      assert path[..0] == [];
    }
  }

  /** The parameterised cases of the unit tests. */
  lemma NestedMapExamples()
    ensures Lookup(DictV(map["a" := IntV(1)]), ["a"]) == Ok(IntV(1))
    ensures Lookup(DictV(map["a" := DictV(map["b" := IntV(2)])]), ["a"]) == Ok(DictV(map["b" := IntV(2)]))
    ensures Lookup(DictV(map["a" := DictV(map["b" := IntV(2)])]), ["a", "b"]) == Ok(IntV(2))
    ensures Lookup(DictV(map[]), ["a"]) == Err(MissingKey("a"))
    ensures Lookup(DictV(map["a" := IntV(1)]), ["a", "b"]) == Err(MissingKey("b"))
  {
    assert ["a", "b"][1..] == ["b"];
    assert ["a"][1..] == [];
    assert ["b"][1..] == [];
  }

  // ---------------------------------------------------------------------
  // memoize
  // ---------------------------------------------------------------------

  /** The attribute under which `memoize` keeps the value of method `name`. */
  function CacheAttr(name: string): (attr: string)
    ensures |attr| == |name| + 1 && attr[0] == '_' && attr[1..] == name
  {
    "_" + name
  }

  /**
   * An object whose class has memoized properties: its instance attributes
   * and the number of times the wrapped method has run on it.
   */
  class Instance {
    var attrs: map<string, Value>
    var runs: nat

    constructor (attrs0: map<string, Value>)
      ensures attrs == attrs0 && runs == 0
    {
      attrs := attrs0;
      runs := 0;
    }

    /**
     * Reading the memoized property `name`: when the object has no
     * attribute `"_" + name`, the method runs (its `k`-th run gives
     * `func(k)`) and a returned value is stored there; an exception
     * propagates and stores nothing. The attribute's value is returned.
     */
    method Property(name: string, func: nat -> Outcome) returns (out: Outcome)
      modifies this
      ensures CacheAttr(name) in old(attrs) ==>
        out == Returned(old(attrs)[CacheAttr(name)]) && attrs == old(attrs) && runs == old(runs)
      ensures CacheAttr(name) !in old(attrs) ==> out == func(old(runs)) && runs == old(runs) + 1
      ensures CacheAttr(name) !in old(attrs) && out.Returned? ==> attrs == old(attrs)[CacheAttr(name) := out.value]
      ensures CacheAttr(name) !in old(attrs) && out.Raised? ==> attrs == old(attrs)
    {
      var attr := CacheAttr(name);
      if attr !in attrs {
        var result := func(runs);
        runs := runs + 1;
        if result.Raised? {
          return result;
        }
        attrs := attrs[attr := result.value];
      }
      out := Returned(attrs[attr]);
    }
  }

  /**
   * Two reads of a memoized property on a fresh object: the method runs
   * once, and both reads return its first value.
   */
  method ReadTwice(name: string, func: nat -> Outcome) returns (first: Outcome, second: Outcome, runs: nat)
    requires func(0).Returned?
    ensures first == second == func(0)
    ensures runs == 1
  {
    var obj := new Instance(map[]);
    first := obj.Property(name, func);
    second := obj.Property(name, func);
    runs := obj.runs;
  }

  /** Once the value is cached, any number of further reads neither run the method nor change it. */
  method ReadAgain(obj: Instance, name: string, func: nat -> Outcome, times: nat) returns (outs: seq<Outcome>)
    requires CacheAttr(name) in obj.attrs
    modifies obj
    ensures |outs| == times
    ensures forall k :: 0 <= k < times ==> outs[k] == Returned(old(obj.attrs)[CacheAttr(name)])
    ensures obj.attrs == old(obj.attrs) && obj.runs == old(obj.runs)
  {
    outs := [];
    while |outs| < times
      invariant |outs| <= times
      invariant forall k :: 0 <= k < |outs| ==> outs[k] == Returned(old(obj.attrs)[CacheAttr(name)])
      invariant obj.attrs == old(obj.attrs) && obj.runs == old(obj.runs)
    {
      var out := obj.Property(name, func);
      outs := outs + [out];
    }
  }
}

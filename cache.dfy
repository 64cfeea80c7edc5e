/**
 * The query-result cache (python-decorators-0x01/4-cache_query.py, copied
 * verbatim as 0x03-Unittests_and_integration_tests/test_util.py).
 *
 * The module-level `query_cache` dict is a `QueryCache` object whose
 * `entries` map is updated in place. The clock is a parameter: `now` is what
 * `datetime.now()` returns during the call, in seconds. The SHA-256 digest of
 * `func_name:normalised_query:params` is modelled as the triple itself, so
 * distinct triples are distinct keys.
 */
module Cache {
  import opened Python
  import opened Text
  import opened Extremes
  import opened QueryArgs

  /** How `_generate_cache_key` renders the parameters: "" when falsy, `json.dumps(sort_keys=True)` for a dict, `str()` otherwise. */
  datatype ParamsText = NoParams | SortedJson(entries: map<string, Value>) | Repr(v: Value)

  datatype Key = Digest(funcName: string, query: string, params: ParamsText)

  function RenderParams(params: Value): (t: ParamsText)
    ensures t == NoParams <==> !Truthy(params)
  {
    if !Truthy(params) then NoParams
    else if params.DictV? then SortedJson(params.entries)
    else Repr(params)
  }

  /** `' '.join(query.split()).upper()`. */
  function NormalQuery(query: string): string {
    Upper(Collapse(query))
  }

  /** `_generate_cache_key(query, params, func_name)`. */
  function CacheKey(query: string, params: Value, funcName: string): Key {
    Digest(funcName, NormalQuery(query), RenderParams(params))
  }

  /** An upper-cased word is still a word. */
  lemma UpperWord(w: string)
    requires IsWord(w)
    ensures IsWord(Upper(w))
  {
    forall i | 0 <= i < |w|
      ensures !IsSpace(Upper(w)[i])
    {
      UpperCharKeepsSpace(w[i]);
    }
  }

  /** The normalised query is the space-join of the upper-cased words, and splits back into them. */
  lemma NormalQueryWords(query: string)
    ensures NormalQuery(query) == Join(UpperAll(Words(query)), " ")
    ensures Words(NormalQuery(query)) == UpperAll(Words(query))
  {
    var ws := UpperAll(Words(query));
    JoinUpper(Words(query));
    forall k | 0 <= k < |ws|
      ensures IsWord(ws[k])
    {
      UpperWord(Words(query)[k]);
    }
    WordsOfJoin(ws);
  }

  /**
   * Two calls share a key exactly when they come from the same function,
   * their parameters render alike, and their queries have the same words
   * once upper-cased: spacing and letter case in the query do not matter,
   * anything else does.
   */
  lemma KeyIdentity(q1: string, p1: Value, f1: string, q2: string, p2: Value, f2: string)
    ensures CacheKey(q1, p1, f1) == CacheKey(q2, p2, f2) <==>
      f1 == f2 && UpperAll(Words(q1)) == UpperAll(Words(q2)) && RenderParams(p1) == RenderParams(p2)
  {
    NormalQueryWords(q1);
    NormalQueryWords(q2);
  }

  /** Upper-casing the query first does not change its key. */
  lemma KeyIgnoresCase(query: string, params: Value, funcName: string)
    ensures CacheKey(Upper(query), params, funcName) == CacheKey(query, params, funcName)
  {
    CollapseUpper(query);
    UpperIdempotent(Collapse(query));
  }

  /** Falsy parameters of any type (None, [], (), {}) give the same key as no parameters. */
  lemma FalsyParamsShareKey(query: string, params: Value, funcName: string)
    requires !Truthy(params)
    ensures CacheKey(query, params, funcName) == CacheKey(query, NoneV, funcName)
  {
  }

  /** A cache entry; `result` is the snapshot taken when it was stored. */
  datatype Entry = Entry(result: Value, query: string, params: Value, funcName: string,
                         cachedAt: int, expiresAt: int, hits: nat, lastAccessed: int)

  /** `_is_cache_valid`: every stored entry has an `expires_at`, and it is valid strictly before it. */
  predicate IsValid(e: Entry, now: int) {
    now < e.expiresAt
  }

  /** `dict(row)`: a row's columns by name, a later column of the same name winning. */
  function Columns(cs: seq<(string, Value)>): map<string, Value>
    decreases |cs|
  {
    if cs == [] then map[] else Columns(cs[..|cs| - 1])[cs[|cs| - 1].0 := cs[|cs| - 1].1]
  }

  function AsDict(v: Value): Value {
    match v
    case RowV(cs) => DictV(Columns(cs))
    case _ => v
  }

  /**
   * What `_store_in_cache` keeps of a result: a non-empty list whose first
   * element has `keys` becomes a list of dicts, a value with `keys` becomes a
   * dict, and anything else is kept as it is.
   */
  function Snapshot(result: Value): Value {
    if result.ListV? && result.items != [] && HasAttr(result.items[0], "keys") then
      ListV(seq(|result.items|, i requires 0 <= i < |result.items| => AsDict(result.items[i])))
    else if HasAttr(result, "keys") then AsDict(result)
    else result
  }

  /** A stored result is already a snapshot: taking it again changes nothing. */
  lemma SnapshotIdempotent(result: Value)
    ensures Snapshot(Snapshot(result)) == Snapshot(result)
  {
    var s := Snapshot(result);
    if result.ListV? && result.items != [] && HasAttr(result.items[0], "keys") {
      assert s.items[0] == AsDict(result.items[0]);
      assert HasAttr(s.items[0], "keys");
      assert Snapshot(s).items == s.items;
    }
  }

  /** A hit and a miss on the same rows answer differently: rows on a miss, dicts on a hit. */
  lemma HitDiffersFromMiss()
    ensures var rows := ListV([RowV([("id", IntV(1))])]);
      Snapshot(rows) == ListV([DictV(map["id" := IntV(1)])]) && Snapshot(rows) != rows
  {
    var rows := ListV([RowV([("id", IntV(1))])]);
    var cs := [("id", IntV(1))];
    assert cs[..0] == [];
    assert Columns(cs) == map["id" := IntV(1)];
    assert Snapshot(rows).items[0] == DictV(map["id" := IntV(1)]);
  }

  /** A fresh entry: no hits, last accessed when cached, expiring `ttl` seconds later. */
  function NewEntry(result: Value, query: string, params: Value, funcName: string, now: int, ttl: int): Entry {
    Entry(Snapshot(result), query, params, funcName, now, now + ttl, 0, now)
  }

  /** The entry after a hit at `now`. */
  function Touched(e: Entry, now: int): Entry {
    e.(hits := e.hits + 1, lastAccessed := now)
  }

  /** The sum of the hits of all entries (`get_cache_stats`' `total_hits`). */
  ghost function TotalHits(m: map<Key, Entry>): nat
    decreases |m|
  {
    if m == map[] then 0
    else
      var k :| k in m;
      m[k].hits + TotalHits(m - {k})
  }

  /** The total does not depend on which entry is taken first. */
  lemma {:induction false} TotalHitsRemove(m: map<Key, Entry>, k: Key)
    requires k in m
    ensures TotalHits(m) == m[k].hits + TotalHits(m - {k})
    decreases |m|
  {
    var j :| j in m && TotalHits(m) == m[j].hits + TotalHits(m - {j});
    if j != k {
      TotalHitsRemove(m - {j}, k);
      TotalHitsRemove(m - {k}, j);
      assert m - {j} - {k} == m - {k} - {j};
    }
  }

  /** A hit adds exactly one to the total number of hits. */
  lemma TouchAddsOneHit(m: map<Key, Entry>, k: Key, now: int)
    requires k in m
    ensures TotalHits(m[k := Touched(m[k], now)]) == TotalHits(m) + 1
  {
    var m' := m[k := Touched(m[k], now)];
    TotalHitsRemove(m, k);
    TotalHitsRemove(m', k);
    assert m' - {k} == m - {k};
  }

  /**
   * `n` entries were evicted from `before`, leaving `after`: the survivors
   * are unchanged and none was accessed earlier than an evicted entry.
   */
  predicate Evicted(before: map<Key, Entry>, after: map<Key, Entry>, n: int) {
    && after.Keys <= before.Keys
    && |before| - |after| == n
    && (forall k :: k in after ==> after[k] == before[k])
    && (forall r, k :: r in before && r !in after && k in after ==> before[r].lastAccessed <= after[k].lastAccessed)
  }

  /** Every entry is stored under the key of its own query, parameters and function name. */
  ghost predicate KeyedMap(m: map<Key, Entry>) {
    forall k :: k in m ==> k == CacheKey(m[k].query, m[k].params, m[k].funcName)
  }

  /** Storing an entry under the key of its own contents keeps the map keyed by content. */
  lemma PutKeepsKeys(m: map<Key, Entry>, key: Key, e: Entry)
    requires KeyedMap(m) && key == CacheKey(e.query, e.params, e.funcName)
    ensures KeyedMap(m[key := e])
  {
  }

  /** Cleaning up only removes entries, so it keeps every survivor under its own key. */
  lemma CleanedUpKeepsKeys(before: map<Key, Entry>, after: map<Key, Entry>, maxEntries: int, err: Option<Error>)
    requires CleanedUp(before, after, maxEntries, err) && KeyedMap(before)
    ensures KeyedMap(after)
  {
  }

  /** `sorted_entries[i]` past the end of the list. */
  const IndexOutOfRange: Error := PyError(IndexError, "list index out of range")

  /**
   * What `_cleanup_cache(max_entries)` leaves: nothing changes at or under
   * capacity; above it, `size - max_entries + 10` least recently accessed
   * entries go. With `max_entries` below 10 that is more than there are:
   * every entry is removed and the next index raises IndexError.
   */
  predicate CleanedUp(before: map<Key, Entry>, after: map<Key, Entry>, maxEntries: int, err: Option<Error>) {
    if |before| <= maxEntries then after == before && err.None?
    else if maxEntries >= 10 then err.None? && Evicted(before, after, |before| - maxEntries + 10)
    else err == Some(IndexOutOfRange) && after == map[]
  }

  /** `cache_query`'s fixed settings and `cache_query_advanced`'s parameters. */
  datatype Config = Config(ttl: int, maxEntries: int, readOnly: bool, parametersKeyword: bool)

  /** `@cache_query`: 300 seconds, 100 entries, SELECT/WITH only, `params` or `parameters`. */
  const BasicConfig: Config := Config(300, 100, true, true)

  /** `@cache_query_advanced(ttl_seconds, max_cache_size, cache_read_only)`; only the `params` keyword. */
  function AdvancedConfig(ttl: int, maxCacheSize: int, readOnly: bool): Config {
    Config(ttl, maxCacheSize, readOnly, false)
  }

  function ParamsKeywords(cfg: Config): (names: seq<string>)
    ensures names != []
  {
    if cfg.parametersKeyword then ["params", "parameters"] else ["params"]
  }

  /** A positional string argument that mentions SELECT or WITH once upper-cased. */
  predicate IsReadQueryArg(v: Value) {
    MentionsAny(v, ["SELECT", "WITH"])
  }

  /** The query, stripped and upper-cased, starts with SELECT or WITH. */
  predicate IsReadQuery(query: string) {
    var u := Upper(Strip(query));
    StartsWith(u, "SELECT") || StartsWith(u, "WITH")
  }

  /** `args[1:]`: the arguments after the connection. */
  function AfterConnection(args: seq<Value>): seq<Value> {
    if args == [] then [] else args[1..]
  }

  /** The parameter test: a tuple, list or dict that is not the query itself. */
  function ParamsTest(query: Value): Value -> bool {
    (v: Value) => IsParamsContainer(v) && v != query
  }

  /** The query the cache wrappers find: the first positional read query, else `query` or `sql`. */
  function FoundQuery(args: seq<Value>, kwargs: map<string, Value>): Value {
    var rest := AfterConnection(args);
    var positional := match FirstIndex(rest, IsReadQueryArg) case Some(i) => rest[i] case None => NoneV;
    if Truthy(positional) then positional else GetFirstTruthy(kwargs, ["query", "sql"])
  }

  /** The parameters: the first positional container other than the query, else the keywords. */
  function FoundParams(cfg: Config, args: seq<Value>, kwargs: map<string, Value>, query: Value): Value {
    var rest := AfterConnection(args);
    var positional := match FirstIndex(rest, ParamsTest(query)) case Some(i) => rest[i] case None => NoneV;
    if Truthy(positional) then positional else GetFirstTruthy(kwargs, ParamsKeywords(cfg))
  }

  /** What a cache wrapper decides before looking at the cache. */
  datatype Plan = Bypass | Fail(error: Error) | Use(key: Key, query: string, params: Value)

  function PlanFor(cfg: Config, funcName: string, args: seq<Value>, kwargs: map<string, Value>): Plan {
    var q := FoundQuery(args, kwargs);
    if !Truthy(q) then Bypass
    else if !q.StrV? then Fail(NotAString(if cfg.readOnly then "strip" else "split"))
    else if cfg.readOnly && !IsReadQuery(q.s) then Bypass
    else
      var params := FoundParams(cfg, args, kwargs, q);
      Use(CacheKey(q.s, params, funcName), q.s, params)
  }

  /**
   * The cache is used exactly for a truthy string query that, for the
   * read-only wrappers, starts with SELECT or WITH once stripped and
   * upper-cased; `cache_query_advanced(cache_read_only=False)` uses it for
   * any such query. A call with no positional read query and neither a
   * `query` nor a `sql` keyword bypasses the cache.
   */
  lemma PlanUsesCacheOnlyForQueries(cfg: Config, funcName: string, args: seq<Value>, kwargs: map<string, Value>)
    ensures var q := FoundQuery(args, kwargs);
      PlanFor(cfg, funcName, args, kwargs).Use? <==> q.StrV? && Truthy(q) && (cfg.readOnly ==> IsReadQuery(q.s))
    ensures (forall i :: 0 <= i < |AfterConnection(args)| ==> !IsReadQueryArg(AfterConnection(args)[i]))
      && !Truthy(Get(kwargs, "query")) && !Truthy(Get(kwargs, "sql"))
      ==> PlanFor(cfg, funcName, args, kwargs) == Bypass
  {
    var rest := AfterConnection(args);
    if forall i :: 0 <= i < |rest| ==> !IsReadQueryArg(rest[i]) {
      assert FirstIndex(rest, IsReadQueryArg).None?;
      var names := ["query", "sql"];
      if !Truthy(Get(kwargs, "query")) && !Truthy(Get(kwargs, "sql")) {
        assert forall i :: 0 <= i < |names| ==> !Truthy(Get(kwargs, names[i]));
      }
    }
  }

  /** The module-level `query_cache`. */
  class QueryCache {
    var entries: map<Key, Entry>

    constructor ()
      ensures entries == map[]
    {
      entries := map[];
    }

    /** Every entry is stored under the key of its own query, parameters and function name. */
    ghost predicate KeyedByContent()
      reads this
    {
      KeyedMap(entries)
    }

    /** `_store_in_cache`: the new entry replaces any entry under `key` and no other entry changes. */
    method Store(key: Key, result: Value, query: string, params: Value, funcName: string, now: int, ttl: int)
      modifies this
      ensures entries == old(entries)[key := NewEntry(result, query, params, funcName, now, ttl)]
    {
      var cached := Snapshot(result);
      entries := entries[key := Entry(cached, query, params, funcName, now, now + ttl, 0, now)];
    }

    /** An entry accessed no later than any other. */
    method Oldest() returns (k: Key)
      requires entries != map[]
      ensures k in entries
      ensures forall j :: j in entries ==> entries[k].lastAccessed <= entries[j].lastAccessed
    {
      var current := entries;
      var least := LeastExists(current.Keys, (j: Key) => if j in current then current[j].lastAccessed else 0);
      k :| k in current && forall j :: j in current ==> current[k].lastAccessed <= current[j].lastAccessed;
    }

    /**
     * `_cleanup_cache(max_entries)`: removes `size - max_entries + 10`
     * entries in order of last access, one at a time; the error is the
     * IndexError raised when that count exceeds the size.
     */
    method Cleanup(maxEntries: int) returns (err: Option<Error>)
      modifies this
      ensures CleanedUp(old(entries), entries, maxEntries, err)
    {
      if |entries| <= maxEntries {
        return None;
      }
      ghost var before := entries;
      var toRemove := |entries| - maxEntries + 10;
      var i := 0;
      while i < toRemove
        invariant 0 <= i <= toRemove
        invariant Evicted(before, entries, i)
      {
        if entries == map[] {
          return Some(IndexOutOfRange);
        }
        var oldest := Oldest();
        assert (entries - {oldest}).Keys == entries.Keys - {oldest};
        entries := entries - {oldest};
        i := i + 1;
      }
      return None;
    }

    /** `clear_cache`. */
    method Clear()
      modifies this
      ensures entries == map[]
    {
      entries := map[];
    }

    /** `get_cache_stats`' counts: the number of entries and the sum of their hits, zeros when empty. */
    method GetCacheStats() returns (totalEntries: nat, totalHits: nat)
      ensures totalEntries == |entries| && totalHits == TotalHits(entries)
    {
      if entries == map[] {
        return 0, 0;
      }
      totalEntries := |entries|;
      totalHits := 0;
      var rest := entries;
      while rest != map[]
        invariant totalHits + TotalHits(rest) == TotalHits(entries)
        decreases |rest|
      {
        var k :| k in rest;
        TotalHitsRemove(rest, k);
        totalHits := totalHits + rest[k].hits;
        assert (rest - {k}).Keys == rest.Keys - {k};
        rest := rest - {k};
      }
    }

    /**
     * `invalidate_cache_pattern`: collects the keys whose query contains the
     * pattern, ignoring case, then deletes them; every other entry stays.
     */
    method InvalidatePattern(pattern: string)
      modifies this
      ensures entries == map k | k in old(entries) && !Matches(old(entries)[k], pattern) :: old(entries)[k]
    {
      var keysToRemove: seq<Key> := [];
      var pending := entries.Keys;
      while pending != {}
        invariant pending <= entries.Keys
        invariant forall k :: k in keysToRemove <==> k in entries && k !in pending && Matches(entries[k], pattern)
        decreases |pending|
      {
        var k :| k in pending;
        if Matches(entries[k], pattern) {
          keysToRemove := keysToRemove + [k];
        }
        pending := pending - {k};
      }
      ghost var before := entries;
      var i := 0;
      while i < |keysToRemove|
        invariant 0 <= i <= |keysToRemove|
        invariant entries == map k | k in before && k !in keysToRemove[..i] :: before[k]
      {
        assert keysToRemove[..i + 1] == keysToRemove[..i] + [keysToRemove[i]];
        entries := entries - {keysToRemove[i]};
        i := i + 1;
      }
      assert keysToRemove[..i] == keysToRemove;
    }

    /**
     * The lookup: a valid entry gets one more hit and is marked accessed, and
     * its stored result is the answer; an expired entry is deleted.
     */
    method Lookup(key: Key, now: int) returns (hit: Option<Value>)
      modifies this
      ensures key in old(entries) && IsValid(old(entries)[key], now) ==>
        hit == Some(old(entries)[key].result) && entries == old(entries)[key := Touched(old(entries)[key], now)]
      ensures !(key in old(entries) && IsValid(old(entries)[key], now)) ==>
        hit.None? && entries == old(entries) - {key}
    {
      if key in entries {
        var entry := entries[key];
        if IsValid(entry, now) {
          entries := entries[key := Touched(entry, now)];
          return Some(entry.result);
        }
        entries := entries - {key};
      }
      return None;
    }

    /**
     * The cache step of a wrapper once it has a key: a valid entry is a hit
     * (one more hit, marked accessed, its stored snapshot returned, the
     * function not called). Otherwise an expired entry is deleted and the
     * function is called; a raised exception is passed on with nothing
     * stored, a result is returned raw while its snapshot is stored and the
     * cache cleaned up.
     */
    method Serve(cfg: Config, key: Key, query: string, params: Value, funcName: string, run: Outcome, now: int)
      returns (out: Outcome, invoked: bool)
      modifies this
      ensures if key in old(entries) && IsValid(old(entries)[key], now) then
          && !invoked && out == Returned(old(entries)[key].result)
          && entries == old(entries)[key := Touched(old(entries)[key], now)]
        else if run.Raised? then
          invoked && out == run && entries == old(entries) - {key}
        else
          var stored := (old(entries) - {key})[key := NewEntry(run.value, query, params, funcName, now, cfg.ttl)];
          && invoked && (out == run || out == Raised(IndexOutOfRange))
          && CleanedUp(stored, entries, cfg.maxEntries, if out == run then None else Some(IndexOutOfRange))
      ensures KeyedMap(old(entries)) && key == CacheKey(query, params, funcName) ==> KeyedMap(entries)
    {
      var hit := Lookup(key, now);
      ghost var keyed := KeyedMap(old(entries)) && key == CacheKey(query, params, funcName);
      if hit.Some? {
        if keyed {
          PutKeepsKeys(old(entries), key, Touched(old(entries)[key], now));
        }
        return Returned(hit.value), false;
      }
      invoked := true;
      if run.Raised? {
        return run, true;
      }
      ghost var looked := entries;
      Store(key, run.value, query, params, funcName, now, cfg.ttl);
      ghost var stored := entries;
      var err := Cleanup(cfg.maxEntries);
      if keyed {
        PutKeepsKeys(looked, key, NewEntry(run.value, query, params, funcName, now, cfg.ttl));
        CleanedUpKeepsKeys(stored, entries, cfg.maxEntries, err);
      }
      out := if err.Some? then Raised(err.value) else run;
    }

    /**
     * A call through `@cache_query` (with `BasicConfig`) or
     * `@cache_query_advanced`; `run` is what the wrapped function does if
     * called. Without a query, or (read-only) with a query that does not
     * start with SELECT or WITH, the function is called and the cache is
     * untouched; a truthy query that is not a string fails before the call.
     */
    method CachedCall(cfg: Config, funcName: string, args: seq<Value>, kwargs: map<string, Value>,
                      run: Outcome, now: int)
      returns (out: Outcome, invoked: bool)
      modifies this
      ensures match PlanFor(cfg, funcName, args, kwargs)
        case Bypass => invoked && out == run && entries == old(entries)
        case Fail(e) => !invoked && out == Raised(e) && entries == old(entries)
        case Use(key, query, params) =>
          if key in old(entries) && IsValid(old(entries)[key], now) then
            && !invoked && out == Returned(old(entries)[key].result)
            && entries == old(entries)[key := Touched(old(entries)[key], now)]
          else if run.Raised? then
            invoked && out == run && entries == old(entries) - {key}
          else
            var stored := (old(entries) - {key})[key := NewEntry(run.value, query, params, funcName, now, cfg.ttl)];
            && invoked && (out == run || out == Raised(IndexOutOfRange))
            && CleanedUp(stored, entries, cfg.maxEntries, if out == run then None else Some(IndexOutOfRange))
      ensures old(KeyedByContent()) ==> KeyedByContent()
    {
      var plan := Discover(cfg, funcName, args, kwargs);
      match plan
      case Bypass =>
        return run, true;
      case Fail(e) =>
        return Raised(e), false;
      case Use(key, query, params) =>
        out, invoked := Serve(cfg, key, query, params, funcName, run, now);
    }
  }

  /**
   * Two identical calls on a cache with room: the first misses, calls the
   * function and returns its raw result; the second, before the entry
   * expires, is a hit that returns the stored snapshot without a call and
   * leaves the entry with one hit.
   */
  method RepeatedCall(cache: QueryCache, cfg: Config, funcName: string, args: seq<Value>, kwargs: map<string, Value>,
                      result: Value, later: Outcome, first: int, second: int)
    returns (out1: Outcome, out2: Outcome, invoked1: bool, invoked2: bool)
    modifies cache
    requires PlanFor(cfg, funcName, args, kwargs).Use? && PlanFor(cfg, funcName, args, kwargs).key !in cache.entries
    requires |cache.entries| < cfg.maxEntries && first <= second < first + cfg.ttl
    ensures invoked1 && out1 == Returned(result)
    ensures !invoked2 && out2 == Returned(Snapshot(result))
    ensures var key := PlanFor(cfg, funcName, args, kwargs).key;
      key in cache.entries && cache.entries[key].hits == 1 && cache.entries[key].lastAccessed == second
  {
    out1, invoked1 := cache.CachedCall(cfg, funcName, args, kwargs, Returned(result), first);
    out2, invoked2 := cache.CachedCall(cfg, funcName, args, kwargs, later, second);
  }

  /**
   * A call after the entry has expired is a miss again: the function is
   * called and its new result replaces the entry, with no hits.
   */
  method ExpiredCall(cache: QueryCache, cfg: Config, funcName: string, args: seq<Value>, kwargs: map<string, Value>,
                     result: Value, now: int)
    returns (out: Outcome, invoked: bool)
    modifies cache
    requires PlanFor(cfg, funcName, args, kwargs).Use?
    requires var key := PlanFor(cfg, funcName, args, kwargs).key;
      key in cache.entries && !IsValid(cache.entries[key], now) && |cache.entries| <= cfg.maxEntries
    ensures invoked && out == Returned(result)
    ensures var plan := PlanFor(cfg, funcName, args, kwargs);
      cache.entries == old(cache.entries)[plan.key := NewEntry(result, plan.query, plan.params, funcName, now, cfg.ttl)]
  {
    ghost var plan := PlanFor(cfg, funcName, args, kwargs);
    assert (old(cache.entries) - {plan.key})[plan.key := NewEntry(result, plan.query, plan.params, funcName, now, cfg.ttl)]
        == old(cache.entries)[plan.key := NewEntry(result, plan.query, plan.params, funcName, now, cfg.ttl)];
    out, invoked := cache.CachedCall(cfg, funcName, args, kwargs, Returned(result), now);
  }

  /**
   * The wrappers' argument scan: the first positional read query and the
   * first positional container other than it, each falling back to the
   * keywords, then the checks that decide whether the cache is used.
   */
  method Discover(cfg: Config, funcName: string, args: seq<Value>, kwargs: map<string, Value>) returns (plan: Plan)
    ensures plan == PlanFor(cfg, funcName, args, kwargs)
  {
    var rest := AfterConnection(args);
    var query := NoneV;
    var found := FindFirst(rest, IsReadQueryArg);
    if found.Some? {
      query := rest[found.value];
    }
    if !Truthy(query) {
      query := GetFirstTruthy(kwargs, ["query", "sql"]);
    }
    var params := NoneV;
    var paramsFound := FindFirst(rest, ParamsTest(query));
    if paramsFound.Some? {
      params := rest[paramsFound.value];
    }
    if !Truthy(params) {
      params := GetFirstTruthy(kwargs, ParamsKeywords(cfg));
    }
    if !Truthy(query) {
      return Bypass;
    }
    if !query.StrV? {
      return Fail(NotAString(if cfg.readOnly then "strip" else "split"));
    }
    if cfg.readOnly && !IsReadQuery(query.s) {
      return Bypass;
    }
    return Use(CacheKey(query.s, params, funcName), query.s, params);
  }

  /** `pattern.upper() in entry['query'].upper()`. */
  predicate Matches(e: Entry, pattern: string) {
    Contains(Upper(e.query), Upper(pattern))
  }
}

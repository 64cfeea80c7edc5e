# Data-access decorators, CSV seeding, nested-map utilities and threaded messaging — a Dafny model

This project models the core of a Python learning repository.

- **python-decorators-0x01**: five decorator files around SQLite access.
  - `log_queries` and `log_queries_detailed` find the SQL statement among a call's arguments and log it.
  - `with_db_connection` and its configurable and context-manager variants open a connection, commit or roll back, and always close.
  - `transactional` and `transactional_with_savepoints` wrap a call in a transaction or a savepoint.
  - `retry_on_failure`, `simple_retry` and `smart_retry` re-run a call that raised a transient error, sleeping between attempts.
  - `cache_query` and `cache_query_advanced` keep query results in a process-wide cache with a TTL, hit counts and eviction.
- **python-generators-0x00/seed.py**: generates UUIDs, parses CSV lines, loads users from a CSV file and inserts them in committed batches.
- **0x03-Unittests_and_integration_tests**: `access_nested_map` and `memoize`. The cache decorator's file `test_util.py` in that project is a verbatim copy of `4-cache_query.py`, so the cache rows below cite the latter's lines, which are the same in both.
- **Django-signals_orm-0x04/messaging**: the `Message` model's read and edit flags and its thread navigation; the `Notification` model and its queries; and the four signal handlers that create, mark read and delete notifications.

Python values, exceptions and the ways a call can end (return or raise) are a small datatype layer (`Python`). The function a decorator wraps is an oracle: an `Outcome`, or `nat -> Outcome` when it may be called repeatedly. A database connection is a `Connection` object. It records every command issued on it (invoke, execute, commit, rollback, close), and a fault table says which commands raise.

The modules are:

- `Python`: values, exceptions and outcomes.
- `Text`: strip, split, join, upper and character counts.
- `Extremes`: the least element and distinct counts.
- `QueryArgs`: `0-log_queries.py`.
- `Connection`: `1-with_db_connection.py`, plus the close-only `with_db_connection` copies in `2-`, `3-` and `4-`.
- `Transaction`: `2-transactional.py`.
- `Retry`: `3-retry_on_failure.py`.
- `UpdateUser`: `update_user` in `1-with_db_connection.py`.
- `Cache`: `4-cache_query.py`.
- `Seed`: `seed.py`.
- `Utils`: `test_client.py`.
- `Threads`: `Message` thread navigation.
- `Messaging`: notifications, read flags and signals.

The cache's clean-up follows `_cleanup_cache` in python-decorators-0x01/4-cache_query.py:184-198. It removes the `len - max + 10` least recently accessed entries. Any limit below 10 therefore indexes past the end of the entry list: all entries are removed and `IndexError` propagates (`Cache.QueryCache.Cleanup`).

## Model

| member | source | states |
|---|---|---|
| `Python.GetFirstTruthy` | python-decorators-0x01/0-log_queries.py:45 | `a or b or c`: the result is truthy iff some named keyword is truthy, and is then the first truthy one in the given order; otherwise it is the last one's value |
| `Python.ExactTypeIsInstance` | python-decorators-0x01/3-retry_on_failure.py:125-136 | an exception whose exact class is in a tuple is an instance of that tuple, so `type(e) in transient_errors` implies the transient handler already caught it |
| `QueryArgs.FirstIndexFrom` | python-decorators-0x01/0-log_queries.py:34-41 | the index found is the first from `from` that satisfies the test, and None means no argument from there does |
| `QueryArgs.FindFirst` | python-decorators-0x01/0-log_queries.py:34-41 | the loop with `break` returns the first matching positional argument's index |
| `QueryArgs.LogQueries` | python-decorators-0x01/0-log_queries.py:29-99 | a truthy non-string query makes `split` raise before the call; no query means the call runs unlogged; otherwise the whitespace-collapsed query is logged, the call runs once, and its result or exception passes through unchanged |
| `QueryArgs.LoggedQueryPrecedence` | python-decorators-0x01/0-log_queries.py:33-45 | a positional SQL-looking string wins, and it is the first one; keywords are consulted only when there is none (`query`, then `sql`, then `statement`) |
| `QueryArgs.LoggedQueryIsNormalised` | python-decorators-0x01/0-log_queries.py:55-58 | the logged query has no leading, trailing or doubled whitespace and keeps the query's words |
| `QueryArgs.LogQueriesDetailed` | python-decorators-0x01/0-log_queries.py:104-190 | the query is the first SQL-looking positional argument and the params are the argument right after it when that is a list, tuple or dict; otherwise both come from keywords; a non-string query fails on `strip`, and otherwise the call runs with its outcome unchanged |
| `Connection.CountAppend` | python-decorators-0x01/1-with_db_connection.py:21-63 | counting a command in a concatenated log adds the counts of the parts |
| `Connection.CountAbsent` | python-decorators-0x01/1-with_db_connection.py:21-63 | a command not in the log is counted zero times |
| `Connection.Connection.constructor` | python-decorators-0x01/1-with_db_connection.py:25-28 | a new connection has the given path and fault table and an empty command log |
| `Connection.Connection.Issue` | python-decorators-0x01/1-with_db_connection.py:33-61 | a command is appended to the log and raises exactly the fault that the given table (the driver's, or that of the object used in its place) assigns to it |
| `Connection.Connection.Resolve` | python-decorators-0x01/1-with_db_connection.py:33-61 | settling a call's outcome under a fault table appends exactly the commit/rollback commands of `Settle` and ends with its outcome |
| `Connection.Connection.Conclude` | python-decorators-0x01/1-with_db_connection.py:33-63 | settling and then closing appends exactly the log of `Closing` and ends with its outcome |
| `Connection.Settle` | python-decorators-0x01/1-with_db_connection.py:33-61 | commit exactly when the call returned; roll back exactly when it raised an `Exception` or the commit raised one; never close or re-invoke; the outcome is the call's own unless commit or rollback raised |
| `Connection.Closing` | python-decorators-0x01/1-with_db_connection.py:33-63 | the `finally`: close is issued exactly once and last; commit and rollback only under the commit-or-rollback protocol; a failing close replaces the outcome; the close-only protocol passes the call's outcome through |
| `Connection.Open` | python-decorators-0x01/1-with_db_connection.py:25-28 | a failed connect raises and yields no connection; otherwise a fresh connection with an empty log |
| `Connection.Scope` | python-decorators-0x01/1-with_db_connection.py:21-63 | a failed connect raises before the call; otherwise the log is invoke then `Closing`'s log, and the outcome is `Closing`'s |
| `Connection.WithDbConnection` | python-decorators-0x01/1-with_db_connection.py:10-63 | `db_path` is popped from the keywords before the call; the connection is to that path (default `users.db`) and follows the commit-or-rollback-then-close protocol |
| `Connection.WithDbConnectionConfigurable` | python-decorators-0x01/1-with_db_connection.py:66-101 | the same protocol on the decorator's fixed path |
| `Connection.DbConnectionContext` | python-decorators-0x01/1-with_db_connection.py:104-131 | the context manager: the block runs once between connect and close, with commit on success and rollback on an exception |
| `Connection.WithDbConnectionCloseOnly` | python-decorators-0x01/2-transactional.py:10-45 | the copies in the transaction, retry and cache files: invoke then close, no commit or rollback, and the outcome is the call's unless close raises |
| `Connection.SuccessCommitsThenCloses` | python-decorators-0x01/1-with_db_connection.py:33-41 | a successful call is committed and then closed, and its value is returned |
| `Connection.FailureRollsBackThenCloses` | python-decorators-0x01/1-with_db_connection.py:43-63 | a call that raises an `Exception` is rolled back, closed and re-raised |
| `Connection.FailedCommitRollsBack` | python-decorators-0x01/1-with_db_connection.py:33-61 | a commit that raises is followed by a rollback, and the commit's error propagates |
| `Connection.InterruptIsNotRolledBack` | python-decorators-0x01/1-with_db_connection.py:43-63 | a `KeyboardInterrupt` (not an `Exception`) skips the rollback but the connection is still closed |
| `Connection.ScopeCallsOnceClosesOnce` | python-decorators-0x01/1-with_db_connection.py:21-63 | under either protocol the wrapped function runs exactly once and the connection is closed exactly once |
| `Transaction.Transactional` | python-decorators-0x01/2-transactional.py:49-107 | no positional argument, or a first argument with neither `execute` nor `cursor`, raises `ValueError` before anything runs; otherwise the call runs once and is committed or rolled back through the first argument as `Settle` says, a missing `commit` or `rollback` raising `AttributeError` |
| `Transaction.HandleKeepsFaults` | python-decorators-0x01/2-transactional.py:73-104 | the handle `with_db_connection` passes has `commit` and `rollback`, so only the driver's faults are met |
| `Transaction.CommitOnCursorLike` | python-decorators-0x01/2-transactional.py:73-104 | a first argument with `execute` but no `commit` or `rollback`: after a return the commit raises `AttributeError`, the rollback in the handler raises `AttributeError` again, and that one propagates |
| `Transaction.ConnectedTransactional` | python-decorators-0x01/2-transactional.py:157-172 | `with_db_connection` over `transactional`: connect, invoke, commit or roll back, then close exactly once |
| `Transaction.Attempt` | python-decorators-0x01/2-transactional.py:133-142 | the savepoint is created first; the call runs exactly when creating it did not fail; a returned outcome is the call's own |
| `Transaction.Recover` | python-decorators-0x01/2-transactional.py:144-152 | recovery starts with `ROLLBACK TO SAVEPOINT`, never re-runs the call, and always ends in an exception |
| `Transaction.SavepointRun` | python-decorators-0x01/2-transactional.py:123-155 | the whole savepoint protocol: `SAVEPOINT` first, the call at most once, a returned outcome is the call's |
| `Transaction.StatementFaults` | python-decorators-0x01/2-transactional.py:130-148 | a first argument with `execute` meets the driver's faults unchanged; one without it raises `AttributeError` for each of the three savepoint statements |
| `Transaction.TransactionalWithSavepoints` | python-decorators-0x01/2-transactional.py:110-155 | no connection argument raises `ValueError`; otherwise the statements are issued through the first argument and the log grows by exactly the savepoint protocol under the chosen name (the given one, or `sp_<func>_<id>`) |
| `Transaction.AttemptSavepoint` | python-decorators-0x01/2-transactional.py:133-142 | the connection-level steps append exactly `Attempt`'s log |
| `Transaction.RecoverSavepoint` | python-decorators-0x01/2-transactional.py:144-152 | the connection-level recovery appends exactly `Recover`'s log |
| `Transaction.SavepointSuccess` | python-decorators-0x01/2-transactional.py:135-142 | with no faults a returning call produces `SAVEPOINT`, the call, `RELEASE SAVEPOINT`, and returns its value |
| `Transaction.SavepointWithoutExecute` | python-decorators-0x01/2-transactional.py:133-152 | a first argument without `execute`: `SAVEPOINT` raises `AttributeError`, the function is not called, `ROLLBACK TO SAVEPOINT` raises `AttributeError` again, and since that is not an sqlite error it propagates |
| `Transaction.SavepointFailure` | python-decorators-0x01/2-transactional.py:144-152 | a call that raises is rolled back to the savepoint and the savepoint is released (when rolling back succeeded), and the original exception propagates even if those statements raise `sqlite3.Error` |
| `Transaction.Matched` | python-decorators-0x01/2-transactional.py:211-217 | the number of updates that matched a row is at most the number of updates |
| `Transaction.MatchedZero` | python-decorators-0x01/2-transactional.py:211-223 | no update matched iff every statement reported zero rows |
| `Transaction.MatchedAll` | python-decorators-0x01/2-transactional.py:211-217 | every update matched iff every statement reported a positive row count |
| `Transaction.BulkUpdateUsers` | python-decorators-0x01/2-transactional.py:199-226 | statements run in order with parameters `(email, id)`; the first failing statement stops the loop and its error propagates; otherwise zero matches raise `ValueError` and any other count is returned |
| `Transaction.CreateUserWithValidation` | python-decorators-0x01/2-transactional.py:170-197 | missing name or email, then an age outside 0..150, then an email already taken, each raise `ValueError` with the source's message; then the lookup runs and its exception propagates; then the insert runs and its exception propagates; the new row id is returned exactly when the input is valid, the email is free and neither statement raised |
| `Retry.RetryingShape` | python-decorators-0x01/3-retry_on_failure.py:78-139 | the attempt loop: at most `retries + 1` calls with one sleep between consecutive calls; every retried failure was transient and before the last attempt; the result is the last call's outcome, or the sleep's rejection of a negative delay; a negative `retries` never calls |
| `Retry.ScheduledSleep` | python-decorators-0x01/3-retry_on_failure.py:101-111 | each recorded sleep is the delay scheduled for that attempt, and it is not negative |
| `Retry.StopStep` | python-decorators-0x01/3-retry_on_failure.py:88-139 | a return, a non-transient error or the last attempt ends the loop with that attempt's outcome |
| `Retry.RejectStep` | python-decorators-0x01/3-retry_on_failure.py:101-111 | a negative delay makes `time.sleep` raise `ValueError` |
| `Retry.ContinueStep` | python-decorators-0x01/3-retry_on_failure.py:97-123 | a transient failure before the last attempt sleeps and tries again |
| `Retry.EndStep` | python-decorators-0x01/3-retry_on_failure.py:84-139 | with a negative `retries` the loop body never runs and the end-of-loop exception is raised |
| `Retry.CatchesTransient` | python-decorators-0x01/3-retry_on_failure.py:97-136 | a failure is retried iff it is an instance of a transient class; the `exceptions` handler is unreachable for transient types |
| `Retry.RetryOnFailure` | python-decorators-0x01/3-retry_on_failure.py:51-142 | the loop computes the attempt sequence `RetryOnFailureSpec` defines: outcome, number of calls and the sleeps between them |
| `Retry.NextDelay` | python-decorators-0x01/3-retry_on_failure.py:114 | the next base delay is the current one times the backoff factor, capped at `max_delay` |
| `Retry.BaseDelayBounds` | python-decorators-0x01/3-retry_on_failure.py:82-114 | every delay after the first is at most `max_delay`; non-negative settings give non-negative delays |
| `Retry.JitterBounds` | python-decorators-0x01/3-retry_on_failure.py:101 | jitter `d * (0.5 + r * 0.5)` keeps the sign and stays in `[d/2, d)` |
| `Retry.SleepsWithinJitter` | python-decorators-0x01/3-retry_on_failure.py:99-111 | with jitter on, the i-th sleep is the i-th base delay jittered, between half of it and the delay itself |
| `Retry.AlwaysTransientExhausts` | python-decorators-0x01/3-retry_on_failure.py:84-123 | when every attempt fails transiently, the function is called `retries + 1` times, sleeps `retries` times, and the last error propagates |
| `Retry.NonTransientRaisedAtOnce` | python-decorators-0x01/3-retry_on_failure.py:97-136 | a non-transient first failure is raised after one call without sleeping |
| `Retry.FirstReturnWins` | python-decorators-0x01/3-retry_on_failure.py:88-95 | the first attempt that returns ends the loop with its value, after exactly the sleeps before it |
| `Retry.NegativeRetriesNeverCall` | python-decorators-0x01/3-retry_on_failure.py:84-139 | a negative `retries` never calls the function and raises the end-of-loop exception |
| `Retry.SimpleRetryDelays` | python-decorators-0x01/3-retry_on_failure.py:145-147 | `simple_retry` uses the defaults (backoff 1.0, cap 30): the delay stays the given one, capped at 30 seconds after the first attempt |
| `Retry.RetryWithConnection` | python-decorators-0x01/3-retry_on_failure.py:12-49 | one shared connection: the function is invoked once per attempt, the connection is closed once at the end, and a failing close replaces the outcome |
| `Retry.SharedConnectionClosedOnce` | python-decorators-0x01/3-retry_on_failure.py:210-215 | that log has exactly one close and exactly as many invokes as attempts |
| `Retry.CountInvokes` | python-decorators-0x01/3-retry_on_failure.py:210-215 | `n` invokes are counted `n` times |
| `Retry.NextSmartDelay` | python-decorators-0x01/3-retry_on_failure.py:194-195 | the next smart delay is the current one times the backoff factor, uncapped |
| `Retry.SmartDelayGeometric` | python-decorators-0x01/3-retry_on_failure.py:194-195 | the k-th smart delay is `delay * backoff^k` |
| `Retry.CatchesRetryable` | python-decorators-0x01/3-retry_on_failure.py:177-199 | a failure is retryable iff it is an sqlite `OperationalError`/`DatabaseError` whose lower-cased message holds one of the four retryable phrases |
| `Retry.SmartRetry` | python-decorators-0x01/3-retry_on_failure.py:150-206 | the loop computes the smart-retry attempt sequence |
| `Retry.SmartSleepsGeometric` | python-decorators-0x01/3-retry_on_failure.py:194-195 | the k-th sleep of a smart retry is `delay * backoff^k` |
| `Retry.SmartRaisesOthersAtOnce` | python-decorators-0x01/3-retry_on_failure.py:188-203 | a first failure that is not retryable (another class, or no retryable phrase) is raised after one call without sleeping |
| `UpdateUser.Assignments` | python-decorators-0x01/1-with_db_connection.py:163-174 | the SET clauses are the given fields' assignments, in order |
| `UpdateUser.Values` | python-decorators-0x01/1-with_db_connection.py:163-174 | the parameters are the given fields' values, in the same order |
| `UpdateUser.AddField` | python-decorators-0x01/1-with_db_connection.py:163-174 | adding a field appends its assignment and its value |
| `UpdateUser.AddIfGiven` | python-decorators-0x01/1-with_db_connection.py:163-174 | a field is added exactly when its argument is not `None` |
| `UpdateUser.BuildUpdate` | python-decorators-0x01/1-with_db_connection.py:157-182 | no field given raises `ValueError("No fields to update")`; otherwise the statement sets the given fields, in the order name, email, age, with their values and then the id as parameters, and it holds exactly one `?` per parameter |
| `UpdateUser.PlaceholderCount` | python-decorators-0x01/1-with_db_connection.py:179-180 | the assembled UPDATE holds one placeholder per assignment plus one for the id |
| `Cache.RenderParams` | python-decorators-0x01/4-cache_query.py:137-143 | falsy parameters render as the empty string, whatever their type |
| `Cache.NormalQueryWords` | python-decorators-0x01/4-cache_query.py:134 | the normalised query is the query's words upper-cased and joined by single spaces |
| `Cache.KeyIdentity` | python-decorators-0x01/4-cache_query.py:131-149 | two calls share a key iff the function names match, the upper-cased words of the queries match and the rendered parameters match |
| `Cache.KeyIgnoresCase` | python-decorators-0x01/4-cache_query.py:134 | upper-casing the query does not change its key |
| `Cache.FalsyParamsShareKey` | python-decorators-0x01/4-cache_query.py:137-143 | every falsy parameter value gives the same key as `None` |
| `Cache.SnapshotIdempotent` | python-decorators-0x01/4-cache_query.py:160-166 | converting rows to dictionaries twice is converting once |
| `Cache.HitDiffersFromMiss` | python-decorators-0x01/4-cache_query.py:160-166 | a list of `sqlite3.Row` is stored as a list of dicts, so a hit returns a different value from the miss that stored it |
| `Cache.TotalHitsRemove` | python-decorators-0x01/4-cache_query.py:283-311 | the total hits are one entry's hits plus the total of the rest |
| `Cache.TouchAddsOneHit` | python-decorators-0x01/4-cache_query.py:105-109 | a hit raises the total hit count by exactly one |
| `Cache.PutKeepsKeys` | python-decorators-0x01/4-cache_query.py:180 | storing an entry under the key of its own query, parameters and function keeps every entry under its own key |
| `Cache.CleanedUpKeepsKeys` | python-decorators-0x01/4-cache_query.py:184-198 | cleanup only removes entries, so every surviving entry keeps its key |
| `Cache.PlanUsesCacheOnlyForQueries` | python-decorators-0x01/4-cache_query.py:67-98 | the cache is consulted iff a truthy string query is found (and, for the read-only variant, it is a SELECT/WITH); with no SQL-looking argument and no truthy `query`/`sql` keyword the call bypasses the cache |
| `Cache.QueryCache.constructor` | python-decorators-0x01/4-cache_query.py:14 | the cache starts empty |
| `Cache.QueryCache.Store` | python-decorators-0x01/4-cache_query.py:157-182 | the entry under the key becomes the converted result with zero hits, `expires_at = now + ttl` and `last_accessed = now`; nothing else changes |
| `Cache.QueryCache.Oldest` | python-decorators-0x01/4-cache_query.py:190-191 | the chosen key is the entry with the least `last_accessed` |
| `Cache.QueryCache.Cleanup` | python-decorators-0x01/4-cache_query.py:184-198 | at or under the limit nothing changes; over a limit of at least 10, `len - max + 10` least recently used entries are removed; over a smaller limit every entry is removed and `IndexError` is raised |
| `Cache.QueryCache.Clear` | python-decorators-0x01/4-cache_query.py:276-280 | afterwards the cache is empty |
| `Cache.QueryCache.GetCacheStats` | python-decorators-0x01/4-cache_query.py:283-311 | reports the number of entries and the sum of their hits |
| `Cache.QueryCache.InvalidatePattern` | python-decorators-0x01/4-cache_query.py:314-327 | exactly the entries whose upper-cased query contains the upper-cased pattern are removed |
| `Cache.QueryCache.Lookup` | python-decorators-0x01/4-cache_query.py:101-112 | a valid entry is a hit: its result is returned, its hits rise by one and `last_accessed` becomes now; an expired entry is deleted; a missing one changes nothing |
| `Cache.QueryCache.Serve` | python-decorators-0x01/4-cache_query.py:98-127 | a hit does not call the function; a miss calls it once; a raising call stores nothing; a returning call is stored and then cleaned up; entries stay under their own keys |
| `Cache.QueryCache.CachedCall` | python-decorators-0x01/4-cache_query.py:50-128 | the whole wrapper: with no query the call runs uncached; a non-string query fails before the call; otherwise `Serve`'s hit, miss and cleanup behaviour, and every entry stays under the key of its own query |
| `Cache.RepeatedCall` | 0x03-Unittests_and_integration_tests/test_util.py:50-128 | two identical calls within the TTL: the first runs the query and returns its result; the second does not run it, returns the stored snapshot, and the entry has one hit |
| `Cache.ExpiredCall` | 0x03-Unittests_and_integration_tests/test_util.py:101-127 | a call after expiry runs the query again and replaces the entry with a fresh one |
| `Cache.Discover` | python-decorators-0x01/4-cache_query.py:62-98 | the discovery loops compute the caching plan: bypass, a `strip` failure, or the key, query and parameters to use |
| `Seed.HexGroup` | python-generators-0x00/seed.py:19-26 | a group of `n` characters drawn from the lower-case hex alphabet |
| `Seed.GenerateUuid` | python-generators-0x00/seed.py:12-29 | 36 characters with dashes exactly at positions 8, 13, 18 and 23 and lower-case hex digits elsewhere |
| `Seed.ScanFields` | python-generators-0x00/seed.py:267-281 | the character loop yields the stripped fields `Fields` defines: split at commas outside quotes |
| `Seed.ParseCsvLine` | python-generators-0x00/seed.py:252-290 | the fields are split at unquoted commas and stripped, and no field keeps a quote character |
| `Seed.UnquoteAll` | python-generators-0x00/seed.py:284-288 | removing surrounding quotes leaves quote-free fields unchanged |
| `Seed.FieldsStripped` | python-generators-0x00/seed.py:274-281 | every parsed field has no leading or trailing whitespace |
| `Seed.FieldsHaveNoQuotes` | python-generators-0x00/seed.py:269-271 | quote characters only toggle the in-quotes state and never reach a field |
| `Seed.FieldCount` | python-generators-0x00/seed.py:267-281 | the number of fields is the number of commas outside quotes plus one |
| `Seed.CommasKept` | python-generators-0x00/seed.py:267-281 | the commas inside quotes all survive into the fields |
| `Seed.StripKeepsCommas` | python-generators-0x00/seed.py:274 | stripping whitespace keeps every comma |
| `Seed.Keys` | python-generators-0x00/seed.py:335-337 | one key per header |
| `Seed.BuildRow` | python-generators-0x00/seed.py:335-337 | the loop builds the row dictionary from lower-cased, stripped headers, with an empty value for a missing column |
| `Seed.RowDictLookup` | python-generators-0x00/seed.py:335-337 | a key is in the row iff some header gives it, and a repeated header takes its last column's value |
| `Seed.KeyValue` | python-generators-0x00/seed.py:340-341 | the stripped value of a key is non-empty iff its last column holds a non-empty value |
| `Seed.LoadRow` | python-generators-0x00/seed.py:322-355 | one data line becomes the record `RowOf` defines, or nothing |
| `Seed.RowFromValues` | python-generators-0x00/seed.py:340-353 | a record is kept iff both name and email are non-empty, and it holds exactly those values |
| `Seed.RowDefaults` | python-generators-0x00/seed.py:348-353 | a non-empty `user_id` is kept, an empty or missing one is a generated UUID, and a missing `age` column gives `"0"` |
| `Seed.RowKept` | python-generators-0x00/seed.py:322-347 | a line is kept iff it is not blank, has as many fields as there are headers, and names both a name and an email |
| `Seed.LoadCsvData` | python-generators-0x00/seed.py:293-362 | the loop loads exactly the rows `LoadedRows` selects, in file order |
| `Seed.KeptInOrder` | python-generators-0x00/seed.py:322-355 | the loaded records are the kept data lines, in increasing line order, and every kept line appears |
| `Seed.Converted` | python-generators-0x00/seed.py:216-233 | one insert row per record |
| `Seed.ConvertRecord` | python-generators-0x00/seed.py:216-233 | the insert row keeps the name and email and a non-empty `user_id`; the record written back holds the same id as the insert row |
| `Seed.WrittenIdIsInserted` | python-generators-0x00/seed.py:218-219 | the id written back into the caller's record is the one inserted, nothing else in the record changes, and a record that had an id is left as it was |
| `Seed.WriteBackBatch` | python-generators-0x00/seed.py:212-219 | writing back one more batch of records extends the written-back prefix of the caller's list by that batch |
| `Seed.ConvertBatch` | python-generators-0x00/seed.py:214-233 | the batch's insert rows are its records converted, one for one, and its records come back with their generated ids |
| `Seed.BatchesFlatten` | python-generators-0x00/seed.py:208-242 | consecutive batches of the batch size concatenate to a prefix of the rows |
| `Seed.InsertData` | python-generators-0x00/seed.py:173-249 | a failing `SELECT COUNT(*)` returns False before any batch; a non-empty table skips the insert; otherwise rows are committed in consecutive batches of up to 1000; with no failure the committed batches are all the converted rows and every record is counted; a failing batch stops the loop and leaves the batches before it committed; the caller's records seen by the inner loop (all of them on success, through the failing batch otherwise) carry the ids generated for them |
| `Utils.AccessNestedMap` | 0x03-Unittests_and_integration_tests/test_client.py:10-31 | the loop follows the path key by key; an empty path returns the map itself |
| `Utils.LookupAppend` | 0x03-Unittests_and_integration_tests/test_client.py:24-31 | looking up a path `p + q` is looking up `q` in what `p` reaches, and a failure along `p` is final |
| `Utils.FirstMissingKey` | 0x03-Unittests_and_integration_tests/test_client.py:27-28 | a failed lookup raises `KeyError` for the first key that cannot be applied, after every earlier key succeeded |
| `Utils.NestedMapExamples` | 0x03-Unittests_and_integration_tests/test_utils.py:14-40 | the parameterised cases: the three successful paths and the two `KeyError`s with their keys |
| `Utils.CacheAttr` | 0x03-Unittests_and_integration_tests/test_client.py:76 | the attribute is the method's name prefixed with an underscore |
| `Utils.Instance.constructor` | 0x03-Unittests_and_integration_tests/test_client.py:49-86 | a new object has its attributes and no runs |
| `Utils.Instance.Property` | 0x03-Unittests_and_integration_tests/test_client.py:76-86 | a cached attribute is returned without running the method; otherwise the method runs once and a returned value is stored, while an exception stores nothing |
| `Utils.ReadTwice` | 0x03-Unittests_and_integration_tests/test_utils.py:81-97 | two reads of a memoized property run the method once and return the same value |
| `Utils.ReadAgain` | 0x03-Unittests_and_integration_tests/test_client.py:76-86 | once cached, any number of reads return the cached value and never run the method |
| `Text.TrimStart` | python-generators-0x00/seed.py:274 | the result is the suffix left after removing leading whitespace |
| `Text.TrimEnd` | python-generators-0x00/seed.py:274 | the result is the prefix left after removing trailing whitespace |
| `Text.Strip` | python-generators-0x00/seed.py:323 | `str.strip()`: the result has no surrounding whitespace and is no longer than the input |
| `Text.StripIsSlice` | python-generators-0x00/seed.py:323 | the stripped string is a slice of the input, with only whitespace cut at either end |
| `Text.StripOfStripped` | python-generators-0x00/seed.py:340-341 | stripping a stripped string changes nothing |
| `Text.WordLen` | python-decorators-0x01/0-log_queries.py:57 | a word runs up to the first whitespace character |
| `Text.Words` | python-decorators-0x01/0-log_queries.py:57 | `str.split()` yields non-empty, whitespace-free words |
| `Text.WordsOfJoin` | python-decorators-0x01/0-log_queries.py:57 | splitting words joined by single spaces gives back the words |
| `Text.JoinOfWordsShape` | python-decorators-0x01/0-log_queries.py:57 | words joined by single spaces have no leading, trailing or doubled spaces |
| `Text.CollapseProperties` | python-decorators-0x01/0-log_queries.py:55-58 | `' '.join(q.split())` has no leading, trailing or doubled whitespace and keeps the words |
| `Text.CollapseIdempotent` | python-decorators-0x01/0-log_queries.py:55-58 | collapsing whitespace twice is collapsing once |
| `Text.CollapseUpper` | python-decorators-0x01/4-cache_query.py:134 | collapsing then upper-casing equals upper-casing then collapsing |
| `Text.UpperIdempotent` | python-decorators-0x01/4-cache_query.py:134 | upper-casing twice is upper-casing once |
| `Text.WordsUpper` | python-decorators-0x01/4-cache_query.py:134 | the words of an upper-cased string are its words upper-cased |
| `Text.UpperAll` | python-decorators-0x01/4-cache_query.py:134 | every word upper-cased, in order |
| `Text.CountCharJoin` | python-decorators-0x01/1-with_db_connection.py:179-180 | joining parts with one marker each by a marker-free separator gives one marker per part |
| `Text.CountCharAppend` | python-decorators-0x01/1-with_db_connection.py:179-180 | character counts add over concatenation |
| `Text.ContainsMiddle` | Django-signals_orm-0x04/messaging/signals.py:26 | a string contains every piece it is built around |
| `Text.Decimal` | python-decorators-0x01/2-transactional.py:131 | the decimal rendering of `id(func)` is non-empty, all digits, with no leading zero |
| `Extremes.LeastExists` | python-decorators-0x01/4-cache_query.py:190-191 | a non-empty set has an element with the least key, which is what sorting by `last_accessed` puts first |
| `Extremes.DistinctCardinality` | Django-signals_orm-0x04/messaging/models.py:226-255 | a list without repeats whose elements are exactly a set has one position per element of the set |
| `Threads.Depth` | Django-signals_orm-0x04/messaging/models.py:196-203 | the depth is zero iff the message is a thread root |
| `Threads.Root` | Django-signals_orm-0x04/messaging/models.py:205-210 | the root is a stored message that replies to nothing |
| `Threads.Ancestor` | Django-signals_orm-0x04/messaging/models.py:200-202 | every ancestor up to the depth is a stored message |
| `Threads.RootIsDepthAncestor` | Django-signals_orm-0x04/messaging/models.py:196-210 | the root is the ancestor exactly `thread_depth` parent links up |
| `Threads.ThreadDepth` | Django-signals_orm-0x04/messaging/models.py:196-203 | the loop counts the parent links to the root |
| `Threads.GetThreadRoot` | Django-signals_orm-0x04/messaging/models.py:205-210 | the loop follows parent links to the root |
| `Threads.RepliesIn` | Django-signals_orm-0x04/messaging/models.py:135-142 | the replies are exactly the listed messages whose parent is the given one, without repeats |
| `Threads.Replies` | Django-signals_orm-0x04/messaging/models.py:135-150 | `replies.all()` lists exactly the messages whose parent is the given one, in the table's order |
| `Threads.ReplyStep` | Django-signals_orm-0x04/messaging/models.py:250-253 | a reply belongs to its parent's thread, one level deeper |
| `Threads.ClosedSetHoldsThread` | Django-signals_orm-0x04/messaging/models.py:243-255 | a set holding the root and closed under replies holds the whole thread |
| `Threads.AppendKeepsSorted` | Django-signals_orm-0x04/messaging/models.py:253 | appending a message no shallower than the queue keeps the queue ordered by depth |
| `Threads.EnqueueReplies` | Django-signals_orm-0x04/messaging/models.py:250-253 | each unchecked reply is marked checked and queued once, at the next depth, and the queue stays ordered by depth |
| `Threads.WalkStep` | Django-signals_orm-0x04/messaging/models.py:247-253 | one step pops the queue's head into the result and keeps the breadth-first invariant |
| `Threads.WalkDone` | Django-signals_orm-0x04/messaging/models.py:247-255 | with the queue empty, the result starts at the root, has no repeats and contains every reply of every message in it |
| `Threads.WalkReplies` | Django-signals_orm-0x04/messaging/models.py:243-255 | the breadth-first walk from the root: root first, no repeats, closed under replies, ordered by depth |
| `Threads.GetThreadMessages` | Django-signals_orm-0x04/messaging/models.py:226-255 | the result is exactly the messages with the same root, each once (so its length is the thread's size), the root first and ordered by depth |
| `Threads.CollectPeople` | Django-signals_orm-0x04/messaging/models.py:260-264 | the loop collects the senders and receivers of the thread's messages |
| `Threads.GetConversationParticipants` | Django-signals_orm-0x04/messaging/models.py:257-264 | the participants are every sender and receiver in the thread |
| `Threads.BuildThread` | Django-signals_orm-0x04/messaging/models.py:290-294 | the node holds the message and one child per reply, in reply order |
| `Threads.GetThreadedConversation` | Django-signals_orm-0x04/messaging/models.py:267-299 | an unknown id gives `None`; otherwise the tree is rooted at the message's thread root |
| `Threads.TreeWithinThread` | Django-signals_orm-0x04/messaging/models.py:290-296 | every message in the tree belongs to the same thread |
| `Threads.TreeHoldsReplies` | Django-signals_orm-0x04/messaging/models.py:290-296 | the tree holds every reply of every message in it |
| `Threads.ThreadTreeIsThread` | Django-signals_orm-0x04/messaging/models.py:267-299 | the tree's messages are exactly the thread's messages |
| `Messaging.ReadNote` | Django-signals_orm-0x04/messaging/models.py:413-418 | marking read leaves a read notification as it is, and otherwise sets `is_read` and `read_at = now` |
| `Messaging.MarkedRead` | Django-signals_orm-0x04/messaging/models.py:413-418 | only the notification with that id is changed, and it is marked read |
| `Messaging.MarkedReadIdempotent` | Django-signals_orm-0x04/messaging/models.py:415 | marking read again, even later, changes nothing (`read_at` keeps the first time) |
| `Messaging.MarkedReadAbsent` | Django-signals_orm-0x04/messaging/models.py:413-418 | marking an absent notification changes nothing |
| `Messaging.UnreadCount` | Django-signals_orm-0x04/messaging/models.py:420-423 | the count is zero iff every notification of the user is read |
| `Messaging.UnreadAfterMarkedRead` | Django-signals_orm-0x04/messaging/models.py:413-423 | marking one notification read lowers its user's unread count by one if it was unread, and by nothing otherwise |
| `Messaging.ForUser` | Django-signals_orm-0x04/messaging/models.py:428 | the user's notifications, with every copy kept |
| `Messaging.Insert` | Django-signals_orm-0x04/messaging/models.py:402-403 | inserting into a newest-first list keeps it newest first and adds exactly that row |
| `Messaging.SortNewestFirst` | Django-signals_orm-0x04/messaging/models.py:402-403 | the ordering `-created_at` is a permutation sorted newest first |
| `Messaging.Recent` | Django-signals_orm-0x04/messaging/models.py:425-428 | at most `limit` of the user's notifications, newest first |
| `Messaging.RecentAreNewest` | Django-signals_orm-0x04/messaging/models.py:425-428 | the recent ones are a sub-multiset of the user's notifications, all of them when fewer than `limit`, and none left out is newer than one kept |
| `Messaging.PrefixKeepsNewest` | Django-signals_orm-0x04/messaging/models.py:428 | slicing a newest-first permutation keeps the newest |
| `Messaging.Preview` | Django-signals_orm-0x04/messaging/signals.py:26 | the content's first 50 characters, followed by `...` only when it was longer |
| `Messaging.NewMessageNote` | Django-signals_orm-0x04/messaging/signals.py:19-27 | the notification goes to the receiver, is about the message, has type `message`, names the sender in the title and content, and holds the preview; it is unread |
| `Messaging.WelcomeNote` | Django-signals_orm-0x04/messaging/signals.py:77-83 | the system notification goes to the new user, is about no message and greets the user by name; it is unread |
| `Messaging.ReadForMessage` | Django-signals_orm-0x04/messaging/signals.py:42-47 | exactly the notifications about the message become read, and nothing else changes (not even `read_at`) |
| `Messaging.ReadForMessageIdempotent` | Django-signals_orm-0x04/messaging/signals.py:44-47 | doing that twice is doing it once |
| `Messaging.WithoutMessage` | Django-signals_orm-0x04/messaging/signals.py:61-62 | exactly the notifications about the deleted message are removed |
| `Messaging.WithoutMessageIncreasing` | Django-signals_orm-0x04/messaging/signals.py:61-62 | deleting notifications keeps their ids distinct and in order |
| `Messaging.Database.constructor` | Django-signals_orm-0x04/messaging/models.py:117-150 | the tables start empty |
| `Messaging.Database.AddNotification` | Django-signals_orm-0x04/messaging/signals.py:21-27 | `Notification.objects.create` appends one row under a new id |
| `Messaging.Database.CreateMessageNotification` | Django-signals_orm-0x04/messaging/signals.py:7-27 | a notification for the receiver is added iff the message was created |
| `Messaging.Database.MarkNotificationReadOnMessageRead` | Django-signals_orm-0x04/messaging/signals.py:30-47 | a save that is not a creation, of a read message, marks its notifications read; any other save changes nothing |
| `Messaging.Database.SaveMessage` | Django-signals_orm-0x04/messaging/signals.py:7-47 | saving stores the message and runs both `post_save` handlers: a new message gets a notification, and an update of a read message marks its notifications read |
| `Messaging.Database.MarkMessageRead` | Django-signals_orm-0x04/messaging/models.py:164-168 | an unread message becomes read and its notifications become read; an already read one is not saved, so nothing changes |
| `Messaging.Database.MarkMessageEdited` | Django-signals_orm-0x04/messaging/models.py:170-174 | the message is flagged edited at `now`, and the save marks its notifications read when the message was already read |
| `Messaging.Database.DeleteMessage` | Django-signals_orm-0x04/messaging/signals.py:50-62 | the message and exactly its notifications are removed |
| `Messaging.Database.SaveUser` | Django-signals_orm-0x04/messaging/signals.py:65-83 | a new user is added and gets exactly one welcome notification; saving an existing user adds none |
| `Messaging.Database.MarkNotificationRead` | Django-signals_orm-0x04/messaging/models.py:413-418 | only that notification changes, as `mark_as_read` says |

## Left out

- SQLite and the file system: the database is a command log on a `Connection` object with a fault table, and a CSV file is the sequence of its lines. The SQL statements are not executed. A statement's effect is a parameter: the row counts in `bulk_update_users`, "email taken" and the last row id in `create_user_with_validation`, and the number of existing rows in `insert_data`.
- Logging, timestamps, timing, execution time, the cache's `cache_efficiency` figure and the log previews: none of them affects a result.
- The clock and randomness: `now` is an integer parameter. The random jitter is a parameter `rand` with values in `[0, 1)`. The random characters of `generate_uuid` are an oracle of draws, one per position. `time.sleep` is modelled only as its rejection of a negative delay.
- Retry.JitterBounds: the jitter is computed on real numbers. In IEEE doubles, `0.5 + r * 0.5` rounds to `1.0` for `r = 1 - 2^-53`, so the sleep can equal the delay, not stay strictly below it. The exponential delay without a cap can overflow to infinity, and `time.sleep(inf)` raises `OverflowError`. Neither is modelled.
- Retry.SleepsWithinJitter: its strict upper bound holds for the real-number jitter only. With IEEE rounding the sleep can equal the delay, as for `Retry.JitterBounds`.
- Utils.NestedMapExamples: it covers the parameterised cases one by one; the general behaviour is stated by `Utils.AccessNestedMap`'s contract.
- Fault tables: each command has one fixed fault for the whole scope, so a statement that fails once and then succeeds (a RELEASE that raises the first time only) cannot be expressed. The scope lemmas in `Connection` are stated for every fault table.
- Transaction.CreateUserWithValidation: `conn.cursor()` is assumed not to raise; the two statements' exceptions are inputs.
- Seed.InsertData: the caller's record dicts are changed in place by the source. The model returns the changed records as a new list instead, so aliasing of those dicts elsewhere is not modelled.
- QueryArgs.LogQueries: a truthy query that is not a string is assumed to have neither `split` nor `strip`, so it raises `AttributeError` as modelled. Bytes have both methods and fail later with `TypeError`, and an object that has them would go on; neither case is modelled. The same holds for the other query-logging decorators and for the cache's query handling.
- Seed.ConvertRecord: `int(float(age))` is a `parseAge` oracle that returns a number or fails, and a failure gives age 0 as `except (ValueError, TypeError)` does. Floating-point age strings and rounding are not modelled. An infinite age (`"inf"`, `"1e400"`) makes `int` raise `OverflowError`, which that handler does not catch: the outer handler rolls back and `insert_data` returns False. That path is not modelled.
- Cache.KeyIdentity: the key is taken to identify the triple (function name, normalised query, rendered parameters). SHA-256 collisions are not modelled. The key text `f"{func}:{query}:{params}"` is itself ambiguous, and the model does not capture that: the query `SELECT a:b` without parameters and the query `SELECT a` with parameters `B:` give the same text. `json.dumps` renders tuples and lists alike, and raises `TypeError` (before the lookup and before the call) for a dict parameter that holds an object or a row; the model renders such values anyway. `str()` of non-dict parameters is the value itself. Upper-casing is ASCII-only, as in `Cache.NormalQueryWords`.
- Cache.NormalQueryWords: `Text.Upper` maps only ASCII `a`-`z`. Python's `str.upper()` also maps other letters (`é` to `É`, `ß` to `SS`, `ſ` to `S`, `ı` to `I`), and those mappings are not modelled. The same holds for every member built on `Text.Upper` or `Text.Lower`: the cache key, `IsReadQuery`, the query-argument tests of `QueryArgs`, `Retry.Retryable`'s lower-cased message and `Seed.HeaderKey`.
- Cache.QueryCache.InvalidatePattern: the pattern test upper-cases with ASCII-only `Text.Upper`. A query and a pattern that match only under Python's full Unicode case mapping are not modelled.
- Cache.QueryCache.Serve: a result whose first element has no `keys` is stored as the caller's own object, and every later hit returns that same object. A caller that changes a result it received (appending to or sorting the list) therefore changes what later hits return. The model treats results as values, so this sharing between the cache and its callers is not modelled.
- Cache.Snapshot: when the first element of a list has `keys` and a later element is not a row, the model keeps that element unchanged. Python's `dict(x)` raises `TypeError` for such an element, or builds a dict when it is a sequence of pairs.
- Cache.QueryCache.Cleanup: among entries with equal `last_accessed`, the model removes some of them. The stable sort by insertion order that decides which ones is not modelled.
- Retry.CatchesTransient: the `exceptions` handler of `retry_on_failure` can only see a transient exception when `type(e) in transient_errors`. An earlier `isinstance` already catches that case, so the handler is dead and `exceptions` has no effect.
- Messaging.Recent: a negative `limit` makes Django's queryset slice raise `ValueError("Negative indexing is not supported.")`. The model does not capture that error path, because `limit` is a natural number. Among notifications with equal `created_at` the order is not fixed.
- Messaging.SortNewestFirst: the relative order of rows with equal `created_at` is not modelled.
- Threads.GetThreadMessages: parent links are assumed acyclic. A ranking of messages that drops along each parent link states this, as it does for stored Django rows. The model does not say which of equal-depth messages comes first.
- Message ids are natural numbers rather than UUIDs. Users are identified by their unique usernames.
- Thread navigation works on a message table value. The notification side keeps its own message map in the `Database` class, so the two are not one shared object.
- `get_user_conversations`, `get_all_replies`, `reply_count`, `edit_count`, `get_edit_history` and `MessageHistory`: ORM query building, prefetching and the edit-history table are left out.
- Cascade deletion of a deleted message's replies and the `User` foreign-key cascades are left out. Only the `post_delete` notification handler is modelled.
- The views, the admin, the app configuration, `get_json` (HTTP) and the Django ORM itself are left out.
- The streaming generators (`stream_users`, batch processing, `stream_ages`) and the rest of `seed.py`: connecting, creating the database and table, and the main routine, are left out.
- `memoize` is modelled on instance attributes only. Descriptor and class-attribute behaviour is left out.
- Concurrency: the module-level cache and the database are accessed one call at a time.

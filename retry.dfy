/**
 * Retry policies (python-decorators-0x01/3-retry_on_failure.py): the
 * wrapped function is attempted up to `retries + 1` times; between attempts
 * the wrapper sleeps a delay that grows by `backoff_factor`.
 *
 * The wrapped function is an oracle: `run(i)` is what its i-th call does.
 * `random.random()` is an oracle too: `rand(i)` is the number drawn before
 * the i-th sleep. Sleeping is not modelled beyond the list of durations asked
 * for; `time.sleep` with a negative duration raises ValueError.
 */
module Retry {
  import opened Python
  import opened Text
  import opened Connection

  /** `retry_on_failure`'s parameters; `transient` is the resolved `transient_errors` tuple. */
  datatype Policy = Policy(retries: int, delay: real, backoff: real, maxDelay: real,
                           exceptions: set<ErrorClass>, transient: set<ErrorClass>)

  /** The transient errors used when `transient_errors` is None. */
  const DefaultTransient: set<ErrorClass> := {OperationalError, DatabaseError, ConnectionError, TimeoutError, OSError}

  /** `transient_errors`, resolved: the given classes, or the defaults when None. */
  function TransientErrors(given: Option<set<ErrorClass>>): set<ErrorClass> {
    if given.Some? then given.value else DefaultTransient
  }

  /** `retry_on_failure()` with its defaults. */
  const DefaultPolicy: Policy := Policy(3, 2.0, 1.0, 30.0, {Exception}, TransientErrors(None))

  /** `simple_retry(retries, delay)`: the defaults with `retries` and `delay` replaced. */
  function SimpleRetryPolicy(retries: int, delay: real): Policy {
    DefaultPolicy.(retries := retries, delay := delay)
  }

  /** How the wrapper ended, how many times it called the function, and the sleeps it asked for, in order. */
  datatype Attempts = Attempts(out: Outcome, calls: nat, sleeps: seq<real>)

  const SleepRejected: Error := PyError(ValueError, "sleep length must be non-negative")

  function EndOfLoop(funcName: string): Error {
    PyError(RuntimeError, "Unexpected end of retry loop for " + funcName)
  }

  function Min(a: real, b: real): real {
    if a <= b then a else b
  }

  /**
   * The base delay (`current_delay`) of attempt `k`: `delay` for the first,
   * then the previous one times `backoff_factor`, capped by `max_delay`.
   */
  function BaseDelay(p: Policy, k: nat): real {
    if k == 0 then p.delay else Min(BaseDelay(p, k - 1) * p.backoff, p.maxDelay)
  }

  /** `current_delay * (0.5 + random() * 0.5)`. */
  function Jittered(current: real, r: real): real {
    current * (0.5 + r * 0.5)
  }

  /**
   * The retry loop shared by `retry_on_failure` and `smart_retry`, from
   * attempt `attempt` on. `retryable` says which errors are retried and
   * `sleep(i)` is the duration asked for after a retried failure of attempt
   * `i`. A return ends the loop; a retryable error below the last attempt
   * sleeps and moves on (a negative duration makes `time.sleep` raise); any
   * other error, and a retryable one on the last attempt, is re-raised.
   */
  function Retrying(retries: int, funcName: string, retryable: Error -> bool, sleep: nat -> real,
                    run: nat -> Outcome, attempt: nat): Attempts
    requires attempt == 0 || attempt <= retries
    decreases retries + 1 - attempt
  {
    if retries < attempt then
      Attempts(Raised(EndOfLoop(funcName)), 0, [])
    else if run(attempt).Returned? then
      Attempts(run(attempt), 1, [])
    else if retryable(run(attempt).error) && attempt < retries then
      if sleep(attempt) < 0.0 then
        Attempts(Raised(SleepRejected), 1, [])
      else
        var rest := Retrying(retries, funcName, retryable, sleep, run, attempt + 1);
        Attempts(rest.out, 1 + rest.calls, [sleep(attempt)] + rest.sleeps)
    else
      Attempts(run(attempt), 1, [])
  }

  /**
   * The loop makes between 1 and `retries + 1` calls (none when `retries` is
   * negative), sleeps once fewer than it calls, and sleeps `sleep(i)` after
   * attempt `i`. Every call but the last failed with a retryable error below
   * the last attempt and a non-negative sleep; the outcome is the last call's,
   * unless that call's sleep was negative, which raises ValueError.
   */
  lemma {:induction false} RetryingShape(retries: int, funcName: string, retryable: Error -> bool,
                                         sleep: nat -> real, run: nat -> Outcome, attempt: nat)
    requires attempt == 0 || attempt <= retries
    ensures var r := Retrying(retries, funcName, retryable, sleep, run, attempt);
      && (retries < attempt ==> r == Attempts(Raised(EndOfLoop(funcName)), 0, []))
      && (attempt <= retries ==> 1 <= r.calls <= retries + 1 - attempt && |r.sleeps| == r.calls - 1)
      && (forall i :: attempt <= i < attempt + r.calls - 1 ==>
            i < retries && run(i).Raised? && retryable(run(i).error) && sleep(i) >= 0.0)
      && (forall i :: 0 <= i < |r.sleeps| ==> r.sleeps[i] == sleep(attempt + i))
      && (r.calls > 0 ==> (
            var last := attempt + r.calls - 1;
            if last < retries && run(last).Raised? && retryable(run(last).error)
            then sleep(last) < 0.0 && r.out == Raised(SleepRejected)
            else r.out == run(last)))
    decreases retries + 1 - attempt
  {
    if attempt <= retries && run(attempt).Raised? && retryable(run(attempt).error) && attempt < retries
       && sleep(attempt) >= 0.0 {
      RetryingShape(retries, funcName, retryable, sleep, run, attempt + 1);
      var rest := Retrying(retries, funcName, retryable, sleep, run, attempt + 1);
      var r := Retrying(retries, funcName, retryable, sleep, run, attempt);
      assert r.sleeps == [sleep(attempt)] + rest.sleeps;
      assert forall i :: 0 < i < |r.sleeps| ==> r.sleeps[i] == rest.sleeps[i - 1];
    }
  }

  /** Sleep `i` of a whole run is the scheduled one, and it is not negative. */
  lemma ScheduledSleep(retries: int, funcName: string, retryable: Error -> bool, sleep: nat -> real,
                       run: nat -> Outcome, i: nat)
    requires i < |Retrying(retries, funcName, retryable, sleep, run, 0).sleeps|
    ensures Retrying(retries, funcName, retryable, sleep, run, 0).sleeps[i] == sleep(i) >= 0.0
  {
    RetryingShape(retries, funcName, retryable, sleep, run, 0);
  }

  /** The loop's state after `attempt` calls, with `sleeps` asked for so far, continued by `Retrying` from there. */
  function Resumed(retries: int, funcName: string, retryable: Error -> bool, sleep: nat -> real,
                   run: nat -> Outcome, attempt: nat, sleeps: seq<real>): Attempts
    requires attempt == 0 || attempt <= retries
  {
    var rest := Retrying(retries, funcName, retryable, sleep, run, attempt);
    Attempts(rest.out, attempt + rest.calls, sleeps + rest.sleeps)
  }

  /** An attempt that returns, or fails without being retried, ends the loop with its own outcome. */
  lemma StopStep(retries: int, funcName: string, retryable: Error -> bool, sleep: nat -> real,
                 run: nat -> Outcome, attempt: nat, sleeps: seq<real>)
    requires attempt <= retries
    requires run(attempt).Returned? || !retryable(run(attempt).error) || attempt == retries
    ensures Resumed(retries, funcName, retryable, sleep, run, attempt, sleeps) == Attempts(run(attempt), attempt + 1, sleeps)
  {
    assert sleeps + [] == sleeps;
  }

  /** A retried failure whose sleep is negative ends the loop with ValueError. */
  lemma RejectStep(retries: int, funcName: string, retryable: Error -> bool, sleep: nat -> real,
                   run: nat -> Outcome, attempt: nat, sleeps: seq<real>)
    requires attempt < retries && run(attempt).Raised? && retryable(run(attempt).error) && sleep(attempt) < 0.0
    ensures Resumed(retries, funcName, retryable, sleep, run, attempt, sleeps) == Attempts(Raised(SleepRejected), attempt + 1, sleeps)
  {
    assert sleeps + [] == sleeps;
  }

  /** A retried failure with a non-negative sleep records that sleep and moves on to the next attempt. */
  lemma ContinueStep(retries: int, funcName: string, retryable: Error -> bool, sleep: nat -> real,
                     run: nat -> Outcome, attempt: nat, sleeps: seq<real>)
    requires attempt < retries && run(attempt).Raised? && retryable(run(attempt).error) && sleep(attempt) >= 0.0
    ensures Resumed(retries, funcName, retryable, sleep, run, attempt, sleeps)
         == Resumed(retries, funcName, retryable, sleep, run, attempt + 1, sleeps + [sleep(attempt)])
  {
    var rest := Retrying(retries, funcName, retryable, sleep, run, attempt + 1);
    assert sleeps + ([sleep(attempt)] + rest.sleeps) == (sleeps + [sleep(attempt)]) + rest.sleeps;
  }

  /** A loop that ran out of attempts without returning or raising has made no call. */
  lemma EndStep(retries: int, funcName: string, retryable: Error -> bool, sleep: nat -> real,
                run: nat -> Outcome, attempt: nat, sleeps: seq<real>)
    requires attempt == 0 && retries < 0
    ensures Resumed(retries, funcName, retryable, sleep, run, attempt, sleeps) == Attempts(Raised(EndOfLoop(funcName)), 0, sleeps)
  {
    assert sleeps + [] == sleeps;
  }

  /** `retry_on_failure` retries the instances of its transient classes. */
  function Transient(p: Policy): Error -> bool {
    e => IsInstance(e, p.transient)
  }

  /** The sleep after attempt `i`: its base delay jittered by the `i`-th random draw. */
  function JitterSchedule(p: Policy, rand: nat -> real): nat -> real {
    (i: nat) => Jittered(BaseDelay(p, i), rand(i))
  }

  /** What `retry_on_failure(p)` does around a function that behaves as `run`. */
  function RetryOnFailureSpec(p: Policy, funcName: string, run: nat -> Outcome, rand: nat -> real): Attempts {
    Retrying(p.retries, funcName, Transient(p), JitterSchedule(p, rand), run, 0)
  }

  /**
   * The two `except` clauses of `retry_on_failure`: whether `e` goes on to
   * the retry branch. The second clause (`except exceptions`) only sees
   * errors that are not instances of the transient classes, so its
   * `type(e) in transient_errors` case never happens and every such error is
   * re-raised, listed in `exceptions` or not.
   */
  method CatchesTransient(p: Policy, e: Error) returns (retry: bool)
    ensures retry <==> IsInstance(e, p.transient)
  {
    if IsInstance(e, p.transient) {
      return true;
    }
    if IsInstance(e, p.exceptions) {
      if e.cls !in p.transient {
        return false;
      }
      assert IsSubclass(e.cls, e.cls);
      assert false;
    }
    return false;
  }

  /** The `retry_on_failure` wrapper. */
  method RetryOnFailure(p: Policy, funcName: string, run: nat -> Outcome, rand: nat -> real)
    returns (out: Outcome, calls: nat, sleeps: seq<real>)
    ensures Attempts(out, calls, sleeps) == RetryOnFailureSpec(p, funcName, run, rand)
  {
    var current := p.delay;
    var attempt: nat := 0;
    sleeps := [];
    ghost var retryable, sleep := Transient(p), JitterSchedule(p, rand);
    ghost var total := Resumed(p.retries, funcName, retryable, sleep, run, 0, []);
    assert total == Retrying(p.retries, funcName, retryable, sleep, run, 0);
    while attempt as int <= p.retries
      invariant attempt == 0 || attempt <= p.retries
      invariant |sleeps| == attempt && current == BaseDelay(p, attempt)
      invariant total == Resumed(p.retries, funcName, retryable, sleep, run, attempt, sleeps)
      decreases p.retries + 1 - attempt
    {
      match run(attempt)
      case Returned(v) =>
        StopStep(p.retries, funcName, retryable, sleep, run, attempt, sleeps);
        return Returned(v), attempt + 1, sleeps;
      case Raised(e) =>
        var retry := CatchesTransient(p, e);
        if retry && attempt as int < p.retries {
          var duration := Jittered(current, rand(attempt));
          assert duration == sleep(attempt);
          if duration < 0.0 {
            RejectStep(p.retries, funcName, retryable, sleep, run, attempt, sleeps);
            return Raised(SleepRejected), attempt + 1, sleeps;
          }
          ContinueStep(p.retries, funcName, retryable, sleep, run, attempt, sleeps);
          sleeps := sleeps + [duration];
          current := NextDelay(p, current, attempt);
          attempt := attempt + 1;
        } else {
          StopStep(p.retries, funcName, retryable, sleep, run, attempt, sleeps);
          return Raised(e), attempt + 1, sleeps;
        }
    }
    EndStep(p.retries, funcName, retryable, sleep, run, attempt, sleeps);
    return Raised(EndOfLoop(funcName)), 0, sleeps;
  }

  /** `current_delay = min(current_delay * backoff_factor, max_delay)`. */
  method NextDelay(p: Policy, current: real, ghost k: nat) returns (next: real)
    requires current == BaseDelay(p, k)
    ensures next == BaseDelay(p, k + 1)
  {
    next := Min(current * p.backoff, p.maxDelay);
  }

  /** Every base delay after the first is capped by `max_delay`, and with a non-negative start and factor none is negative. */
  lemma {:induction false} BaseDelayBounds(p: Policy, k: nat)
    ensures k > 0 ==> BaseDelay(p, k) <= p.maxDelay
    ensures p.delay >= 0.0 && p.backoff >= 0.0 && p.maxDelay >= 0.0 ==> BaseDelay(p, k) >= 0.0
  {
    if k > 0 {
      BaseDelayBounds(p, k - 1);
      var d := BaseDelay(p, k - 1);
      if d >= 0.0 && p.backoff >= 0.0 {
        assert d * p.backoff >= 0.0;
      }
    }
  }

  /** With the jitter factor drawn from [0, 1), a jittered delay lies in [d/2, d) for d > 0 and is 0 for d = 0. */
  lemma JitterBounds(d: real, r: real)
    requires 0.0 <= r < 1.0
    ensures var s := Jittered(d, r);
      (d >= 0.0 <==> s >= 0.0) && (d >= 0.0 ==> 0.5 * d <= s && (s < d || d == 0.0))
  {
    var f := 0.5 + r * 0.5;
    assert 0.5 <= f < 1.0;
    assert Jittered(d, r) == d * f;
    if d >= 0.0 {
      assert d * (f - 0.5) >= 0.0;
      assert d * (1.0 - f) >= 0.0;
      if d > 0.0 {
        assert d * (1.0 - f) > 0.0;
      }
    } else {
      assert d * f < 0.0;
    }
  }

  /** Every sleep `retry_on_failure` asks for is the jittered base delay of its attempt, within [d/2, d). */
  lemma SleepsWithinJitter(p: Policy, funcName: string, run: nat -> Outcome, rand: nat -> real, i: nat)
    requires forall k :: 0.0 <= rand(k) < 1.0
    requires i < |RetryOnFailureSpec(p, funcName, run, rand).sleeps|
    ensures var s, d := RetryOnFailureSpec(p, funcName, run, rand).sleeps[i], BaseDelay(p, i);
      s == Jittered(d, rand(i)) && 0.5 * d <= s && (s < d || d == 0.0)
  {
    ScheduledSleep(p.retries, funcName, Transient(p), JitterSchedule(p, rand), run, i);
    JitterBounds(BaseDelay(p, i), rand(i));
  }

  /**
   * A function that fails with a retryable error every time, while no sleep
   * is rejected, is called exactly `retries + 1` times, sleeps `retries`
   * times, and its last error is re-raised unchanged.
   */
  lemma {:induction false} AlwaysTransientExhausts(retries: int, funcName: string, retryable: Error -> bool,
                                                   sleep: nat -> real, run: nat -> Outcome, attempt: nat)
    requires attempt <= retries
    requires forall i :: attempt <= i <= retries ==> run(i).Raised? && retryable(run(i).error)
    requires forall i :: attempt <= i < retries ==> sleep(i) >= 0.0
    ensures var r := Retrying(retries, funcName, retryable, sleep, run, attempt);
      r.calls == retries + 1 - attempt && |r.sleeps| == retries - attempt && r.out == run(retries)
    decreases retries - attempt
  {
    if attempt < retries {
      AlwaysTransientExhausts(retries, funcName, retryable, sleep, run, attempt + 1);
    }
  }

  /** A first error that is not retryable is re-raised at once: one call, no sleep. */
  lemma NonTransientRaisedAtOnce(p: Policy, funcName: string, run: nat -> Outcome, rand: nat -> real)
    requires p.retries >= 0
    requires run(0).Raised? && !IsInstance(run(0).error, p.transient)
    ensures RetryOnFailureSpec(p, funcName, run, rand) == Attempts(run(0), 1, [])
  {
  }

  /** As soon as an attempt returns, its result is returned and no further attempt is made. */
  lemma {:induction false} FirstReturnWins(retries: int, funcName: string, retryable: Error -> bool,
                                           sleep: nat -> real, run: nat -> Outcome, attempt: nat, k: nat)
    requires attempt <= k <= retries
    requires run(k).Returned?
    requires forall i :: attempt <= i < k ==> run(i).Raised? && retryable(run(i).error) && sleep(i) >= 0.0
    ensures var r := Retrying(retries, funcName, retryable, sleep, run, attempt);
      r.out == run(k) && r.calls == k + 1 - attempt && |r.sleeps| == k - attempt
    decreases k - attempt
  {
    if attempt < k {
      FirstReturnWins(retries, funcName, retryable, sleep, run, attempt + 1, k);
    }
  }

  /** With `retries` below 0 the loop runs no attempt and raises RuntimeError. */
  lemma NegativeRetriesNeverCall(p: Policy, funcName: string, run: nat -> Outcome, rand: nat -> real)
    requires p.retries < 0
    ensures RetryOnFailureSpec(p, funcName, run, rand) == Attempts(Raised(EndOfLoop(funcName)), 0, [])
  {
  }

  /** `simple_retry` keeps the backoff at 1.0, so every delay after the first is min(delay, 30). */
  lemma {:induction false} SimpleRetryDelays(retries: int, delay: real, k: nat)
    ensures BaseDelay(SimpleRetryPolicy(retries, delay), k) == if k == 0 then delay else Min(delay, 30.0)
  {
    if k > 0 {
      SimpleRetryDelays(retries, delay, k - 1);
    }
  }

  /**
   * `@with_db_connection` over `@retry_on_failure` (lines 210-215): the
   * connection is opened once, every attempt is a call with that same
   * connection, and it is closed once, after the last attempt.
   */
  method RetryWithConnection(p: Policy, funcName: string, kwargs: map<string, Value>, connectFault: Option<Error>,
                             faults: Faults, run: nat -> Outcome, rand: nat -> real)
    returns (conn: Connection?, out: Outcome)
    ensures connectFault.Some? ==> conn == null && out == Raised(connectFault.value)
    ensures connectFault.None? ==> (
      var r := RetryOnFailureSpec(p, funcName, run, rand);
      && conn != null && fresh(conn) && conn.path == DbPath(kwargs)
      && conn.log == seq(r.calls, _ => Invoke) + [Close]
      && out == (if faults.close.Some? then Raised(faults.close.value) else r.out))
  {
    var err;
    conn, err := Open(DbPath(kwargs), connectFault, faults);
    if conn == null {
      return null, Raised(err.value);
    }
    // The attempts run first and their `Invoke` commands are then written to
    // the shared connection's log; the resulting log is the one the
    // interleaved calls produce, since nothing else is issued in between.
    var result, calls, _ := RetryOnFailure(p, funcName, run, rand);
    var k := 0;
    while k < calls
      invariant 0 <= k <= calls && conn.log == seq(k, _ => Invoke)
      modifies conn
    {
      var _ := conn.Issue(Invoke, conn.faults);
      k := k + 1;
    }
    out := conn.Conclude(CloseOnly, result);
  }

  /** A shared connection is closed exactly once, however many attempts were made. */
  lemma SharedConnectionClosedOnce(calls: nat)
    ensures Count(seq(calls, _ => Invoke) + [Close], Close) == 1
    ensures Count(seq(calls, _ => Invoke) + [Close], Invoke) == calls
  {
    CountInvokes(calls);
    CountAppend(seq(calls, _ => Invoke), [Close], Close);
    CountAppend(seq(calls, _ => Invoke), [Close], Invoke);
    CountAbsent(seq(calls, _ => Invoke), Close);
  }

  lemma {:induction false} CountInvokes(n: nat)
    ensures Count(seq(n, _ => Invoke), Invoke) == n
  {
    if n > 0 {
      assert seq(n, _ => Invoke)[1..] == seq(n - 1, _ => Invoke);
      CountInvokes(n - 1);
    }
  }

  /** `smart_retry`'s parameters. */
  datatype SmartPolicy = SmartPolicy(retries: int, delay: real, backoff: real)

  /** `smart_retry()` with its defaults. */
  const DefaultSmartPolicy: SmartPolicy := SmartPolicy(3, 1.0, 2.0)

  const RetryableKeywords: seq<string> :=
    ["database is locked", "disk i/o error", "database disk image is malformed", "unable to open database file"]

  /** An sqlite Operational/Database error whose lower-cased message names a retryable condition. */
  predicate Retryable(e: Error) {
    IsInstance(e, {OperationalError, DatabaseError})
    && exists k :: 0 <= k < |RetryableKeywords| && Contains(Lower(e.message), RetryableKeywords[k])
  }

  function Pow(b: real, k: nat): real {
    if k == 0 then 1.0 else b * Pow(b, k - 1)
  }

  /** `smart_retry`'s `current_delay` at attempt `k`: multiplied by the backoff after each sleep, never capped. */
  function SmartDelay(p: SmartPolicy, k: nat): real {
    if k == 0 then p.delay else SmartDelay(p, k - 1) * p.backoff
  }

  /** What `smart_retry(p)` does around a function that behaves as `run`: it sleeps `current_delay` itself. */
  function SmartRetrySpec(p: SmartPolicy, funcName: string, run: nat -> Outcome): Attempts {
    Retrying(p.retries, funcName, SmartRetryable(), SmartSchedule(p), run, 0)
  }

  /** `smart_retry` retries the retryable sqlite errors. */
  function SmartRetryable(): Error -> bool {
    e => Retryable(e)
  }

  function SmartSchedule(p: SmartPolicy): nat -> real {
    (k: nat) => SmartDelay(p, k)
  }

  /** `current_delay *= backoff_factor`. */
  method NextSmartDelay(p: SmartPolicy, current: real, ghost k: nat) returns (next: real)
    requires current == SmartDelay(p, k)
    ensures next == SmartDelay(p, k + 1)
  {
    next := current * p.backoff;
  }

  /** `smart_retry`'s delays are geometric and uncapped: delay k is delay * backoff_factor^k. */
  lemma {:induction false} SmartDelayGeometric(p: SmartPolicy, k: nat)
    ensures SmartDelay(p, k) == p.delay * Pow(p.backoff, k)
  {
    if k > 0 {
      SmartDelayGeometric(p, k - 1);
      assert p.delay * Pow(p.backoff, k - 1) * p.backoff == p.delay * (p.backoff * Pow(p.backoff, k - 1));
    }
  }

  /**
   * The `except` clauses of `smart_retry`: an sqlite Operational/Database
   * error goes on to the retry branch when its message names a retryable
   * condition; any other error is re-raised.
   */
  method CatchesRetryable(e: Error) returns (retry: bool)
    ensures retry <==> Retryable(e)
  {
    if IsInstance(e, {OperationalError, DatabaseError}) {
      var message := Lower(e.message);
      retry := exists k :: 0 <= k < |RetryableKeywords| && Contains(message, RetryableKeywords[k]);
    } else {
      retry := false;
    }
  }

  /**
   * The `smart_retry` wrapper: only a retryable sqlite error below the last
   * attempt is retried; every other error, sqlite or not, is raised at once.
   */
  method SmartRetry(p: SmartPolicy, funcName: string, run: nat -> Outcome)
    returns (out: Outcome, calls: nat, sleeps: seq<real>)
    ensures Attempts(out, calls, sleeps) == SmartRetrySpec(p, funcName, run)
  {
    var current := p.delay;
    var attempt: nat := 0;
    sleeps := [];
    ghost var retryable, sleep := SmartRetryable(), SmartSchedule(p);
    ghost var total := Resumed(p.retries, funcName, retryable, sleep, run, 0, []);
    assert total == Retrying(p.retries, funcName, retryable, sleep, run, 0);
    while attempt as int <= p.retries
      invariant attempt == 0 || attempt <= p.retries
      invariant |sleeps| == attempt && current == SmartDelay(p, attempt)
      invariant total == Resumed(p.retries, funcName, retryable, sleep, run, attempt, sleeps)
      decreases p.retries + 1 - attempt
    {
      match run(attempt)
      case Returned(v) =>
        StopStep(p.retries, funcName, retryable, sleep, run, attempt, sleeps);
        return Returned(v), attempt + 1, sleeps;
      case Raised(e) =>
        var retry := CatchesRetryable(e);
        if retry && attempt as int < p.retries {
          var duration := current;
          assert duration == sleep(attempt);
          if duration < 0.0 {
            RejectStep(p.retries, funcName, retryable, sleep, run, attempt, sleeps);
            return Raised(SleepRejected), attempt + 1, sleeps;
          }
          ContinueStep(p.retries, funcName, retryable, sleep, run, attempt, sleeps);
          sleeps := sleeps + [duration];
          current := NextSmartDelay(p, current, attempt);
          attempt := attempt + 1;
        } else {
          StopStep(p.retries, funcName, retryable, sleep, run, attempt, sleeps);
          return Raised(e), attempt + 1, sleeps;
        }
    }
    EndStep(p.retries, funcName, retryable, sleep, run, attempt, sleeps);
    return Raised(EndOfLoop(funcName)), 0, sleeps;
  }

  /** Sleep k of `smart_retry` is delay * backoff_factor^k. */
  lemma SmartSleepsGeometric(p: SmartPolicy, funcName: string, run: nat -> Outcome, k: nat)
    requires k < |SmartRetrySpec(p, funcName, run).sleeps|
    ensures SmartRetrySpec(p, funcName, run).sleeps[k] == p.delay * Pow(p.backoff, k)
  {
    ScheduledSleep(p.retries, funcName, SmartRetryable(), SmartSchedule(p), run, k);
    SmartDelayGeometric(p, k);
  }

  /** An error that is not a retryable sqlite error is raised on first occurrence by `smart_retry`. */
  lemma SmartRaisesOthersAtOnce(p: SmartPolicy, funcName: string, run: nat -> Outcome)
    requires p.retries >= 0 && run(0).Raised? && !Retryable(run(0).error)
    ensures SmartRetrySpec(p, funcName, run) == Attempts(run(0), 1, [])
  {
  }
}

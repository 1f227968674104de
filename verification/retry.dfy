/**
 * `retryWithBackoff`: call an operation until it succeeds, an error is not
 * worth retrying, or the retries run out, sleeping `initialDelay *
 * backoffMultiplier^k` before retry k.  The operation is given as the outcome
 * of each successive call, and the sleeps are returned as a log of delays.
 * `isNetworkError` classifies a thrown value.
 */
module Retry {
  import opened Common

  /** What one call of the operation does: resolve with a value or reject with an error. */
  datatype Outcome<T, E> = Success(value: T) | Failure(error: E)

  /** The options a caller passes; `None` is an omitted option. */
  datatype RetryOptions<-E> = RetryOptions(
    maxRetries: Option<real>,
    initialDelay: Option<real>,
    backoffMultiplier: Option<real>,
    shouldRetry: Option<E -> bool>)

  /** The options after the defaults are filled in. */
  datatype Settings<-E> = Settings(maxRetries: real, initialDelay: real, backoffMultiplier: real, shouldRetry: E -> bool)

  /** How a run ends: the operation's value, or a rethrown error (`None` is a rethrown `undefined`). */
  datatype RetryResult<T, E> = Returned(value: T) | Rethrown(error: Option<E>)

  /** A whole run: how it ended, how many times the operation was called, and the delays slept, in order. */
  datatype Trace<T, E> = Trace(result: RetryResult<T, E>, calls: nat, delays: seq<real>)

  const DefaultMaxRetries: real := 3.0
  const DefaultInitialDelay: real := 1000.0
  const DefaultBackoffMultiplier: real := 2.0

  function AlwaysRetry<E>(): E -> bool {
    _ => true
  }

  /** `{ ...defaultOptions, ...options }`: every omitted option takes its default. */
  function Resolve<E>(options: RetryOptions<E>): (s: Settings<E>)
    ensures options.maxRetries.Some? ==> s.maxRetries == options.maxRetries.value
    ensures options.maxRetries.None? ==> s.maxRetries == 3.0
    ensures options.initialDelay.Some? ==> s.initialDelay == options.initialDelay.value
    ensures options.initialDelay.None? ==> s.initialDelay == 1000.0
    ensures options.backoffMultiplier.Some? ==> s.backoffMultiplier == options.backoffMultiplier.value
    ensures options.backoffMultiplier.None? ==> s.backoffMultiplier == 2.0
    ensures options.shouldRetry.Some? ==> s.shouldRetry == options.shouldRetry.value
  {
    Settings(
      OrElse(options.maxRetries, DefaultMaxRetries),
      OrElse(options.initialDelay, DefaultInitialDelay),
      OrElse(options.backoffMultiplier, DefaultBackoffMultiplier),
      OrElse(options.shouldRetry, AlwaysRetry()))
  }

  /** Without a `shouldRetry` option every error is worth retrying. */
  lemma DefaultRetriesEverything<E>(options: RetryOptions<E>, e: E)
    requires options.shouldRetry.None?
    ensures Resolve(options).shouldRetry(e)
  {
  }

  function Pow(b: real, n: nat): real {
    if n == 0 then 1.0 else b * Pow(b, n - 1)
  }

  /** The delay slept before retry `k` (counting from 0). */
  function Delay<E>(s: Settings<E>, k: nat): real {
    s.initialDelay * Pow(s.backoffMultiplier, k)
  }

  /** The first `n` delays of the schedule. */
  function Schedule<E>(s: Settings<E>, n: nat): (d: seq<real>)
    ensures |d| == n && forall k :: 0 <= k < n ==> d[k] == Delay(s, k)
  {
    seq(n, k requires 0 <= k => Delay(s, k))
  }

  /** The schedule grows by one delay at a time. */
  lemma ScheduleSnoc<E>(s: Settings<E>, n: nat)
    ensures Schedule(s, n + 1) == Schedule(s, n) + [Delay(s, n)]
  {
  }

  /** How many more attempts the loop condition `attempt <= maxRetries` allows. */
  function AttemptsLeft(maxRetries: real, attempt: nat): nat {
    if attempt as real <= maxRetries then maxRetries.Floor - attempt + 1 else 0
  }

  /**
   * The run from attempt `attempt` on, after `attempt` failed attempts the
   * last of which threw `lastError`.
   */
  function RunFrom<T, E>(op: nat -> Outcome<T, E>, s: Settings<E>, attempt: nat, lastError: Option<E>): (t: Trace<T, E>)
    decreases AttemptsLeft(s.maxRetries, attempt)
  {
    if !(attempt as real <= s.maxRetries) then
      Trace(Rethrown(lastError), attempt, Schedule(s, attempt))
    else
      match op(attempt)
      case Success(v) => Trace(Returned(v), attempt + 1, Schedule(s, attempt))
      case Failure(e) =>
        if !s.shouldRetry(e) || attempt as real >= s.maxRetries then
          Trace(Rethrown(Some(e)), attempt + 1, Schedule(s, attempt))
        else
          RunFrom(op, s, attempt + 1, Some(e))
  }

  /** One allowed attempt: a success returns, a final or unretryable failure rethrows, any other failure moves on. */
  lemma RunFromOnce<T, E>(op: nat -> Outcome<T, E>, s: Settings<E>, attempt: nat, lastError: Option<E>)
    requires attempt as real <= s.maxRetries
    ensures op(attempt).Success? ==>
      RunFrom(op, s, attempt, lastError) == Trace(Returned(op(attempt).value), attempt + 1, Schedule(s, attempt))
    ensures op(attempt).Failure? && (!s.shouldRetry(op(attempt).error) || attempt as real >= s.maxRetries) ==>
      RunFrom(op, s, attempt, lastError) == Trace(Rethrown(Some(op(attempt).error)), attempt + 1, Schedule(s, attempt))
    ensures op(attempt).Failure? && s.shouldRetry(op(attempt).error) && attempt as real < s.maxRetries ==>
      RunFrom(op, s, attempt, lastError) == RunFrom(op, s, attempt + 1, Some(op(attempt).error))
  {
  }

  /** The run `retryWithBackoff(fn, options)` makes. */
  function Run<T, E>(op: nat -> Outcome<T, E>, options: RetryOptions<E>): Trace<T, E> {
    RunFrom(op, Resolve(options), 0, None)
  }

  /**
   * `retryWithBackoff`: the loop over attempts with its `lastError`; each
   * sleep appends its delay to `delays`.
   */
  method RetryWithBackoff<T, E>(op: nat -> Outcome<T, E>, options: RetryOptions<E>)
    returns (result: RetryResult<T, E>, calls: nat, delays: seq<real>)
    ensures Trace(result, calls, delays) == Run(op, options)
  {
    var opts := Resolve(options);
    var lastError: Option<E> := None;
    calls, delays := 0, [];
    var attempt: nat := 0;
    while attempt as real <= opts.maxRetries
      invariant calls == attempt && delays == Schedule(opts, attempt)
      invariant attempt == 0 ==> lastError == None
      invariant RunFrom(op, opts, attempt, lastError) == Run(op, options)
      decreases AttemptsLeft(opts.maxRetries, attempt)
    {
      var outcome := op(attempt);
      RunFromOnce(op, opts, attempt, lastError);
      calls := calls + 1;
      if outcome.Success? {
        return Returned(outcome.value), calls, delays;
      }
      lastError := Some(outcome.error);
      if !opts.shouldRetry(outcome.error) {
        return Rethrown(lastError), calls, delays;
      }
      if attempt as real >= opts.maxRetries {
        return Rethrown(lastError), calls, delays;
      }
      var delay := opts.initialDelay * Pow(opts.backoffMultiplier, attempt);
      assert delay == Delay(opts, attempt);
      ScheduleSnoc(opts, attempt);
      delays := delays + [delay];
      attempt := attempt + 1;
    }
    result := Rethrown(lastError);
  }

  // ---------------------------------------------------------------------
  // What a run promises
  // ---------------------------------------------------------------------

  /**
   * The facts about a run that started at attempt `attempt`, given that every
   * earlier attempt failed with a retryable error before the last allowed one.
   */
  lemma {:induction false} RunFromFacts<T, E>(op: nat -> Outcome<T, E>, s: Settings<E>, attempt: nat, lastError: Option<E>)
    requires forall k :: 0 <= k < attempt ==> op(k).Failure? && s.shouldRetry(op(k).error) && (k as real) < s.maxRetries
    requires lastError == if attempt == 0 then None else Some(op(attempt - 1).error)
    ensures var t := RunFrom(op, s, attempt, lastError);
      && attempt <= |t.delays| && t.delays == Schedule(s, |t.delays|)
      && (forall k :: 0 <= k < |t.delays| ==> op(k).Failure? && s.shouldRetry(op(k).error) && (k as real) < s.maxRetries)
      && (t.calls == |t.delays| + 1 || (t.calls == |t.delays| && !(t.calls as real <= s.maxRetries)))
      && (t.calls == |t.delays| + 1 ==> (t.calls - 1) as real <= s.maxRetries)
      && (t.result.Returned? ==> t.calls == |t.delays| + 1 && op(|t.delays|) == Success(t.result.value))
      && (t.result.Rethrown? && t.calls == |t.delays| + 1 ==>
            && op(|t.delays|).Failure? && t.result.error == Some(op(|t.delays|).error)
            && (!s.shouldRetry(op(|t.delays|).error) || |t.delays| as real >= s.maxRetries))
      && (t.calls == |t.delays| ==> t.result == Rethrown(if t.calls == 0 then None else Some(op(t.calls - 1).error)))
    decreases AttemptsLeft(s.maxRetries, attempt)
  {
    if attempt as real <= s.maxRetries {
      match op(attempt)
      case Success(_) =>
      case Failure(e) =>
        if s.shouldRetry(e) && !(attempt as real >= s.maxRetries) {
          RunFromFacts(op, s, attempt + 1, Some(e));
        }
    }
  }

  /**
   * `retryWithBackoff` stops at the first attempt that succeeds, throws an
   * error `shouldRetry` rejects, or is the last one allowed: every attempt
   * before it failed retryably and was followed by the sleep the schedule
   * gives; the operation is called at most `maxRetries + 1` times; a value is
   * returned at once and an error is rethrown unchanged.
   */
  lemma RunCharacterization<T, E>(op: nat -> Outcome<T, E>, options: RetryOptions<E>)
    ensures var s := Resolve(options);
      var t := Run(op, options);
      && t.delays == Schedule(s, |t.delays|)
      && (forall k :: 0 <= k < |t.delays| ==> op(k).Failure? && s.shouldRetry(op(k).error))
      && (t.calls == 0 <==> s.maxRetries < 0.0)
      && (t.calls as real <= s.maxRetries + 1.0 || t.calls == 0)
      && (t.calls == |t.delays| + 1 || (t.calls == |t.delays| && !(t.calls as real <= s.maxRetries)))
      && (t.result.Returned? ==> t.calls == |t.delays| + 1 && op(|t.delays|) == Success(t.result.value))
      && (t.result.Rethrown? && t.calls == |t.delays| + 1 ==>
            && op(|t.delays|).Failure? && t.result.error == Some(op(|t.delays|).error)
            && (!s.shouldRetry(op(|t.delays|).error) || |t.delays| as real >= s.maxRetries))
      && (t.calls == |t.delays| ==> t.result == Rethrown(if t.calls == 0 then None else Some(op(t.calls - 1).error)))
  {
    var s := Resolve(options);
    RunFromFacts(op, s, 0, None);
    var t := Run(op, options);
    if t.calls == |t.delays| && t.calls > 0 {
      assert (t.calls - 1) as real < s.maxRetries;
    }
  }

  /** A first call that succeeds is the whole run: one call, no sleep. */
  lemma FirstSuccessReturnsAtOnce<T, E>(op: nat -> Outcome<T, E>, options: RetryOptions<E>)
    requires op(0).Success? && Resolve(options).maxRetries >= 0.0
    ensures Run(op, options) == Trace(Returned(op(0).value), 1, [])
  {
  }

  /** An error `shouldRetry` rejects is rethrown after that one call, without a sleep. */
  lemma UnretryableErrorRethrown<T, E>(op: nat -> Outcome<T, E>, options: RetryOptions<E>)
    requires op(0).Failure? && !Resolve(options).shouldRetry(op(0).error) && Resolve(options).maxRetries >= 0.0
    ensures Run(op, options) == Trace(Rethrown(Some(op(0).error)), 1, [])
  {
  }

  /** With `maxRetries: 0` the operation is called exactly once and nothing is slept. */
  lemma NoRetriesMeansOneCall<T, E>(op: nat -> Outcome<T, E>, options: RetryOptions<E>)
    requires options.maxRetries == Some(0.0)
    ensures Run(op, options).calls == 1 && Run(op, options).delays == []
    ensures op(0).Failure? ==> Run(op, options).result == Rethrown(Some(op(0).error))
  {
  }

  /** A negative `maxRetries` never calls the operation and rethrows `undefined`. */
  lemma NegativeMaxRetriesNeverCalls<T, E>(op: nat -> Outcome<T, E>, options: RetryOptions<E>)
    requires Resolve(options).maxRetries < 0.0
    ensures Run(op, options) == Trace(Rethrown(None), 0, [])
  {
  }

  lemma {:induction false} PersistentFailureFrom<T, E>(op: nat -> Outcome<T, E>, s: Settings<E>, n: nat, attempt: nat, lastError: Option<E>)
    requires s.maxRetries == n as real && attempt <= n
    requires forall k :: 0 <= k <= n ==> op(k).Failure? && s.shouldRetry(op(k).error)
    ensures RunFrom(op, s, attempt, lastError) == Trace(Rethrown(Some(op(n).error)), n + 1, Schedule(s, n))
    decreases n - attempt
  {
    if attempt < n {
      PersistentFailureFrom(op, s, n, attempt + 1, Some(op(attempt).error));
    }
  }

  /**
   * An operation that always fails retryably is called `maxRetries + 1`
   * times, sleeps the first `maxRetries` delays of the schedule, and the
   * error of the last call is rethrown.
   */
  lemma PersistentFailure<T, E>(op: nat -> Outcome<T, E>, options: RetryOptions<E>, n: nat)
    requires Resolve(options).maxRetries == n as real
    requires forall k :: 0 <= k <= n ==> op(k).Failure? && Resolve(options).shouldRetry(op(k).error)
    ensures Run(op, options) == Trace(Rethrown(Some(op(n).error)), n + 1, Schedule(Resolve(options), n))
  {
    PersistentFailureFrom(op, Resolve(options), n, 0, None);
  }

  /** Two failures, then a success, with `maxRetries: 3, initialDelay: 100`: three calls, sleeps of 100 and 200. */
  lemma BackoffExample<T, E>(v: T, e1: E, e2: E)
    ensures var op := (k: nat) => if k == 0 then Failure(e1) else if k == 1 then Failure(e2) else Success(v);
      Run(op, RetryOptions(Some(3.0), Some(100.0), None, None)) == Trace(Returned(v), 3, [100.0, 200.0])
  {
    var op := (k: nat) => if k == 0 then Failure(e1) else if k == 1 then Failure(e2) else Success(v);
    var options: RetryOptions<E> := RetryOptions(Some(3.0), Some(100.0), None, None);
    var s := Resolve(options);
    assert Pow(2.0, 1) == 2.0;
    assert Schedule(s, 2) == [100.0, 200.0];
  }

  /** With a multiplier of at least 1 and a non-negative initial delay, each delay is at least the one before. */
  lemma {:induction false} DelaysNeverShrink<E>(s: Settings<E>, k: nat)
    requires s.backoffMultiplier >= 1.0 && s.initialDelay >= 0.0
    ensures 0.0 <= Delay(s, k) <= Delay(s, k + 1)
  {
    PowAtLeastOne(s.backoffMultiplier, k);
    assert Pow(s.backoffMultiplier, k + 1) == s.backoffMultiplier * Pow(s.backoffMultiplier, k);
  }

  lemma {:induction false} PowAtLeastOne(b: real, n: nat)
    requires b >= 1.0
    ensures Pow(b, n) >= 1.0
  {
    if n > 0 {
      PowAtLeastOne(b, n - 1);
    }
  }

  // ---------------------------------------------------------------------
  // `isNetworkError`
  // ---------------------------------------------------------------------

  /**
   * A thrown value: something that is not an `Error` instance, or an `Error`
   * with its `code`, `name` and `message` properties (`None` when a property
   * is missing or not a string).
   */
  datatype Thrown = NonErrorValue | ErrorObject(code: Option<string>, name: Option<string>, message: Option<string>)

  /** The error codes of timeouts and failed connections. */
  const NetworkCodes: set<string> := {"ETIMEDOUT", "ECONNREFUSED", "ENOTFOUND", "ECONNRESET"}

  /** `isNetworkError`: a timeout or connection failure, judged by code, name or message. */
  function IsNetworkError(e: Thrown): bool {
    match e
    case NonErrorValue => false
    case ErrorObject(code, name, message) =>
      || code == Some("ETIMEDOUT")
      || code == Some("ECONNREFUSED")
      || code == Some("ENOTFOUND")
      || code == Some("ECONNRESET")
      || name == Some("AbortError")
      || (message.Some? && Contains(message.value, "fetch failed"))
      || (message.Some? && Contains(message.value, "timeout"))
  }

  /**
   * A value that is not an `Error` is never a network error; an `Error` is
   * one exactly when its code is a network code, its name is `AbortError`, or
   * `fetch failed` or `timeout` occurs somewhere in its message.
   */
  lemma NetworkErrorClassification(e: Thrown)
    ensures e.NonErrorValue? ==> !IsNetworkError(e)
    ensures e.ErrorObject? ==>
      (IsNetworkError(e) <==>
        || (e.code.Some? && e.code.value in NetworkCodes)
        || e.name == Some("AbortError")
        || (e.message.Some? && exists i: nat :: OccursAt(e.message.value, "fetch failed", i))
        || (e.message.Some? && exists i: nat :: OccursAt(e.message.value, "timeout", i)))
  {
  }

  /** An error whose message mentions a timeout anywhere is a network error, whatever its code and name. */
  lemma TimeoutMessageIsNetworkError(code: Option<string>, name: Option<string>, before: string, after: string)
    ensures IsNetworkError(ErrorObject(code, name, Some(before + "timeout" + after)))
  {
    ContainsMiddle(before, "timeout", after);
  }

  /** An `Error` carrying code `ETIMEDOUT` is a network error. */
  lemma TimedOutCodeExample()
    ensures IsNetworkError(ErrorObject(Some("ETIMEDOUT"), Some("Error"), Some("ETIMEDOUT")))
  {
  }

  /**
   * An `Error` without a network code or the name `AbortError`, whose message
   * mentions neither `fetch failed` nor `timeout`, is not a network error.
   */
  lemma OrdinaryErrorIsNotNetworkError(code: Option<string>, name: Option<string>, message: string)
    requires code.None? || code.value !in NetworkCodes
    requires name != Some("AbortError")
    requires !Contains(message, "fetch failed") && !Contains(message, "timeout")
    ensures !IsNetworkError(ErrorObject(code, name, Some(message)))
  {
  }
}

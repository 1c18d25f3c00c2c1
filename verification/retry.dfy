/** `RetryHandler` of the anti-bot toolkit: the retry decision table, capped
    exponential backoff with +/-25% jitter, and the bounded retry loop.

    Randomness is a parameter: `jitter` stands for the `random.uniform(-1, 1)` draw,
    and a retried function is a script `call` whose `k`-th entry is what its `k`-th
    invocation returns or raises. */
module Retry {
  import opened Common
  import opened Web

  /** `base ** n` for a real base and a natural exponent. */
  function Pow(base: real, n: nat): real
    decreases n
  {
    if n == 0 then 1.0 else base * Pow(base, n - 1)
  }

  lemma {:induction false} PowAtLeastOne(base: real, n: nat)
    requires base >= 1.0
    ensures Pow(base, n) >= 1.0
    decreases n
  {
    if n > 0 {
      PowAtLeastOne(base, n - 1);
    }
  }

  /** For a base of at least one, larger exponents give larger powers. */
  lemma {:induction false} PowMonotone(base: real, m: nat, n: nat)
    requires base >= 1.0
    requires m <= n
    ensures Pow(base, m) <= Pow(base, n)
    decreases n - m
  {
    if m < n {
      PowMonotone(base, m, n - 1);
      PowAtLeastOne(base, n - 1);
      assert Pow(base, n) == base * Pow(base, n - 1);
      assert base * Pow(base, n - 1) >= Pow(base, n - 1);
    }
  }

  datatype RetryConfig = RetryConfig(maxRetries: int, baseDelay: real, maxDelay: real, expBase: real)

  /** `RetryHandler()` with its default arguments. */
  const DefaultRetry := RetryConfig(3, 1.0, 60.0, 2.0)

  // ------------------------------------------------------------- should_retry

  /** Codes retried unconditionally. */
  const RetryableCodes: set<int> := {408, 429, 500, 502, 503, 504}

  /** A status is "given" in the Python sense only when it is truthy: `None` and `0` are not. */
  predicate HasStatus(code: Option<int>) {
    code.Some? && code.value != 0
  }

  /** `should_retry(attempt, status_code)`. */
  function ShouldRetry(cfg: RetryConfig, attempt: int, code: Option<int>): (b: bool)
    ensures attempt >= cfg.maxRetries ==> !b
    ensures attempt < cfg.maxRetries && HasStatus(code) && code.value in RetryableCodes ==> b
    ensures (attempt < cfg.maxRetries && HasStatus(code) && code.value !in RetryableCodes
             && 400 <= code.value < 500) ==> !b
    ensures attempt < cfg.maxRetries && !(HasStatus(code) && 400 <= code.value < 500) ==> b
  {
    if attempt >= cfg.maxRetries then false
    else if HasStatus(code) && code.value in RetryableCodes then true
    else if HasStatus(code) && 400 <= code.value < 500 && code.value != 429 then false
    else true
  }

  /** The decision depends on the attempt only through `attempt < max_retries`,
      and within budget it is "not a client error other than 408/429". */
  lemma ShouldRetryTable(cfg: RetryConfig, attempt: int, code: Option<int>)
    ensures ShouldRetry(cfg, attempt, code)
        <==> attempt < cfg.maxRetries
             && (!HasStatus(code) || !(400 <= code.value < 500) || code.value in {408, 429})
  {
  }

  /** The expectations printed by the component test: with three retries and attempt 0,
      200, 429, 500 and 503 are retried and 403 is not. */
  lemma ShouldRetrySamples()
    ensures ShouldRetry(RetryConfig(3, 0.5, 60.0, 2.0), 0, Some(200))
    ensures !ShouldRetry(RetryConfig(3, 0.5, 60.0, 2.0), 0, Some(403))
    ensures ShouldRetry(RetryConfig(3, 0.5, 60.0, 2.0), 0, Some(429))
    ensures ShouldRetry(RetryConfig(3, 0.5, 60.0, 2.0), 0, Some(500))
    ensures ShouldRetry(RetryConfig(3, 0.5, 60.0, 2.0), 0, Some(503))
  {
  }

  // ---------------------------------------------------------------- get_delay

  /** `get_delay(attempt)` with `jitter` the `random.uniform(-1, 1)` draw. */
  function GetDelay(cfg: RetryConfig, attempt: nat, jitter: real): (d: real)
    ensures d <= cfg.maxDelay
    ensures cfg.baseDelay >= 0.0 && cfg.expBase >= 0.0 && -1.0 <= jitter <= 1.0 ==>
              d <= 1.25 * (cfg.baseDelay * Pow(cfg.expBase, attempt))
    ensures cfg.baseDelay >= 0.0 && cfg.expBase >= 0.0 && -1.0 <= jitter <= 1.0 ==>
              d >= 0.75 * (cfg.baseDelay * Pow(cfg.expBase, attempt)) || d == cfg.maxDelay
  {
    DelayNonNegative(cfg, attempt);
    CapJitter(cfg.baseDelay * Pow(cfg.expBase, attempt), jitter, cfg.maxDelay)
  }

  /** `min(delay + delay * 0.25 * jitter, cap)`: the jittered delay, capped. */
  function CapJitter(delay: real, jitter: real, cap: real): (d: real)
    ensures d <= cap
    ensures delay >= 0.0 && -1.0 <= jitter <= 1.0 ==> d <= 1.25 * delay && (d >= 0.75 * delay || d == cap)
  {
    var jittered := delay + delay * 0.25 * jitter;
    JitterBounds(delay, jitter);
    if cap < jittered then cap else jittered
  }

  lemma JitterBounds(delay: real, jitter: real)
    ensures delay >= 0.0 && -1.0 <= jitter <= 1.0 ==>
              0.75 * delay <= delay + delay * 0.25 * jitter <= 1.25 * delay
  {
    if delay >= 0.0 && -1.0 <= jitter <= 1.0 {
      assert delay * jitter <= delay * 1.0;
      assert delay * jitter >= delay * -1.0;
    }
  }

  lemma {:induction false} PowNonNegative(base: real, n: nat)
    requires base >= 0.0
    ensures Pow(base, n) >= 0.0
    decreases n
  {
    if n > 0 {
      PowNonNegative(base, n - 1);
    }
  }

  lemma DelayNonNegative(cfg: RetryConfig, attempt: nat)
    ensures cfg.baseDelay >= 0.0 && cfg.expBase >= 0.0 ==> cfg.baseDelay * Pow(cfg.expBase, attempt) >= 0.0
  {
    if cfg.baseDelay >= 0.0 && cfg.expBase >= 0.0 {
      PowNonNegative(cfg.expBase, attempt);
    }
  }

  /** For a fixed jitter draw the backoff never shrinks as the attempt number grows. */
  lemma GetDelayMonotone(cfg: RetryConfig, a: nat, b: nat, jitter: real)
    requires a <= b
    requires cfg.baseDelay >= 0.0 && cfg.expBase >= 1.0
    requires -1.0 <= jitter <= 1.0
    ensures GetDelay(cfg, a, jitter) <= GetDelay(cfg, b, jitter)
  {
    PowMonotone(cfg.expBase, a, b);
    var da := cfg.baseDelay * Pow(cfg.expBase, a);
    var db := cfg.baseDelay * Pow(cfg.expBase, b);
    ScaleMonotone(cfg.baseDelay, Pow(cfg.expBase, a), Pow(cfg.expBase, b));
    JitterScales(da, jitter);
    JitterScales(db, jitter);
    ScaleMonotone(1.0 + 0.25 * jitter, da, db);
    var ja := da + da * 0.25 * jitter;
    var jb := db + db * 0.25 * jitter;
    assert ja <= jb;
    assert GetDelay(cfg, a, jitter) == if cfg.maxDelay < ja then cfg.maxDelay else ja;
    assert GetDelay(cfg, b, jitter) == if cfg.maxDelay < jb then cfg.maxDelay else jb;
  }

  /** Scaling by a non-negative factor keeps the order. */
  lemma ScaleMonotone(c: real, x: real, y: real)
    requires c >= 0.0 && x <= y
    ensures c * x <= c * y
  {
    assert c * y - c * x == c * (y - x);
  }

  /** Adding a quarter of the jitter is scaling by `1 + 0.25 * jitter`. */
  lemma JitterScales(delay: real, jitter: real)
    ensures delay + delay * 0.25 * jitter == (1.0 + 0.25 * jitter) * delay
  {
  }

  // ------------------------------------------------------- execute_with_retry

  /** The loop shared by every `RetryHandler.execute*`: up to `maxRetries + 1` calls of
      the script `call`, returning the first value returned and otherwise re-raising the
      last exception; after each failed call that is not the last it sleeps `delay(attempt)`,
      and `time.sleep` raises `ValueError` when that length is negative. */
  method Execute<T>(maxRetries: nat, call: nat -> Attempt<T>, delay: nat -> real)
    returns (r: Attempt<T>, calls: nat, sleeps: seq<real>)
    ensures 1 <= calls <= maxRetries + 1
    ensures forall k :: 0 <= k < calls - 1 ==> call(k).Raised? && delay(k) >= 0.0
    ensures call(calls - 1).Returned? ==> r == call(calls - 1)
    ensures call(calls - 1).Raised? && calls == maxRetries + 1 ==> r == call(calls - 1)
    ensures call(calls - 1).Raised? && calls <= maxRetries ==> delay(calls - 1) < 0.0 && r == Raised(SleepError)
    ensures |sleeps| == calls - 1
    ensures forall k :: 0 <= k < |sleeps| ==> sleeps[k] == delay(k)
  {
    var lastError: Option<Error> := None;
    var attempt: nat := 0;
    calls := 0;
    sleeps := [];
    while attempt < maxRetries + 1
      invariant attempt <= maxRetries + 1
      invariant calls == attempt
      invariant forall k :: 0 <= k < attempt ==> call(k).Raised?
      invariant forall k :: 0 <= k < attempt && k < maxRetries ==> delay(k) >= 0.0
      invariant attempt > 0 ==> lastError == Some(call(attempt - 1).error)
      invariant |sleeps| == (if attempt <= maxRetries then attempt else maxRetries)
      invariant forall k :: 0 <= k < |sleeps| ==> sleeps[k] == delay(k)
    {
      var outcome := call(attempt);
      calls := calls + 1;
      if outcome.Returned? {
        return outcome, calls, sleeps;
      }
      lastError := Some(outcome.error);
      if attempt < maxRetries {
        var d := delay(attempt);
        if d < 0.0 {
          return Raised(SleepError), calls, sleeps;
        }
        sleeps := sleeps + [d];
      }
      attempt := attempt + 1;
    }
    r := Raised(lastError.value);
  }

  /** `RetryHandler.execute_with_retry(func)`. A negative `max_retries` runs no attempt
      and ends in `raise None`, a `TypeError`; a negative backoff, which needs a negative
      `base_delay` or `max_delay` or an out-of-range draw, is a `ValueError` of
      `time.sleep` raised from the `except` block. */
  method ExecuteWithRetry<T>(cfg: RetryConfig, call: nat -> Attempt<T>, jitter: nat -> real)
    returns (r: Attempt<T>, calls: nat, sleeps: seq<real>)
    ensures cfg.maxRetries < 0 ==> calls == 0 && sleeps == [] && r == Raised(NoException)
    ensures cfg.maxRetries >= 0 ==> 1 <= calls <= cfg.maxRetries + 1
    ensures forall k :: 0 <= k < calls - 1 ==> call(k).Raised? && GetDelay(cfg, k, jitter(k)) >= 0.0
    ensures calls >= 1 && call(calls - 1).Returned? ==> r == call(calls - 1)
    ensures calls >= 1 && call(calls - 1).Raised? && calls == cfg.maxRetries + 1 ==> r == call(cfg.maxRetries)
    ensures calls >= 1 && call(calls - 1).Raised? && calls <= cfg.maxRetries ==>
              GetDelay(cfg, calls - 1, jitter(calls - 1)) < 0.0 && r == Raised(SleepError)
    ensures calls >= 1 ==> |sleeps| == calls - 1
    ensures forall k :: 0 <= k < |sleeps| ==> sleeps[k] == GetDelay(cfg, k, jitter(k))
    ensures forall k :: 0 <= k < |sleeps| ==> 0.0 <= sleeps[k] <= cfg.maxDelay
  {
    if cfg.maxRetries < 0 {
      return Raised(NoException), 0, [];
    }
    var backoff := (a: nat) => GetDelay(cfg, a, jitter(a));
    assert forall k: nat :: backoff(k) == GetDelay(cfg, k, jitter(k));
    r, calls, sleeps := Execute(cfg.maxRetries, call, backoff);
  }

  /** Within the source's own argument ranges -- non-negative delays and a draw of
      `random.uniform(-1, 1)` -- no backoff is negative, so `time.sleep` never raises and
      a failure re-raises the last attempt's exception. */
  lemma {:induction false} BackoffNonNegative(cfg: RetryConfig, attempt: nat, jitter: real)
    requires cfg.baseDelay >= 0.0 && cfg.maxDelay >= 0.0 && cfg.expBase >= 0.0
    requires -1.0 <= jitter <= 1.0
    ensures GetDelay(cfg, attempt, jitter) >= 0.0
  {
    PowNonNegative(cfg.expBase, attempt);
    MulNonNegative(cfg.baseDelay, Pow(cfg.expBase, attempt));
  }

  lemma MulNonNegative(a: real, b: real)
    requires a >= 0.0 && b >= 0.0
    ensures a * b >= 0.0
  {
  }
}

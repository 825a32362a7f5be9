/** policy/retry_policy.py: when a failed request is retried and how long to wait first. */
module RetryPolicy {
  import opened Wrappers

  /** The exception a failed attempt raised (its contents do not matter here). */
  datatype Fault = Fault(message: string)

  function Pow2(n: nat): (p: nat)
    ensures p >= 1
  {
    if n == 0 then 1 else 2 * Pow2(n - 1)
  }

  /** `SimpleRetryPolicy(max_attempts, base_delay)`; both are fixed at construction. */
  datatype SimpleRetryPolicy = SimpleRetryPolicy(maxAttempts: int, baseDelay: real)
  {
    /** `should_retry(exc, attempt)`. */
    function ShouldRetry(exc: Option<Fault>, attempt: int): (r: bool)
      ensures exc.None? ==> !r
      ensures exc.Some? ==> (r <==> attempt < maxAttempts)
    {
      exc.Some? && attempt < maxAttempts
    }

    /** `backoff(attempt)`: the delay in seconds before the next attempt. */
    function Backoff(attempt: int): (r: real)
      ensures attempt <= 1 ==> r == 0.0
      ensures attempt == 2 ==> r == baseDelay
      ensures baseDelay >= 0.0 ==> r >= 0.0
    {
      if attempt <= 1 then 0.0 else baseDelay * Pow2(attempt - 2) as real
    }
  }

  /** The constructor's defaults: three attempts, one second base delay. */
  const DEFAULT_POLICY := SimpleRetryPolicy(3, 1.0)

  /** The default policy retries a failing request after attempts 1 and 2, waiting 0 and 1
      second, and gives up after attempt 3: at most three attempts in all. */
  lemma DefaultPolicySchedule(exc: Fault)
    ensures DEFAULT_POLICY.ShouldRetry(Some(exc), 1) && DEFAULT_POLICY.ShouldRetry(Some(exc), 2)
    ensures forall attempt :: attempt >= 3 ==> !DEFAULT_POLICY.ShouldRetry(Some(exc), attempt)
    ensures DEFAULT_POLICY.Backoff(1) == 0.0 && DEFAULT_POLICY.Backoff(2) == 1.0 && DEFAULT_POLICY.Backoff(3) == 2.0
  {
  }

  /** The first attempt (and anything below it) waits nothing; attempt 2 waits the base delay,
      attempt 3 twice that. */
  lemma BackoffFirstSteps(policy: SimpleRetryPolicy, attempt: int)
    ensures attempt <= 1 ==> policy.Backoff(attempt) == 0.0
    ensures policy.Backoff(2) == policy.baseDelay
    ensures policy.Backoff(3) == 2.0 * policy.baseDelay
  {
  }

  /** From attempt 2 on, every further attempt doubles the delay. */
  lemma BackoffDoubles(policy: SimpleRetryPolicy, attempt: int)
    requires attempt >= 2
    ensures policy.Backoff(attempt + 1) == 2.0 * policy.Backoff(attempt)
  {
    var p := Pow2(attempt - 2);
    assert Pow2(attempt - 1) == 2 * p;
    assert policy.baseDelay * (2 * p) as real == 2.0 * (policy.baseDelay * p as real);
  }

  /** The delay is never negative when the base delay is not, and from attempt 2 on it is
      at least the base delay. */
  lemma {:induction false} BackoffNonNegative(policy: SimpleRetryPolicy, attempt: int)
    requires policy.baseDelay >= 0.0
    ensures policy.Backoff(attempt) >= 0.0
    ensures attempt >= 2 ==> policy.Backoff(attempt) >= policy.baseDelay
  {
    if attempt >= 2 {
      var p := Pow2(attempt - 2);
      assert policy.baseDelay * p as real >= policy.baseDelay * 1.0;
    }
  }

  /** With a non-negative base delay, a later attempt never waits less than an earlier one. */
  lemma {:induction false} BackoffMonotone(policy: SimpleRetryPolicy, a: int, b: int)
    requires policy.baseDelay >= 0.0
    requires a <= b
    ensures policy.Backoff(a) <= policy.Backoff(b)
    decreases b - a
  {
    if a < b {
      BackoffMonotone(policy, a, b - 1);
      if b - 1 >= 2 {
        BackoffDoubles(policy, b - 1);
        BackoffNonNegative(policy, b - 1);
      } else {
        BackoffNonNegative(policy, b);
      }
    }
  }
}

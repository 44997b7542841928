/** Compiled skip and retry policies (packages/core/src/policies/). */
module Policies {
  import opened Common
  import opened Environment

  datatype Backoff =
    | NoBackoff
    | FixedBackoff(ms: real)
    | ExponentialBackoff(initialMs: real, factor: real, maxMs: Option<real>)

  /** The list of matchers of a policy, as the one disjunction it is evaluated to. */
  type Matcher = Error -> bool

  datatype SkipConfig = SkipConfig(limit: int, skippable: Matcher)
  datatype RetryConfig = RetryConfig(limit: int, retryable: Matcher, backoff: Backoff)

  /** The compiled policies: closures over their configuration. */
  datatype SkipPolicy = SkipPolicy(limit: int, skippable: Matcher)
  datatype RetryPolicy = RetryPolicy(limit: int, retryable: Matcher, backoffMs: nat -> real)
  datatype PolicySet = PolicySet(skip: Option<SkipPolicy>, retry: Option<RetryPolicy>)

  /** The limit a retry policy is asked about: the configured one, or none. */
  datatype RetryBound = UpTo(limit: int) | Unbounded

  predicate ShouldSkip(policy: SkipPolicy, error: Error, skipCount: int, skipLimit: int) {
    if skipCount >= skipLimit then false else policy.skippable(error)
  }

  predicate CanRetry(policy: RetryPolicy, error: Error, attempt: int, bound: RetryBound) {
    if bound.UpTo? && attempt > bound.limit then false else policy.retryable(error)
  }

  /** The policies' own judgement: skips are granted up to the limit, retries up to and with it, and only to errors in the list. */
  lemma GrantedWithin(skip: SkipPolicy, retry: RetryPolicy, error: Error, n: int, limit: int)
    ensures ShouldSkip(skip, error, n, limit) <==> n < limit && skip.skippable(error)
    ensures CanRetry(retry, error, n, UpTo(limit)) <==> n <= limit && retry.retryable(error)
    ensures CanRetry(retry, error, n, Unbounded) <==> retry.retryable(error)
  {
  }

  function Power(base: real, exponent: nat): real {
    if exponent == 0 then 1.0 else base * Power(base, exponent - 1)
  }

  function MinReal(a: real, b: real): real {
    if a < b then a else b
  }

  function BackoffMs(backoff: Backoff, attempt: nat): real {
    match backoff
    case NoBackoff => 0.0
    case FixedBackoff(ms) => ms
    case ExponentialBackoff(initialMs, factor, maxMs) =>
      var ms := initialMs * Power(factor, Max(0, attempt - 1));
      if maxMs.Some? then MinReal(ms, maxMs.value) else ms
  }

  /** compileSkipPolicy and compileRetryPolicy: a limit that is not positive is rejected. */
  function Compile(skip: Option<SkipConfig>, retry: Option<RetryConfig>): Result<PolicySet, Error> {
    if skip.Some? && skip.value.limit <= 0 then Thrown(InvalidSkipLimit)
    else if retry.Some? && retry.value.limit <= 0 then Thrown(InvalidRetryLimit)
    else Ok(PolicySet(
      match skip { case Some(c) => Some(SkipPolicy(c.limit, c.skippable)) case None => None },
      match retry
      case Some(c) => Some(RetryPolicy(c.limit, c.retryable, (attempt: nat) => BackoffMs(c.backoff, attempt)))
      case None => None))
  }

  /**
   * Compiling fails exactly for a limit that is not positive, the skip policy's first; what is compiled has the
   * limits, the matchers and the backoff of the configuration, and is there exactly if it was configured.
   */
  lemma CompileKeeps(skip: Option<SkipConfig>, retry: Option<RetryConfig>)
    ensures Compile(skip, retry) == Thrown(InvalidSkipLimit) <==> skip.Some? && skip.value.limit <= 0
    ensures Compile(skip, retry) == Thrown(InvalidRetryLimit) <==>
      (skip.Some? ==> skip.value.limit > 0) && retry.Some? && retry.value.limit <= 0
    ensures Compile(skip, retry).Ok? <==> (skip.Some? ==> skip.value.limit > 0) && (retry.Some? ==> retry.value.limit > 0)
    ensures Compile(skip, retry).Ok? ==>
      var policies := Compile(skip, retry).value;
      && policies.skip.Some? == skip.Some? && policies.retry.Some? == retry.Some? && Compiled(policies)
      && (skip.Some? ==> policies.skip.value.limit == skip.value.limit && policies.skip.value.skippable == skip.value.skippable)
      && (retry.Some? ==>
            && policies.retry.value.limit == retry.value.limit && policies.retry.value.retryable == retry.value.retryable
            && Configures(retry.value.backoff, policies.retry.value.backoffMs))
  {
  }

  /** What the compilers guarantee. */
  ghost predicate Compiled(policies: PolicySet) {
    && (policies.skip.Some? ==> policies.skip.value.limit > 0)
    && (policies.retry.Some? ==> policies.retry.value.limit > 0)
  }

  function SkipLimit(policies: PolicySet): int {
    if policies.skip.Some? then policies.skip.value.limit else 0
  }

  function RetryLimit(policies: PolicySet): int {
    if policies.retry.Some? then policies.retry.value.limit else 0
  }

  /** A pause that is not positive is not taken. */
  ghost function Pause(backoffMs: nat -> real, attempt: nat): real {
    if backoffMs(attempt) > 0.0 then backoffMs(attempt) else 0.0
  }

  /** The pauses before attempts 2 .. n + 1. */
  ghost function TotalBackoff(backoffMs: nat -> real, n: nat): real {
    if n == 0 then 0.0 else TotalBackoff(backoffMs, n - 1) + Pause(backoffMs, n)
  }

  /** The pauses of a compiled policy are those of its configuration. */
  ghost predicate Configures(backoff: Backoff, backoffMs: nat -> real) {
    forall attempt: nat :: backoffMs(attempt) == BackoffMs(backoff, attempt)
  }

  /**
   * The pauses: none; always the configured one; or the initial one before the first retry and from then on the
   * factor times the last, each cut at the cap if there is one.
   */
  lemma PausesOf(backoff: Backoff, attempt: nat)
    requires attempt >= 1
    ensures backoff.NoBackoff? ==> BackoffMs(backoff, attempt) == 0.0
    ensures backoff.FixedBackoff? ==> BackoffMs(backoff, attempt) == backoff.ms
    ensures backoff.ExponentialBackoff? ==>
      var uncapped := backoff.(maxMs := None);
      && BackoffMs(uncapped, 1) == backoff.initialMs
      && BackoffMs(uncapped, attempt + 1) == backoff.factor * BackoffMs(uncapped, attempt)
      && (backoff.maxMs.Some? ==>
            BackoffMs(backoff, attempt) == if BackoffMs(uncapped, attempt) < backoff.maxMs.value then BackoffMs(uncapped, attempt) else backoff.maxMs.value)
  {
    if backoff.ExponentialBackoff? {
      assert Power(backoff.factor, 0) == 1.0;
      assert Power(backoff.factor, attempt) == backoff.factor * Power(backoff.factor, attempt - 1);
      Reordered(backoff.initialMs, backoff.factor, Power(backoff.factor, attempt - 1));
    }
  }

  lemma Reordered(a: real, b: real, c: real)
    ensures a * (b * c) == b * (a * c)
  {
    assert a * (b * c) == (a * b) * c == (b * a) * c == b * (a * c);
  }

  /** A fixed backoff sleeps its pause once per retry, or not at all if it is not positive. */
  lemma {:induction false} FixedBackoffSleeps(backoff: Backoff, backoffMs: nat -> real, n: nat)
    requires backoff.FixedBackoff? && Configures(backoff, backoffMs)
    ensures TotalBackoff(backoffMs, n) == if backoff.ms > 0.0 then n as real * backoff.ms else 0.0
  {
    if n > 0 {
      FixedBackoffSleeps(backoff, backoffMs, n - 1);
      Multiples(n, backoff.ms);
    }
  }

  /** An exponential backoff with a cap never sleeps longer than the cap per retry. */
  lemma {:induction false} CappedBackoff(backoff: Backoff, backoffMs: nat -> real, n: nat)
    requires backoff.ExponentialBackoff? && backoff.maxMs.Some? && backoff.maxMs.value >= 0.0
    requires Configures(backoff, backoffMs)
    ensures TotalBackoff(backoffMs, n) <= n as real * backoff.maxMs.value
  {
    forall attempt: nat ensures Pause(backoffMs, attempt) <= backoff.maxMs.value {
      PauseCapped(backoff, backoffMs, attempt);
    }
    SumCapped(backoffMs, n, backoff.maxMs.value);
  }

  lemma {:induction false} SumCapped(backoffMs: nat -> real, n: nat, cap: real)
    requires forall attempt: nat :: Pause(backoffMs, attempt) <= cap
    ensures TotalBackoff(backoffMs, n) <= n as real * cap
  {
    if n > 0 {
      SumCapped(backoffMs, n - 1, cap);
      assert Pause(backoffMs, n) <= cap;
      Multiples(n, cap);
    }
  }

  lemma PauseCapped(backoff: Backoff, backoffMs: nat -> real, attempt: nat)
    requires backoff.ExponentialBackoff? && backoff.maxMs.Some? && backoff.maxMs.value >= 0.0
    requires Configures(backoff, backoffMs)
    ensures Pause(backoffMs, attempt) <= backoff.maxMs.value
  {
    var ms := backoff.initialMs * Power(backoff.factor, Max(0, attempt - 1));
    assert BackoffMs(backoff, attempt) == MinReal(ms, backoff.maxMs.value);
  }

  lemma Multiples(n: nat, x: real)
    requires n > 0
    ensures n as real * x == (n - 1) as real * x + x
  {
    assert n as real == (n - 1) as real + 1.0;
  }

  /** Without a cap the pauses form a geometric progression (initialMs and factor not negative). */
  lemma {:induction false} GeometricBackoff(backoff: Backoff, backoffMs: nat -> real, n: nat)
    requires backoff.ExponentialBackoff? && backoff.maxMs.None? && backoff.initialMs >= 0.0 && backoff.factor >= 0.0
    requires Configures(backoff, backoffMs)
    ensures TotalBackoff(backoffMs, n) * (backoff.factor - 1.0) == backoff.initialMs * (Power(backoff.factor, n) - 1.0)
  {
    hide Pause, Configures, BackoffMs;
    if n > 0 {
      GeometricBackoff(backoff, backoffMs, n - 1);
      PauseGeometric(backoff, backoffMs, n);
      GeometricStep(backoffMs, backoff.initialMs, backoff.factor, n);
    }
  }

  lemma GeometricStep(backoffMs: nat -> real, a: real, f: real, n: nat)
    requires n > 0 && Pause(backoffMs, n) == a * Power(f, n - 1)
    requires TotalBackoff(backoffMs, n - 1) * (f - 1.0) == a * (Power(f, n - 1) - 1.0)
    ensures TotalBackoff(backoffMs, n) * (f - 1.0) == a * (Power(f, n) - 1.0)
  {
    hide Pause;
    assert TotalBackoff(backoffMs, n) == TotalBackoff(backoffMs, n - 1) + a * Power(f, n - 1);
    assert Power(f, n) == f * Power(f, n - 1);
    hide *;
    Distribute(TotalBackoff(backoffMs, n - 1), a, Power(f, n - 1), f);
  }

  lemma PauseGeometric(backoff: Backoff, backoffMs: nat -> real, n: nat)
    requires backoff.ExponentialBackoff? && backoff.maxMs.None? && backoff.initialMs >= 0.0 && backoff.factor >= 0.0
    requires Configures(backoff, backoffMs)
    requires n > 0
    ensures Pause(backoffMs, n) == backoff.initialMs * Power(backoff.factor, n - 1)
  {
    PowerNonNegative(backoff.factor, n - 1);
    assert Max(0, n - 1) == n - 1;
    ProductNonNegative(backoff.initialMs, Power(backoff.factor, n - 1));
    assert BackoffMs(backoff, n) == backoff.initialMs * Power(backoff.factor, n - 1);
  }

  lemma ProductNonNegative(a: real, b: real)
    requires a >= 0.0 && b >= 0.0
    ensures a * b >= 0.0
  {
  }

  lemma Distribute(t: real, a: real, p: real, f: real)
    requires t * (f - 1.0) == a * (p - 1.0)
    ensures (t + a * p) * (f - 1.0) == a * (f * p - 1.0)
  {
    var q := a * p;
    assert (t + q) * (f - 1.0) == t * (f - 1.0) + q * (f - 1.0);
    assert q * (f - 1.0) == a * (f * p) - a * p;
    assert a * (p - 1.0) == a * p - a;
    assert a * (f * p - 1.0) == a * (f * p) - a;
  }

  lemma {:induction false} PowerNonNegative(base: real, exponent: nat)
    requires base >= 0.0
    ensures Power(base, exponent) >= 0.0
  {
    if exponent > 0 {
      PowerNonNegative(base, exponent - 1);
    }
  }
}

/**
 * One read, one process or one write under the skip and retry policies
 * (`runPhase` of packages/core/src/execution/chunk-step-executor.ts).
 */
module PhaseRunner {
  import opened Common
  import opened Environment
  import opened Policies

  datatype Outcome = Done(value: Value) | Skipped | Raised(error: Error)

  /** `skips` is the executor's skip counter after the phase. */
  datatype PhaseResult = PhaseResult(env: Env, skips: nat, outcome: Outcome)

  const RETRY_CAP: nat := 999

  function AttemptCap(policies: PolicySet): nat {
    if policies.retry.Some? then RETRY_CAP else 1
  }

  /** What the policies say about a failed attempt, before any listener has its say. */
  datatype Verdict = Skip | OverBudget | Retry | Exhausted | Rethrow

  function Judge(policies: PolicySet, error: Error, attempt: nat, skips: nat): Verdict {
    if policies.skip.Some? && ShouldSkip(policies.skip.value, error, 0, SkipLimit(policies)) then
      if skips + 1 > SkipLimit(policies) then OverBudget else Skip
    else if policies.retry.None? then Rethrow
    else if CanRetry(policies.retry.value, error, attempt, UpTo(RetryLimit(policies))) then Retry
    else if attempt > RetryLimit(policies) && CanRetry(policies.retry.value, error, 1, Unbounded) then Exhausted
    else Rethrow
  }

  /** The after-listener; a read that returned null has none. */
  function AfterSuccess(env: Env, op: Operation, value: Value): Answer<()> {
    if op.Read? && value.NoValue? then Answer(env, Ok(())) else Listen(env)
  }

  /** One attempt either ends the phase or sends it round again. */
  datatype AttemptResult = Ends(result: PhaseResult) | Again(env: Env)

  function Attempt(policies: PolicySet, op: Operation, env: Env, skips: nat, attempt: nat): (a: AttemptResult)
    ensures a.Again? ==> Follows(env, a.env)
    ensures a.Ends? ==> Follows(env, a.result.env)
    ensures a.Ends? && op.Read? && a.result.outcome.Done? && a.result.outcome.value.ItemValue? ==>
      env.position < a.result.env.position <= |env.source|
  {
    hide Listen, Perform, AfterFailure, Judge;
    ListenKeeps(env);
    var before := Listen(env);
    if before.result.Thrown? then Ends(PhaseResult(before.env, skips, Raised(before.result.error))) else
    PerformMoves(before.env, op);
    var tried := Perform(before.env, op);
    ListenKeeps(tried.env);
    if tried.result.Ok? then
      var after := AfterSuccess(tried.env, op, tried.result.value);
      Ends(PhaseResult(after.env, skips,
                       if after.result.Thrown? then Raised(after.result.error) else Done(tried.result.value)))
    else
      var told := Listen(tried.env);
      if told.result.Thrown? then Ends(PhaseResult(told.env, skips, Raised(told.result.error)))
      else AfterFailure(policies, op, told.env, tried.result.error, skips, attempt)
  }

  function AfterFailure(policies: PolicySet, op: Operation, env: Env, error: Error, skips: nat, attempt: nat): (a: AttemptResult)
    ensures Follows(env, if a.Ends? then a.result.env else a.env)
    ensures a.Ends? ==> !a.result.outcome.Done?
  {
    hide NotifySkip;
    NotifySkipKeeps(env, op);
    match Judge(policies, error, attempt, skips)
    case Skip =>
      var noted := NotifySkip(env, op);
      Ends(PhaseResult(noted.env, skips + 1, if noted.result.Thrown? then Raised(noted.result.error) else Skipped))
    case OverBudget => Ends(PhaseResult(env, skips, Raised(SkipLimitExceeded(SkipLimit(policies)))))
    case Retry => Again(Sleep(env, policies.retry.value.backoffMs(attempt)))
    case Exhausted => Ends(PhaseResult(env, skips, Raised(RetryLimitExceeded(RetryLimit(policies)))))
    case Rethrow => Ends(PhaseResult(env, skips, Raised(error)))
  }

  /** The phase from attempt `attempt` on. */
  function Phase(policies: PolicySet, op: Operation, env: Env, skips: nat, attempt: nat): (r: PhaseResult)
    ensures Follows(env, r.env)
    ensures op.Read? && r.outcome.Done? && r.outcome.value.ItemValue? ==>
      env.position < r.env.position <= |env.source|
    decreases AttemptCap(policies) + 1 - attempt
  {
    hide Attempt;
    if attempt > AttemptCap(policies) then PhaseResult(env, skips, Raised(AttemptsExhausted)) else
    match Attempt(policies, op, env, skips, attempt)
    case Ends(result) => result
    case Again(env') => Phase(policies, op, env', skips, attempt + 1)
  }

  function RunPhase(policies: PolicySet, op: Operation, env: Env, skips: nat): (r: PhaseResult)
    ensures Follows(env, r.env)
    ensures op.Read? && r.outcome.Done? && r.outcome.value.ItemValue? ==>
      env.position < r.env.position <= |env.source|
  {
    Phase(policies, op, env, skips, 1)
  }

  /** The body of the loop, in the order the executor consults listeners and policies. */
  method ExecuteAttempt(policies: PolicySet, op: Operation, env: Env, skips: nat, attempt: nat) returns (a: AttemptResult)
    ensures a == Attempt(policies, op, env, skips, attempt)
  {
    hide Listen, Perform, NotifySkip, ShouldSkip, CanRetry;
    var before := Listen(env);
    if before.result.Thrown? {
      return Ends(PhaseResult(before.env, skips, Raised(before.result.error)));
    }
    var tried := Perform(before.env, op);
    if tried.result.Ok? {
      var after := AfterSuccess(tried.env, op, tried.result.value);
      if after.result.Thrown? {
        return Ends(PhaseResult(after.env, skips, Raised(after.result.error)));
      }
      return Ends(PhaseResult(after.env, skips, Done(tried.result.value)));
    }
    var error := tried.result.error;
    var told := Listen(tried.env);
    if told.result.Thrown? {
      return Ends(PhaseResult(told.env, skips, Raised(told.result.error)));
    }
    // 1) Skip: membership first, then the budget with the live counter.
    if policies.skip.Some? && ShouldSkip(policies.skip.value, error, 0, SkipLimit(policies)) {
      var projected := skips + 1;
      if projected > SkipLimit(policies) {
        return Ends(PhaseResult(told.env, skips, Raised(SkipLimitExceeded(SkipLimit(policies)))));
      }
      var noted := NotifySkip(told.env, op);
      if noted.result.Thrown? {
        return Ends(PhaseResult(noted.env, projected, Raised(noted.result.error)));
      }
      return Ends(PhaseResult(noted.env, projected, Skipped));
    }
    // 2) Retry, telling an exhausted budget from an error that is not retryable at all.
    if policies.retry.Some? {
      if CanRetry(policies.retry.value, error, attempt, UpTo(RetryLimit(policies))) {
        return Again(Sleep(told.env, policies.retry.value.backoffMs(attempt)));
      }
      if attempt > RetryLimit(policies) && CanRetry(policies.retry.value, error, 1, Unbounded) {
        return Ends(PhaseResult(told.env, skips, Raised(RetryLimitExceeded(RetryLimit(policies)))));
      }
    }
    // 3) Neither.
    return Ends(PhaseResult(told.env, skips, Raised(error)));
  }

  method ExecutePhase(policies: PolicySet, op: Operation, env0: Env, skips: nat) returns (r: PhaseResult)
    ensures r == RunPhase(policies, op, env0, skips)
  {
    hide Attempt;
    var attempt := 1;
    var env := env0;
    var outerCap := if policies.retry.Some? then RETRY_CAP else 1;
    while attempt <= outerCap
      invariant attempt >= 1
      invariant Phase(policies, op, env, skips, attempt) == RunPhase(policies, op, env0, skips)
    {
      var a := ExecuteAttempt(policies, op, env, skips, attempt);
      if a.Ends? {
        return a.result;
      }
      env := a.env;
      attempt := attempt + 1;
    }
    return PhaseResult(env, skips, Raised(AttemptsExhausted));
  }

  // ---------------------------------------------------------------- what a phase means

  /** The errors the operation threw during a phase that went from `env` to `env'`. */
  ghost function NewErrors(env: Env, env': Env): seq<Error>
    requires |env.trace.errors| <= |env'.trace.errors|
  {
    env'.trace.errors[|env.trace.errors|..]
  }

  /** The configuration's own words: an error is in the skip policy's list, in the retry policy's list. */
  ghost predicate SkipsError(policies: PolicySet, error: Error) {
    policies.skip.Some? && policies.skip.value.skippable(error)
  }

  ghost predicate RetriesError(policies: PolicySet, error: Error) {
    policies.retry.Some? && policies.retry.value.retryable(error)
  }

  /** An error that is tried again: not to be skipped, retryable, and within the limit. */
  ghost predicate RetriedAt(policies: PolicySet, error: Error, attempt: nat) {
    !SkipsError(policies, error) && RetriesError(policies, error) && attempt <= policies.retry.value.limit
  }

  /** The errors of the attempts from `attempt` on, all tried again. */
  ghost predicate Retried(policies: PolicySet, errors: seq<Error>, attempt: nat) {
    forall i :: 0 <= i < |errors| ==> RetriedAt(policies, errors[i], attempt + i)
  }

  /**
   * What is raised for an error that is not tried again, at a given attempt: the skip limit if the error may be
   * skipped but the counter has reached it; the error itself if it is in neither list; the retry limit if it is
   * retryable and the limit is behind.  The loop gives up after 999 attempts, whatever the limit.
   */
  ghost predicate Blames(policies: PolicySet, last: Error, attempt: nat, skips: nat, error: Error) {
    if SkipsError(policies, last) then skips >= policies.skip.value.limit && error == SkipLimitExceeded(policies.skip.value.limit)
    else if !RetriesError(policies, last) then error == last
    else if attempt > policies.retry.value.limit then error == RetryLimitExceeded(policies.retry.value.limit)
    else attempt >= 999 && error == AttemptsExhausted
  }

  /** What a phase comes to, from the errors its operation threw at the attempts from `attempt` on, if no listener fails. */
  ghost predicate Explains(policies: PolicySet, errors: seq<Error>, attempt: nat, skips: nat, r: PhaseResult) {
    var n := |errors|;
    match r.outcome
    case Done(_) => r.skips == skips && Retried(policies, errors, attempt)
    case Skipped =>
      && n > 0 && Retried(policies, errors[..n - 1], attempt) && SkipsError(policies, errors[n - 1])
      && r.skips == skips + 1 <= policies.skip.value.limit
    case Raised(error) =>
      && r.skips == skips
      && if n == 0 then error == AttemptsExhausted && attempt > (if policies.retry.Some? then 999 else 1)
         else Retried(policies, errors[..n - 1], attempt) && Blames(policies, errors[n - 1], attempt + n - 1, skips, error)
  }

  /** The pauses taken: one after each error but the last, and after that one too if it was to be tried again. */
  ghost function Retries(policies: PolicySet, errors: seq<Error>, attempt: nat): nat {
    var n := |errors|;
    if n == 0 then 0 else if RetriedAt(policies, errors[n - 1], attempt + n - 1) then n else n - 1
  }

  ghost function Pauses(policies: PolicySet, n: nat): real {
    if policies.retry.Some? then TotalBackoff(policies.retry.value.backoffMs, n) else 0.0
  }

  /** The listeners of a phase with n errors: one before each attempt, one on each error, one on a skip, one after a success. */
  ghost function Tellings(n: nat, r: PhaseResult, op: Operation): nat {
    2 * n + match r.outcome
            case Done(value) => if op.Read? && value.NoValue? then 1 else 2
            case Skipped => 1
            case Raised(_) => 0
  }

  /** The calls made and the listeners told by a phase in which no listener fails. */
  ghost predicate Spends(op: Operation, before: Trace, after: Trace, n: nat, r: PhaseResult) {
    && after.calls == before.calls + n + (if r.outcome.Done? then 1 else 0)
    && after.contacts.told == before.contacts.told + Tellings(n, r, op)
    && after.contacts.nulls == before.contacts.nulls + (if op.Read? && r.outcome == Done(NoValue) then 1 else 0)
    && after.thrown == before.thrown && SameService(before, after)
  }

  ghost predicate SameService(before: Trace, after: Trace) {
    && after.contacts.served == before.contacts.served && after.contacts.openings == before.contacts.openings
    && after.contacts.closings == before.contacts.closings && after.contacts.stuck == before.contacts.stuck
  }

  /** A listener that fails ends the phase with its error. */
  ghost predicate Interrupted(before: Trace, after: Trace, r: PhaseResult) {
    && after.listenerFailures == before.listenerFailures + 1 && SameService(before, after)
    && r.outcome.Raised? && after.thrown == before.thrown + [r.outcome.error]
  }

  /** Everything about a phase from attempt `attempt` on. */
  ghost predicate Explained(policies: PolicySet, op: Operation, env: Env, skips: nat, attempt: nat, r: PhaseResult)
    requires attempt >= 1
  {
    && |env.trace.errors| <= |r.env.trace.errors|
    && r.env.trace.errors == env.trace.errors + NewErrors(env, r.env)
    && var errors := NewErrors(env, r.env);
       && (errors != [] ==> Retried(policies, errors[..|errors| - 1], attempt))
       && if r.env.trace.listenerFailures == env.trace.listenerFailures then
            && Explains(policies, errors, attempt, skips, r) && Spends(op, env.trace, r.env.trace, |errors|, r)
            && r.env.trace.slept - env.trace.slept
               == Pauses(policies, attempt - 1 + Retries(policies, errors, attempt)) - Pauses(policies, attempt - 1)
          else Interrupted(env.trace, r.env.trace, r)
  }

  /** One attempt that is followed by another. */
  ghost predicate TriedAgain(policies: PolicySet, env: Env, attempt: nat, env': Env) {
    && |env'.trace.errors| == |env.trace.errors| + 1
    && env'.trace.errors == env.trace.errors + [env'.trace.errors[|env.trace.errors|]]
    && RetriedAt(policies, env'.trace.errors[|env.trace.errors|], attempt)
    && env'.trace.listenerFailures == env.trace.listenerFailures && env'.trace.thrown == env.trace.thrown
    && SameService(env.trace, env'.trace) && env'.trace.contacts.nulls == env.trace.contacts.nulls
    && env'.trace.calls == env.trace.calls + 1 && env'.trace.contacts.told == env.trace.contacts.told + 2
    && env'.trace.slept == env.trace.slept + Pause(policies.retry.value.backoffMs, attempt)
  }

  /** What the calls of one attempt leave behind. */
  lemma AttemptCalls(env: Env, op: Operation)
    ensures var tried := Perform(Listen(env).env, op);
      && Listen(env).env == Heard(env, ErrorOf(Listen(env).result))
      && tried.env.context == env.context && (!op.Read? ==> tried.env.position == env.position)
      && tried.env.trace.calls == env.trace.calls + 1
      && tried.env.trace.slept == env.trace.slept && tried.env.trace.listenerFailures == Listen(env).env.trace.listenerFailures
      && tried.env.trace.errors == (if tried.result.Thrown? then env.trace.errors + [tried.result.error] else env.trace.errors)
      && tried.env.tally == (if tried.result.Ok? then Succeeded(env.tally, op, tried.result.value) else env.tally)
      && tried.env.log == (if tried.result.Ok? && op.Write? then env.log + [Wrote(op.chunk, op.items, op.outputs)] else env.log)
      && (tried.result.Ok? ==> FitsOperation(op, tried.result.value))
      && Listen(tried.env).env == Heard(tried.env, ErrorOf(Listen(tried.env).result))
      && var noted := NotifySkip(Listen(tried.env).env, op);
         noted.env == Heard(Listen(tried.env).env.(tally := SkipNoted(tried.env.tally, op)), ErrorOf(noted.result))
  {
    hide Listen, Perform, NotifySkip, Succeeded, SkipNoted, FitsOperation, ErrorOf;
    ListenKeeps(env);
    PerformKeeps(Listen(env).env, op);
    PerformMoves(Listen(env).env, op);
    var tried := Perform(Listen(env).env, op);
    ListenKeeps(tried.env);
    NotifySkipKeeps(Listen(tried.env).env, op);
  }

  /** What the policies make of an error, in the configuration's words. */
  lemma JudgeMeans(policies: PolicySet, error: Error, attempt: nat, skips: nat)
    requires Compiled(policies) && attempt >= 1
    ensures match Judge(policies, error, attempt, skips)
            case Skip => SkipsError(policies, error) && skips + 1 <= policies.skip.value.limit
            case OverBudget => SkipsError(policies, error) && skips >= policies.skip.value.limit
            case Retry => !SkipsError(policies, error) && RetriesError(policies, error) && attempt <= policies.retry.value.limit
            case Exhausted => !SkipsError(policies, error) && RetriesError(policies, error) && attempt > policies.retry.value.limit
            case Rethrow => !SkipsError(policies, error) && !RetriesError(policies, error)
  {
  }

  lemma NoErrors(env: Env, r: PhaseResult)
    requires r.env.trace.errors == env.trace.errors
    ensures NewErrors(env, r.env) == [] && env.trace.errors == env.trace.errors + []
  {
  }

  lemma OneError(policies: PolicySet, env: Env, env': Env, error: Error, attempt: nat)
    requires env'.trace.errors == env.trace.errors + [error]
    ensures NewErrors(env, env') == [error] && Retried(policies, [error][..0], attempt)
    ensures env'.trace.errors[|env.trace.errors|] == error
  {
  }

  /** An attempt whose before-listener fails, or whose operation succeeds. */
  lemma SuccessExplained(policies: PolicySet, op: Operation, env: Env, skips: nat, attempt: nat)
    requires attempt >= 1 && (Listen(env).result.Thrown? || Perform(Listen(env).env, op).result.Ok?)
    ensures Attempt(policies, op, env, skips, attempt).Ends?
    ensures Explained(policies, op, env, skips, attempt, Attempt(policies, op, env, skips, attempt).result)
  {
    AttemptCalls(env, op);
    PerformNotes(Listen(env).env, op);
    hide Listen, Perform, Succeeded, AfterFailure, Retried, FitsOperation;
    NoErrors(env, Attempt(policies, op, env, skips, attempt).result);
    NothingRetried(policies, attempt);
  }

  /** The operation has thrown and the error listener has been told. */
  ghost predicate Failed(env: Env, told: Env, error: Error) {
    && told.trace.errors == env.trace.errors + [error] && told.trace.calls == env.trace.calls + 1
    && told.trace.contacts.told == env.trace.contacts.told + 2 && told.trace.contacts.nulls == env.trace.contacts.nulls
    && told.trace.slept == env.trace.slept && SameService(env.trace, told.trace)
  }

  lemma ErrorTold(env: Env, op: Operation)
    requires Listen(env).result.Ok? && Perform(Listen(env).env, op).result.Thrown?
    ensures var tried := Perform(Listen(env).env, op);
      var told := Listen(tried.env);
      && Failed(env, told.env, tried.result.error)
      && (told.result.Ok? ==> told.env.trace.listenerFailures == env.trace.listenerFailures && told.env.trace.thrown == env.trace.thrown)
      && (told.result.Thrown? ==> told.env.trace.listenerFailures == env.trace.listenerFailures + 1
                                  && told.env.trace.thrown == env.trace.thrown + [told.result.error])
  {
    AttemptCalls(env, op);
    PerformNotes(Listen(env).env, op);
    hide Listen, Perform, NotifySkip, Succeeded, SkipNoted, FitsOperation;
  }

  /** What the error listener or the policies end the phase with. */
  lemma ErrorEnds(policies: PolicySet, op: Operation, env: Env, told: Env, error: Error, skips: nat, attempt: nat, r: PhaseResult)
    requires Failed(env, told, error) && attempt >= 1 && r.env.trace == told.trace && r.skips == skips && r.outcome.Raised?
    requires if told.trace.listenerFailures == env.trace.listenerFailures
             then told.trace.thrown == env.trace.thrown && !RetriedAt(policies, error, attempt)
                  && Blames(policies, error, attempt, skips, r.outcome.error)
             else told.trace.listenerFailures == env.trace.listenerFailures + 1
                  && told.trace.thrown == env.trace.thrown + [r.outcome.error]
    ensures Explained(policies, op, env, skips, attempt, r)
  {
    OneError(policies, env, r.env, error, attempt);
    hide Retried, RetriedAt, Blames;
  }

  /** A skip: its listener is told, and may fail. */
  lemma SkipEnds(policies: PolicySet, op: Operation, env: Env, told: Env, error: Error, skips: nat, attempt: nat, r: PhaseResult)
    requires Failed(env, told, error) && attempt >= 1
    requires told.trace.listenerFailures == env.trace.listenerFailures && told.trace.thrown == env.trace.thrown
    requires SkipsError(policies, error) && skips + 1 <= policies.skip.value.limit
    requires var noted := NotifySkip(told, op);
      r == PhaseResult(noted.env, skips + 1, if noted.result.Thrown? then Raised(noted.result.error) else Skipped)
    ensures Explained(policies, op, env, skips, attempt, r)
  {
    NotifySkipKeeps(told, op);
    hide NotifySkip, SkipNoted, Retried;
    OneError(policies, env, r.env, error, attempt);
  }

  lemma FailureExplained(policies: PolicySet, op: Operation, env: Env, skips: nat, attempt: nat)
    requires Compiled(policies) && attempt >= 1 && Listen(env).result.Ok? && Perform(Listen(env).env, op).result.Thrown?
    ensures match Attempt(policies, op, env, skips, attempt)
            case Ends(r) => Explained(policies, op, env, skips, attempt, r)
            case Again(env') => TriedAgain(policies, env, attempt, env')
  {
    ErrorTold(env, op);
    var error := Perform(Listen(env).env, op).result.error;
    var told := Listen(Perform(Listen(env).env, op).env);
    JudgeMeans(policies, error, attempt, skips);
    hide Listen, Perform, NotifySkip, Judge, Explained, Failed, Compiled, SkipsError, RetriesError;
    if told.result.Thrown? {
      ErrorEnds(policies, op, env, told.env, error, skips, attempt, Attempt(policies, op, env, skips, attempt).result);
    } else {
      match Judge(policies, error, attempt, skips)
      case Retry => AgainAfter(policies, env, told.env, error, attempt);
      case Skip => SkipEnds(policies, op, env, told.env, error, skips, attempt, Attempt(policies, op, env, skips, attempt).result);
      case _ => ErrorEnds(policies, op, env, told.env, error, skips, attempt, Attempt(policies, op, env, skips, attempt).result);
    }
  }

  lemma AgainAfter(policies: PolicySet, env: Env, told: Env, error: Error, attempt: nat)
    requires Failed(env, told, error) && RetriedAt(policies, error, attempt)
    requires told.trace.listenerFailures == env.trace.listenerFailures && told.trace.thrown == env.trace.thrown
    ensures TriedAgain(policies, env, attempt, Sleep(told, policies.retry.value.backoffMs(attempt)))
  {
    hide RetriedAt;
    OneError(policies, env, told, error, attempt);
  }

  /** One attempt: at most one error, explained on the spot or to be retried. */
  lemma AttemptExplained(policies: PolicySet, op: Operation, env: Env, skips: nat, attempt: nat)
    requires Compiled(policies) && attempt >= 1
    ensures match Attempt(policies, op, env, skips, attempt)
            case Ends(r) => Explained(policies, op, env, skips, attempt, r)
            case Again(env') => TriedAgain(policies, env, attempt, env')
  {
    if Listen(env).result.Thrown? || Perform(Listen(env).env, op).result.Ok? {
      SuccessExplained(policies, op, env, skips, attempt);
    } else {
      FailureExplained(policies, op, env, skips, attempt);
    }
    hide *;
  }

  /**
   * Every phase is explained by the errors its operation threw: each but the last was not to be skipped,
   * retryable and within the limit, and the last decides.  So do the calls made, the listeners told and the time
   * slept; and a listener that fails ends the phase with its error.
   */
  lemma {:induction false} PhaseExplained(policies: PolicySet, op: Operation, env: Env, skips: nat, attempt: nat)
    requires Compiled(policies) && attempt >= 1
    ensures Explained(policies, op, env, skips, attempt, Phase(policies, op, env, skips, attempt))
    decreases AttemptCap(policies) + 1 - attempt
  {
    hide Attempt, Explained, TriedAgain, Compiled;
    if attempt > AttemptCap(policies) {
      GivenUp(policies, op, env, skips, attempt);
    } else {
      AttemptExplained(policies, op, env, skips, attempt);
      match Attempt(policies, op, env, skips, attempt)
      case Ends(r) =>
      case Again(env') =>
        PhaseExplained(policies, op, env', skips, attempt + 1);
        ErrorBefore(policies, op, env, env', attempt, skips, Phase(policies, op, env', skips, attempt + 1));
    }
  }

  lemma GivenUp(policies: PolicySet, op: Operation, env: Env, skips: nat, attempt: nat)
    requires attempt > AttemptCap(policies) && attempt >= 1
    ensures Explained(policies, op, env, skips, attempt, PhaseResult(env, skips, Raised(AttemptsExhausted)))
  {
    hide Pauses;
    assert env.trace.errors == env.trace.errors + [];
  }

  /** An error that was retried goes in front of what the later attempts come to. */
  lemma ErrorBefore(policies: PolicySet, op: Operation, env: Env, env': Env, attempt: nat, skips: nat, r: PhaseResult)
    requires attempt >= 1 && TriedAgain(policies, env, attempt, env') && Explained(policies, op, env', skips, attempt + 1, r)
    ensures Explained(policies, op, env, skips, attempt, r)
  {
    var error := env'.trace.errors[|env.trace.errors|];
    var (rest, all) := (NewErrors(env', r.env), NewErrors(env, r.env));
    assert all == [error] + rest;
    assert rest != [] ==> all[..|all| - 1] == [error] + rest[..|rest| - 1];
    assert rest == [] ==> all[..|all| - 1] == [];
    RetriedBefore(policies, error, rest, attempt);
    if rest != [] { RetriedBefore(policies, error, rest[..|rest| - 1], attempt); }
    NothingRetried(policies, attempt);
    PausesFollow(policies, rest, error, attempt);
    hide SkipsError, RetriesError, Retried, RetriedAt, Blames, Pauses, Retries;
  }

  /** The pause after the first error and the pauses after the others. */
  lemma PausesFollow(policies: PolicySet, rest: seq<Error>, error: Error, attempt: nat)
    requires attempt >= 1 && RetriedAt(policies, error, attempt)
    ensures attempt - 1 + Retries(policies, [error] + rest, attempt) == attempt + Retries(policies, rest, attempt + 1)
    ensures Pauses(policies, attempt) == Pauses(policies, attempt - 1) + Pause(policies.retry.value.backoffMs, attempt)
  {
    hide RetriedAt, Pause;
    var all := [error] + rest;
    assert rest != [] ==> all[|all| - 1] == rest[|rest| - 1];
    assert policies.retry.Some? by { RetriedHasPolicy(policies, error, attempt); }
  }

  lemma RetriedHasPolicy(policies: PolicySet, error: Error, attempt: nat)
    requires RetriedAt(policies, error, attempt)
    ensures policies.retry.Some?
  {
  }

  lemma NothingRetried(policies: PolicySet, attempt: nat)
    ensures Retried(policies, [], attempt)
  {
  }

  lemma RetriedBefore(policies: PolicySet, error: Error, errors: seq<Error>, attempt: nat)
    requires RetriedAt(policies, error, attempt)
    ensures Retried(policies, errors, attempt + 1) ==> Retried(policies, [error] + errors, attempt)
  {
    hide RetriedAt;
    if Retried(policies, errors, attempt + 1) {
      var all := [error] + errors;
      forall i | 0 <= i < |all| ensures RetriedAt(policies, all[i], attempt + i) {
        if i > 0 { assert all[i] == errors[i - 1] && RetriedAt(policies, errors[i - 1], attempt + 1 + (i - 1)); }
      }
    }
  }

  /**
   * The retry budget is spent exactly by limit + 1 errors that are retryable and not to be skipped: if no listener
   * fails a phase ends with such an error if and only if it is the (limit + 1)-th, and then raises the retry limit -
   * or, with a limit of 999 or more, gives up after 999 attempts.  Nothing is retried without a retry policy.
   */
  lemma BudgetSpentIff(policies: PolicySet, op: Operation, env: Env, skips: nat)
    requires Compiled(policies)
    ensures |env.trace.errors| <= |RunPhase(policies, op, env, skips).env.trace.errors|
    ensures var r := RunPhase(policies, op, env, skips);
      var errors := NewErrors(env, r.env);
      var n := |errors|;
      r.env.trace.listenerFailures == env.trace.listenerFailures ==>
        && (policies.retry.None? ==> n <= 1 && (r.outcome.Done? ==> n == 0))
        && (n > 0 && !SkipsError(policies, errors[n - 1]) && RetriesError(policies, errors[n - 1]) ==>
              && (!r.outcome.Done? <==> n == Min(policies.retry.value.limit + 1, 999))
              && (!r.outcome.Done? ==>
                    r.outcome == Raised(if policies.retry.value.limit < 999 then RetryLimitExceeded(policies.retry.value.limit) else AttemptsExhausted)))
  {
    PhaseExplained(policies, op, env, skips, 1);
    PhaseBounded(policies, op, env, skips, 1);
    var errors := NewErrors(env, RunPhase(policies, op, env, skips).env);
    hide Phase, RunPhase, Interrupted, NewErrors, SkipsError, RetriesError, Pauses, TotalBackoff, Retries, SameService, Tellings;
    if |errors| > 1 { assert errors[..|errors| - 1][0] == errors[0]; }
    if |errors| > 0 && Retried(policies, errors, 1) { assert RetriedAt(policies, errors[|errors| - 1], 1 + |errors| - 1); }
    if |errors| > 1 && Retried(policies, errors[..|errors| - 1], 1) {
      assert RetriedAt(policies, errors[..|errors| - 1][|errors| - 2], 1 + |errors| - 2);
    }
  }

  /**
   * The operation is invoked at most once without a retry policy and at most min(limit + 1, 999)
   * times with one, and the time slept is at most the pauses of min(limit, 999) retries.
   */
  lemma {:induction false} PhaseBounded(policies: PolicySet, op: Operation, env: Env, skips: nat, attempt: nat)
    requires Compiled(policies)
    requires 1 <= attempt <= (if policies.retry.Some? then Min(RetryLimit(policies) + 1, RETRY_CAP + 1) else 1)
    ensures var r := Phase(policies, op, env, skips, attempt);
            policies.retry.None? ==>
              && r.env.trace.calls <= env.trace.calls + 1
              && r.env.trace.slept == env.trace.slept
    ensures var r := Phase(policies, op, env, skips, attempt);
            policies.retry.Some? ==>
              var b := policies.retry.value.backoffMs;
              && r.env.trace.calls <= env.trace.calls + Min(RetryLimit(policies) + 1, RETRY_CAP) + 1 - attempt
              && env.trace.slept <= r.env.trace.slept
              && r.env.trace.slept - env.trace.slept
                 <= TotalBackoff(b, Min(RetryLimit(policies), RETRY_CAP)) - TotalBackoff(b, attempt - 1)
    decreases AttemptCap(policies) + 1 - attempt
  {
    hide Attempt;
    if policies.retry.Some? {
      TotalBackoffMonotone(policies.retry.value.backoffMs, attempt - 1, Min(RetryLimit(policies), RETRY_CAP));
    }
    if attempt <= AttemptCap(policies) {
      AttemptCost(policies, op, env, skips, attempt);
      match Attempt(policies, op, env, skips, attempt)
      case Ends(r) =>
      case Again(env') => PhaseBounded(policies, op, env', skips, attempt + 1);
    }
  }

  lemma AttemptCost(policies: PolicySet, op: Operation, env: Env, skips: nat, attempt: nat)
    requires 1 <= attempt <= AttemptCap(policies)
    ensures match Attempt(policies, op, env, skips, attempt)
            case Ends(r) =>
              r.env.trace.calls <= env.trace.calls + 1 && r.env.trace.slept == env.trace.slept
            case Again(env') =>
              && policies.retry.Some? && attempt <= RetryLimit(policies)
              && env'.trace.calls <= env.trace.calls + 1
              && env'.trace.slept == env.trace.slept + Pause(policies.retry.value.backoffMs, attempt)
  {
    hide Listen, Perform, NotifySkip, ShouldSkip, Succeeded, SkipNoted;
    AttemptCalls(env, op);
  }

  lemma {:induction false} TotalBackoffMonotone(backoffMs: nat -> real, m: nat, n: nat)
    requires m <= n
    ensures TotalBackoff(backoffMs, m) <= TotalBackoff(backoffMs, n)
  {
    if m < n {
      TotalBackoffMonotone(backoffMs, m, n - 1);
    }
  }

  /** Both bounds for a whole phase. */
  lemma PhaseCost(policies: PolicySet, op: Operation, env: Env, skips: nat)
    requires Compiled(policies)
    ensures var t := RunPhase(policies, op, env, skips).env.trace;
            && (policies.retry.None? ==> t.calls <= env.trace.calls + 1 && t.slept == env.trace.slept)
            && (policies.retry.Some? ==>
                && t.calls <= env.trace.calls + Min(RetryLimit(policies) + 1, RETRY_CAP)
                && t.slept <= env.trace.slept
                              + TotalBackoff(policies.retry.value.backoffMs, Min(RetryLimit(policies), RETRY_CAP)))
  {
    PhaseBounded(policies, op, env, skips, 1);
  }

  /** With a capped exponential backoff a phase sleeps at most min(limit, 999) caps. */
  lemma PhaseSleepCapped(policies: PolicySet, backoff: Backoff, op: Operation, env: Env, skips: nat)
    requires Compiled(policies) && policies.retry.Some? && Configures(backoff, policies.retry.value.backoffMs)
    requires backoff.ExponentialBackoff? && backoff.maxMs.Some? && backoff.maxMs.value >= 0.0
    ensures RunPhase(policies, op, env, skips).env.trace.slept
            <= env.trace.slept + Min(RetryLimit(policies), RETRY_CAP) as real * backoff.maxMs.value
  {
    hide RunPhase, BackoffMs;
    PhaseCost(policies, op, env, skips);
    CappedBackoff(backoff, policies.retry.value.backoffMs, Min(RetryLimit(policies), RETRY_CAP));
  }

  /**
   * The books after a phase: a success adds itself, an honoured skip adds itself and stays within the
   * limit, everything else adds nothing - also when a listener then throws.
   */
  ghost predicate Booked(policies: PolicySet, op: Operation, env: Env, skips: nat, r: PhaseResult) {
    match r.outcome
    case Done(value) => r.skips == skips && r.env.tally == Succeeded(env.tally, op, value) && FitsOperation(op, value)
    case Skipped => r.skips == skips + 1 <= SkipLimit(policies) && r.env.tally == SkipNoted(env.tally, op)
    case Raised(_) =>
      || (r.skips == skips && r.env.tally == env.tally)
      || (r.skips == skips + 1 <= SkipLimit(policies) && r.env.tally == SkipNoted(env.tally, op))
      || (r.skips == skips && exists value :: FitsOperation(op, value) && r.env.tally == Succeeded(env.tally, op, value))
  }

  lemma {:induction false} PhaseBooked(policies: PolicySet, op: Operation, env: Env, skips: nat, attempt: nat)
    ensures Booked(policies, op, env, skips, Phase(policies, op, env, skips, attempt))
    ensures Phase(policies, op, env, skips, attempt).env.context == env.context
    decreases AttemptCap(policies) + 1 - attempt
  {
    hide Attempt;
    if attempt <= AttemptCap(policies) {
      AttemptBooked(policies, op, env, skips, attempt);
      match Attempt(policies, op, env, skips, attempt)
      case Ends(r) =>
      case Again(env') => PhaseBooked(policies, op, env', skips, attempt + 1);
    }
  }

  lemma AttemptBooked(policies: PolicySet, op: Operation, env: Env, skips: nat, attempt: nat)
    ensures match Attempt(policies, op, env, skips, attempt)
            case Ends(r) => Booked(policies, op, env, skips, r) && r.env.context == env.context
            case Again(env') => env'.tally == env.tally && env'.context == env.context
  {
    hide Listen, Perform, NotifySkip, ShouldSkip, CanRetry, Succeeded, SkipNoted, FitsOperation;
    AttemptCalls(env, op);
  }

  /** A committed write enters the log once; a write that never succeeded leaves no entry. */
  lemma {:induction false} PhaseLogged(policies: PolicySet, op: Operation, env: Env, skips: nat, attempt: nat)
    ensures Logged(op, env, Phase(policies, op, env, skips, attempt))
    decreases AttemptCap(policies) + 1 - attempt
  {
    hide Attempt;
    if attempt <= AttemptCap(policies) {
      AttemptLogged(policies, op, env, skips, attempt);
      match Attempt(policies, op, env, skips, attempt)
      case Ends(r) =>
      case Again(env') => PhaseLogged(policies, op, env', skips, attempt + 1);
    }
  }

  ghost predicate Logged(op: Operation, env: Env, r: PhaseResult) {
    var entry := if op.Write? then env.log + [Wrote(op.chunk, op.items, op.outputs)] else env.log;
    && (!op.Read? ==> r.env.position == env.position)
    && match r.outcome
       case Done(_) => r.env.log == entry
       case Skipped => r.env.log == env.log
       case Raised(_) => r.env.log == env.log || r.env.log == entry
  }

  lemma AttemptLogged(policies: PolicySet, op: Operation, env: Env, skips: nat, attempt: nat)
    ensures match Attempt(policies, op, env, skips, attempt)
            case Ends(r) => Logged(op, env, r)
            case Again(env') => env'.log == env.log && (!op.Read? ==> env'.position == env.position)
  {
    hide Listen, Perform, NotifySkip, Judge, Succeeded, SkipNoted, FitsOperation;
    AttemptCalls(env, op);
  }

  /** Books, log and context row after a whole phase. */
  lemma PhaseFacts(policies: PolicySet, op: Operation, env: Env, skips: nat)
    ensures var r := RunPhase(policies, op, env, skips);
            Booked(policies, op, env, skips, r) && Logged(op, env, r) && r.env.context == env.context
  {
    PhaseBooked(policies, op, env, skips, 1);
    PhaseLogged(policies, op, env, skips, 1);
  }
}

/** The retry discipline shared by `extract_with_claude` and `check_coverage`:
    `for attempt in range(retry_attempts + 1)`, return on the first attempt that
    yields a value, otherwise remember the error, sleep `2 ** attempt` unless
    this was the last attempt, and finally raise with the last error.

    An attempt is described by the injected function `attempt`, from the
    attempt index to a value or the error message the loop records. */
module RetryPolicy {

  import opened Common
  import opened Llm

  /** `2 ** n` */
  function Pow2(n: nat): (r: nat)
    ensures r >= 1
  {
    if n == 0 then 1 else 2 * Pow2(n - 1)
  }

  /** How many times `range(retry_attempts + 1)` runs the body. */
  function Attempts(retryAttempts: int): (n: nat)
    ensures retryAttempts >= 0 ==> n == retryAttempts + 1
    ensures retryAttempts < 0 ==> n == 0
  {
    if retryAttempts >= 0 then retryAttempts + 1 else 0
  }

  /** The delays 1, 2, 4, ... of the first `n` sleeps. */
  function Backoff(n: nat): (r: seq<nat>)
    ensures |r| == n
    ensures forall k :: 0 <= k < n ==> r[k] == Pow2(k)
  {
    seq(n, k requires 0 <= k < n => Pow2(k))
  }

  /** What a run of the loop produces: the returned value or the raised error,
      how many attempts were made (LLM calls issued), and the delays slept. */
  datatype Run<T> = Run(result: Result<T, LlmError>, attempts: nat, sleeps: seq<nat>)

  /** The loop from attempt index `i` on, `lastError` being the error recorded
      so far. */
  function RetryFrom<T>(attempt: nat -> Result<T, string>, retryAttempts: int,
                        i: nat, lastError: Option<string>): Run<T>
    decreases retryAttempts + 1 - i
  {
    if i > retryAttempts then
      Run(Err(Exhausted(retryAttempts + 1, lastError)), i, [])
    else
      match attempt(i)
      case Ok(v) => Run(Ok(v), i + 1, [])
      case Err(e) =>
        var rest := RetryFrom(attempt, retryAttempts, i + 1, Some(e));
        Run(rest.result, rest.attempts, (if i < retryAttempts then [Pow2(i)] else []) + rest.sleeps)
  }

  /** An attempt that yields a value ends the loop there, without a sleep. */
  lemma RetryStepSucceeded<T>(attempt: nat -> Result<T, string>, retryAttempts: int,
                              i: nat, lastError: Option<string>, v: T)
    requires i <= retryAttempts && attempt(i) == Ok(v)
    ensures RetryFrom(attempt, retryAttempts, i, lastError) == Run(Ok(v), i + 1, [])
  {
  }

  /** A failed attempt is recorded as the last error and followed by a sleep
      of `2 ** i` unless it was the last one; the loop then goes on. Written
      for a loop that has already slept `sleeps`. */
  lemma RetryStepFailed<T>(attempt: nat -> Result<T, string>, retryAttempts: int,
                           i: nat, lastError: Option<string>, sleeps: seq<nat>, e: string)
    requires i <= retryAttempts && attempt(i) == Err(e)
    ensures var now := RetryFrom(attempt, retryAttempts, i, lastError);
            var next := RetryFrom(attempt, retryAttempts, i + 1, Some(e));
            && now.result == next.result && now.attempts == next.attempts
            && sleeps + now.sleeps == (sleeps + (if i < retryAttempts then [Pow2(i)] else [])) + next.sleeps
  {
    var next := RetryFrom(attempt, retryAttempts, i + 1, Some(e));
    var pause: seq<nat> := if i < retryAttempts then [Pow2(i)] else [];
    assert sleeps + (pause + next.sleeps) == (sleeps + pause) + next.sleeps;
  }

  /** From attempt `i` on: the attempts run up to the first one that yields a
      value, or through the last one; the error names the last failure. */
  lemma {:induction false} RetryFromOutcome<T>(attempt: nat -> Result<T, string>, retryAttempts: int,
                                               i: nat, lastError: Option<string>)
    requires i <= Attempts(retryAttempts)
    ensures i <= RetryFrom(attempt, retryAttempts, i, lastError).attempts <= Attempts(retryAttempts)
    ensures forall j :: i <= j < RetryFrom(attempt, retryAttempts, i, lastError).attempts - 1 ==>
              attempt(j).Err?
    ensures var run := RetryFrom(attempt, retryAttempts, i, lastError);
            run.result.Ok? ==> i < run.attempts && attempt(run.attempts - 1) == Ok(run.result.value)
    ensures var run := RetryFrom(attempt, retryAttempts, i, lastError);
            run.result.Err? ==>
              && run.attempts == Attempts(retryAttempts)
              && (i < run.attempts ==> attempt(run.attempts - 1).Err?)
              && run.result.error == Exhausted(retryAttempts + 1,
                   if i < run.attempts then Some(attempt(run.attempts - 1).error) else lastError)
    decreases retryAttempts + 1 - i
  {
    if i <= retryAttempts {
      match attempt(i)
      case Ok(v) =>
      case Err(e) =>
        RetryFromOutcome(attempt, retryAttempts, i + 1, Some(e));
    }
  }

  /** From attempt `i` on: one sleep of `2 ** j` after each failed attempt `j`
      except the last one. */
  lemma {:induction false} RetryFromSleeps<T>(attempt: nat -> Result<T, string>, retryAttempts: int,
                                              i: nat, lastError: Option<string>)
    requires i <= Attempts(retryAttempts)
    ensures var run := RetryFrom(attempt, retryAttempts, i, lastError);
            |run.sleeps| == (if i < run.attempts then run.attempts - 1 - i else 0)
    ensures var run := RetryFrom(attempt, retryAttempts, i, lastError);
            forall k :: 0 <= k < |run.sleeps| ==> run.sleeps[k] == Pow2(i + k)
    decreases retryAttempts + 1 - i
  {
    RetryFromOutcome(attempt, retryAttempts, i, lastError);
    if i <= retryAttempts {
      match attempt(i)
      case Ok(v) =>
      case Err(e) =>
        RetryFromSleeps(attempt, retryAttempts, i + 1, Some(e));
        RetryFromOutcome(attempt, retryAttempts, i + 1, Some(e));
    }
  }

  /** The whole loop. */
  function Retry<T>(attempt: nat -> Result<T, string>, retryAttempts: int): Run<T>
  {
    RetryFrom(attempt, retryAttempts, 0, None)
  }

  /** At most `retry_attempts + 1` attempts, and at least one when
      `retry_attempts` is not negative. */
  lemma RetryAttemptCount<T>(attempt: nat -> Result<T, string>, retryAttempts: int)
    ensures Retry(attempt, retryAttempts).attempts <= Attempts(retryAttempts)
    ensures retryAttempts >= 0 ==> Retry(attempt, retryAttempts).attempts >= 1
  {
    RetryFromOutcome(attempt, retryAttempts, 0, None);
  }

  /** The loop returns a value exactly when some attempt within the bound yields
      one, and then it is the value of the first such attempt. */
  lemma RetryFirstSuccess<T>(attempt: nat -> Result<T, string>, retryAttempts: int)
    ensures var run := Retry(attempt, retryAttempts);
            run.result.Ok? <==> exists k :: 0 <= k < Attempts(retryAttempts) && attempt(k).Ok?
    ensures var run := Retry(attempt, retryAttempts);
            run.result.Ok? ==>
              && run.attempts >= 1
              && attempt(run.attempts - 1) == Ok(run.result.value)
              && forall j :: 0 <= j < run.attempts - 1 ==> attempt(j).Err?
  {
    var run := Retry(attempt, retryAttempts);
    RetryFromOutcome(attempt, retryAttempts, 0, None);
    if run.result.Err? {
      forall k | 0 <= k < Attempts(retryAttempts) ensures attempt(k).Err? {
        if k < run.attempts - 1 {
        } else {
          assert k == run.attempts - 1;
        }
      }
    }
  }

  /** When every attempt fails, all `retry_attempts + 1` are made and the error
      names that number and the last attempt's error (None when the loop body
      never ran). */
  lemma RetryExhausted<T>(attempt: nat -> Result<T, string>, retryAttempts: int)
    requires Retry(attempt, retryAttempts).result.Err?
    ensures var run := Retry(attempt, retryAttempts);
            && run.attempts == Attempts(retryAttempts)
            && (forall j :: 0 <= j < run.attempts ==> attempt(j).Err?)
            && run.result.error == Exhausted(retryAttempts + 1,
                 if retryAttempts >= 0 then Some(attempt(retryAttempts).error) else None)
  {
    RetryFromOutcome(attempt, retryAttempts, 0, None);
  }

  /** One sleep separates consecutive attempts and none follows the last: the
      delays are 1, 2, 4, ..., 2^(attempts - 2). */
  lemma RetrySleepSchedule<T>(attempt: nat -> Result<T, string>, retryAttempts: int)
    ensures var run := Retry(attempt, retryAttempts);
            run.sleeps == Backoff(if run.attempts > 0 then run.attempts - 1 else 0)
  {
    RetryFromSleeps(attempt, retryAttempts, 0, None);
  }
}

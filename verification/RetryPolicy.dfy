/** The back-off curve shared by the broker retry queue and both outbox relays, and the
    decision taken after one failed outbox publish. Times are milliseconds. */
module RetryPolicy {
  const MAX_ATTEMPTS: nat := 5
  const BASE_DELAY_MS: nat := 2000
  const MAX_DELAY_MS: nat := 30000

  function Pow2(n: nat): nat {
    if n == 0 then 1 else 2 * Pow2(n - 1)
  }

  /** Attempts are numbered from 1. */
  function RetryDelayMs(attempt: nat): nat
    requires attempt >= 1
  {
    var uncapped := BASE_DELAY_MS * Pow2(attempt - 1);
    if uncapped <= MAX_DELAY_MS then uncapped else MAX_DELAY_MS
  }

  datatype FailureOutcome =
    | Retry(nextRetryAt: int, newAttempts: nat)
    | DeadLetter(newAttempts: nat)

  function ComputeFailureOutcome(attemptsBefore: nat, maxAttempts: int, now: int): FailureOutcome {
    var newAttempts := attemptsBefore + 1;
    if newAttempts >= maxAttempts then DeadLetter(newAttempts)
    else Retry(now + RetryDelayMs(newAttempts), newAttempts)
  }

  /** The number of failures that exhausts a row's budget: even a budget of zero or less
      lets one attempt happen. */
  function Budget(maxAttempts: int): nat {
    if maxAttempts <= 1 then 1 else maxAttempts
  }

  lemma OutcomeFollowsBudget(attemptsBefore: nat, maxAttempts: int, now: int)
    requires attemptsBefore < Budget(maxAttempts)
    ensures var o := ComputeFailureOutcome(attemptsBefore, maxAttempts, now);
            && o.newAttempts <= Budget(maxAttempts)
            && (o.DeadLetter? <==> o.newAttempts == Budget(maxAttempts))
  {
  }

  lemma {:induction false} Pow2Monotone(m: nat, n: nat)
    requires m <= n
    ensures Pow2(m) <= Pow2(n)
    decreases n
  {
    if m < n {
      Pow2Monotone(m, n - 1);
    }
  }

  /** The curve: doubling up to the fourth attempt, flat at the cap from the fifth on. */
  lemma {:induction false} DelayCurve(attempt: nat)
    requires attempt >= 1
    ensures attempt <= 4 ==> RetryDelayMs(attempt) == 2000 * Pow2(attempt - 1)
    ensures attempt >= 5 ==> RetryDelayMs(attempt) == 30000
  {
    assert Pow2(1) == 2 && Pow2(2) == 4 && Pow2(3) == 8 && Pow2(4) == 16;
    if attempt >= 5 {
      Pow2Monotone(4, attempt - 1);
    }
  }

  function Pow2Of(n: int): real {
    if n >= 0 then Pow2(n) as real else 1.0 / (Pow2Positive(-n); Pow2(-n) as real)
  }

  lemma Pow2Positive(n: nat)
    ensures Pow2(n) >= 1
  {
  }

  /** The delay for any whole attempt number; a retry header that was tampered with can make it
      zero or negative, and the delay then is a fraction of the base delay. */
  function RetryDelay(attempt: int): real {
    var uncapped := BASE_DELAY_MS as real * Pow2Of(attempt - 1);
    if uncapped <= MAX_DELAY_MS as real then uncapped else MAX_DELAY_MS as real
  }

  /** It is always positive and at most the cap, doubles with every attempt up to the fourth,
      and is the curve of the relays from the first attempt on. */
  lemma DelayForAnyAttempt(attempt: int)
    ensures 0.0 < RetryDelay(attempt) <= 30000.0
    ensures attempt <= 3 ==> RetryDelay(attempt + 1) == 2.0 * RetryDelay(attempt)
    ensures attempt >= 1 ==> RetryDelay(attempt) == RetryDelayMs(attempt) as real
  {
    if attempt <= 0 {
      Halves(1 - attempt);
    } else {
      Pow2Positive(attempt - 1);
      DelayCurve(attempt);
      assert Pow2(1) == 2 && Pow2(2) == 4 && Pow2(3) == 8;
    }
  }

  lemma Halves(n: nat)
    requires n >= 1
    ensures 0.0 < Pow2Of(0 - n) <= 0.5 && Pow2Of(1 - n) == 2.0 * Pow2Of(0 - n)
  {
    Pow2Positive(n);
    Pow2Positive(n - 1);
    var whole := Pow2(n) as real;
    var half := Pow2(n - 1) as real;
    assert whole == 2.0 * half && half >= 1.0;
    assert 1.0 / half == 2.0 * (1.0 / whole);
  }

  /** Waiting time from the first to the m-th failure when every retry is as early as allowed. */
  function TotalDelay(m: nat): nat
    requires m >= 1
  {
    if m == 1 then 0 else TotalDelay(m - 1) + RetryDelayMs(m - 1)
  }

  lemma {:induction false} TotalDelayClosedForm(m: nat)
    requires m >= 1
    ensures m <= 5 ==> TotalDelay(m) == 2000 * (Pow2(m - 1) - 1)
    ensures m >= 5 ==> TotalDelay(m) == 30000 * (m - 4)
  {
    if m > 1 {
      TotalDelayClosedForm(m - 1);
      DelayCurve(m - 1);
    }
    assert Pow2(4) == 16 by {
      assert Pow2(1) == 2 && Pow2(2) == 4 && Pow2(3) == 8;
    }
  }
}

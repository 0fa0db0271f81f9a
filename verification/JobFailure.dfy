/**
 The failure policy every accounting job shares
 (apps/api/src/accounting/accounting-job-failure.ts) and the queue's retry delay
 (apps/api/src/accounting/accounting-backoff.ts).
 */
module JobFailure {
  import opened Wrappers

  /** AccountingProviderError: how an adapter classifies a failed provider call. */
  datatype ProviderError = ProviderError(
    transient: bool,
    budgetExhausted: bool,
    retryAfterMs: Option<int>,
    outcomeUnknown: bool)

  /** What a job can fail with; anything but a provider error is an unexpected error. */
  datatype JobError = Provider(error: ProviderError) | Unexpected

  datatype Verdict = Verdict(permanent: bool, lastAttempt: bool, budgetWait: bool)

  predicate IsLastAttempt(attemptsMade: nat, attempts: nat) {
    attemptsMade + 1 >= attempts
  }

  function Classify(err: JobError, attemptsMade: nat, attempts: nat): Verdict {
    Verdict(
      err.Provider? && !err.error.transient,
      IsLastAttempt(attemptsMade, attempts),
      err.Provider? && err.error.budgetExhausted)
  }

  const BASE_DELAY_MS := 30_000
  const RETRY_AFTER_JITTER_MS := 5_000
  const UNKNOWN_OUTCOME_SETTLE_MS := 120_000

  function Pow2(n: nat): (p: nat)
    ensures p >= 1
  {
    if n == 0 then 1 else 2 * Pow2(n - 1)
  }

  function Max(a: int, b: int): int {
    if a > b then a else b
  }

  /** computeAccountingBackoff; `random` is the value Math.random() returns. */
  function ComputeBackoff(attemptsMade: nat, err: JobError, random: real): int
    requires 0.0 <= random < 1.0
  {
    var retryAfterMs := if err.Provider? then err.error.retryAfterMs else None;
    if retryAfterMs.Some? && retryAfterMs.value >= 0 then
      retryAfterMs.value + (random * RETRY_AFTER_JITTER_MS as real).Floor
    else
      var exponential := BASE_DELAY_MS * Pow2(Max(0, attemptsMade - 1));
      if err.Provider? && err.error.outcomeUnknown
      then Max(exponential, UNKNOWN_OUTCOME_SETTLE_MS)
      else exponential
  }

  /** The provider named a wait of its own, which the backoff honours before anything else. */
  predicate NamesWait(err: ProviderError) {
    err.retryAfterMs.Some? && err.retryAfterMs.value >= 0
  }

  /**
   The settle delay is promised after every write whose outcome is unknown. It is given exactly
   when the provider named no wait, or named one that is itself long enough: a 5xx answer carrying
   a short Retry-After is retried before the original request has settled.
   */
  lemma SettleDelayExactly(attemptsMade: nat, err: ProviderError)
    requires err.outcomeUnknown
    ensures (forall random: real | 0.0 <= random < 1.0 ::
               ComputeBackoff(attemptsMade, Provider(err), random) >= UNKNOWN_OUTCOME_SETTLE_MS)
       <==> (NamesWait(err) ==> err.retryAfterMs.value >= UNKNOWN_OUTCOME_SETTLE_MS)
  {
    if NamesWait(err) {
      assert ComputeBackoff(attemptsMade, Provider(err), 0.0) == err.retryAfterMs.value;
    }
  }

  /** A concrete failing input: no usable answer, HTTP 503 with "Retry-After: 5". */
  lemma SettleDelaySkipped()
    ensures var err := ProviderError(true, false, Some(5_000), true);
            ComputeBackoff(1, Provider(err), 0.0) == 5_000 < UNKNOWN_OUTCOME_SETTLE_MS
  {
  }

  lemma {:induction false} Pow2Monotone(m: nat, n: nat)
    requires m <= n
    ensures Pow2(m) <= Pow2(n)
    decreases n - m
  {
    if m < n {
      Pow2Monotone(m + 1, n);
    }
  }

  /** Without a wait named by the provider the delay never shrinks from one attempt to the next. */
  lemma BackoffNeverShrinks(m: nat, n: nat, err: JobError, random: real)
    requires m <= n && 0.0 <= random < 1.0
    requires err.Provider? ==> !NamesWait(err.error)
    ensures BASE_DELAY_MS <= ComputeBackoff(m, err, random) <= ComputeBackoff(n, err, random)
  {
    Pow2Monotone(Max(0, m - 1), Max(0, n - 1));
  }

  /** An ordinary failure is retried after 30 s the first time and after twice as long each further time. */
  lemma BackoffDoubles(attemptsMade: nat, err: JobError, random: real)
    requires attemptsMade >= 1 && 0.0 <= random < 1.0
    requires err.Provider? ==> !NamesWait(err.error) && !err.error.outcomeUnknown
    ensures ComputeBackoff(1, err, random) == BASE_DELAY_MS
    ensures ComputeBackoff(attemptsMade + 1, err, random) == 2 * ComputeBackoff(attemptsMade, err, random)
  {
  }

  /** An unknown outcome only raises the delays that are too short for the request to have settled. */
  lemma SettleDelayIsAFloor(attemptsMade: nat, err: ProviderError, random: real)
    requires err.outcomeUnknown && !NamesWait(err) && 0.0 <= random < 1.0
    ensures var ordinary := ComputeBackoff(attemptsMade, Provider(err.(outcomeUnknown := false)), random);
            ComputeBackoff(attemptsMade, Provider(err), random) ==
            if ordinary < UNKNOWN_OUTCOME_SETTLE_MS then UNKNOWN_OUTCOME_SETTLE_MS else ordinary
  {
  }

  /** A named wait is honoured in full and overrun by less than five seconds. */
  lemma NamedWaitHonoured(attemptsMade: nat, err: ProviderError, random: real)
    requires NamesWait(err) && 0.0 <= random < 1.0
    ensures var delay := ComputeBackoff(attemptsMade, Provider(err), random);
            err.retryAfterMs.value <= delay < err.retryAfterMs.value + RETRY_AFTER_JITTER_MS
  {
    assert 0.0 <= random * 5000.0 < 5000.0;
  }
}

/** How a branch worker executes a job it has claimed: transient failures are retried with exponential
    backoff until the deadline margin. */
module RetryLoop {
  import opened Results

  /** A length of time in seconds. */
  type Duration = d: real | 0.0 <= d

  /** The retry settings, as the configuration check leaves them. */
  datatype Retry = Retry(initial: real, maximum: real, margin: Duration) {
    predicate Valid() { 0.0 < initial <= maximum }
  }

  /** How one attempt ends.  The receipt is submitted in the last two cases only. */
  datatype Result =
    | LlmUnavailable
    | IpfsUnavailable
    | LlmFatal
    | OutputRejected
    | InputInvalid
    | SubmitRefused
    | Submitted

  /** One attempt: its result, how long it took, and how much longer than asked the sleep after it is. */
  datatype Try = Try(result: Result, elapsed: Duration, overslept: Duration)

  predicate Transient(t: Try) { t.result == LlmUnavailable || t.result == IpfsUnavailable }

  predicate Submits(t: Try) { t.result == SubmitRefused || t.result == Submitted }

  /** What the worker reads back after claiming. */
  datatype ClaimedJob = ClaimedJob(claimedByUs: bool, hasInput: bool, executeDeadline: real)

  datatype Reason = NotOurs | NoInput | Ended(result: Result) | DeadlineMargin

  datatype Outcome = Outcome(submitted: bool, reason: Reason, attempts: nat)

  // ----- backoff

  function Pow2(n: nat): real {
    if n == 0 then 1.0 else 2.0 * Pow2(n - 1)
  }

  function Backoff(attempt: nat, retry: Retry): real
    requires attempt >= 1
  {
    var grown := retry.initial * Pow2(attempt - 1);
    if grown < retry.maximum then grown else retry.maximum
  }

  function TotalBackoff(n: nat, retry: Retry): real {
    if n == 0 then 0.0 else TotalBackoff(n - 1, retry) + Backoff(n, retry)
  }

  lemma {:induction false} Pow2Positive(n: nat)
    ensures Pow2(n) >= 1.0
  {
    if n > 0 {
      Pow2Positive(n - 1);
    }
  }

  lemma ScaleUp(x: real, k: real)
    requires 0.0 < x && 1.0 <= k
    ensures x <= x * k
  {
    assert 0.0 <= x * (k - 1.0);
  }

  /** Every wait lies between the initial and the maximal one, and the next at most doubles it. */
  lemma BackoffBounds(attempt: nat, retry: Retry)
    requires attempt >= 1 && retry.Valid()
    ensures retry.initial <= Backoff(attempt, retry) <= retry.maximum
    ensures Backoff(attempt, retry) <= Backoff(attempt + 1, retry) <= 2.0 * Backoff(attempt, retry)
  {
    Pow2Positive(attempt - 1);
    ScaleUp(retry.initial, Pow2(attempt - 1));
    assert retry.initial * Pow2(attempt) == 2.0 * (retry.initial * Pow2(attempt - 1));
  }

  /** The cap is reached exactly when doubling does, and from then on every wait is the maximal one. */
  lemma BackoffCaps(attempt: nat, retry: Retry)
    requires attempt >= 1 && retry.Valid()
    ensures Backoff(attempt, retry) == retry.maximum <==> retry.initial * Pow2(attempt - 1) >= retry.maximum
    ensures Backoff(attempt, retry) == retry.maximum ==> Backoff(attempt + 1, retry) == retry.maximum
    ensures Backoff(attempt, retry) < retry.maximum ==> Backoff(attempt, retry) == retry.initial * Pow2(attempt - 1)
  {
    BackoffBounds(attempt, retry);
    BackoffBounds(attempt + 1, retry);
  }

  lemma {:induction false} TotalBackoffAtLeast(n: nat, retry: Retry)
    requires retry.Valid()
    ensures TotalBackoff(n, retry) >= n as real * retry.initial
  {
    if n > 0 {
      TotalBackoffAtLeast(n - 1, retry);
      BackoffBounds(n, retry);
      hide Backoff, Pow2;
      OneMore(n, retry.initial);
    }
  }

  lemma OneMore(n: nat, x: real)
    requires n > 0
    ensures n as real * x == (n - 1) as real * x + x
  {
    assert n as real == (n - 1) as real + 1.0;
    Distribute(x, (n - 1) as real, 1.0);
  }

  lemma Distribute(x: real, a: real, b: real)
    ensures x * (a + b) == x * a + x * b
  {
  }

  lemma Doubling(x: real, q: real, p: real)
    requires 0.0 < x && 1.0 <= q && p == q + q
    ensures x * q <= x * p
  {
    ScaleUp(x, q);
    Distribute(x, q, q);
  }

  /** One wait more of a geometric sum, `p` being the power of two it is multiplied by. */
  lemma GeometricStep(x: real, p: real)
    ensures x * (p - 1.0) + x * p == x * (2.0 * p - 1.0)
  {
    Distribute(x, p - 1.0, p);
  }

  lemma {:induction false} TotalBackoffIsGeometric(n: nat, retry: Retry)
    requires retry.Valid() && n >= 1 && retry.initial * Pow2(n - 1) <= retry.maximum
    ensures TotalBackoff(n, retry) == retry.initial * (Pow2(n) - 1.0)
  {
    var x, p := retry.initial, Pow2(n - 1);
    LastWait(n, retry);
    GeometricStep(x, p);
    if n == 1 {
      assert p == 1.0 && TotalBackoff(0, retry) == 0.0;
    } else {
      var q := Pow2(n - 2);
      Pow2Positive(n - 2);
      Doubling(x, q, p);
      assert p == 2.0 * q && Pow2(n) == 2.0 * p;
      hide Pow2, Backoff;
      TotalBackoffIsGeometric(n - 1, retry);
    }
  }

  lemma LastWait(n: nat, retry: Retry)
    requires n >= 1 && retry.initial * Pow2(n - 1) <= retry.maximum
    ensures TotalBackoff(n, retry) == TotalBackoff(n - 1, retry) + retry.initial * Pow2(n - 1)
  {
  }

  /** The waits always reach one initial wait each; until the cap bites they add up to a geometric sum. */
  lemma TotalBackoffGrows(n: nat, retry: Retry)
    requires retry.Valid()
    ensures TotalBackoff(n, retry) >= n as real * retry.initial
    ensures n >= 1 && retry.initial * Pow2(n - 1) <= retry.maximum ==> TotalBackoff(n, retry) == retry.initial * (Pow2(n) - 1.0)
  {
    TotalBackoffAtLeast(n, retry);
    if n >= 1 && retry.initial * Pow2(n - 1) <= retry.maximum {
      TotalBackoffIsGeometric(n, retry);
    }
  }

  // ----- the timeline of the attempts

  /** When attempt `k` (from zero) starts, if it takes place; each earlier one failed and was slept off. */
  ghost function Start(tries: nat -> Try, retry: Retry, clock: real, k: nat): real
    decreases k, 0
  {
    if k == 0 then clock else Failed(tries, retry, clock, k - 1) + Backoff(k, retry) + tries(k - 1).overslept
  }

  ghost function Failed(tries: nat -> Try, retry: Retry, clock: real, k: nat): real
    decreases k, 1
  {
    Start(tries, retry, clock, k) + tries(k).elapsed
  }

  /** Attempt `k` fails, and there is time left to wait and try again. */
  ghost predicate Retried(tries: nat -> Try, retry: Retry, clock: real, latest: real, k: nat) {
    Transient(tries(k)) && Failed(tries, retry, clock, k) + Backoff(k + 1, retry) <= latest
  }

  /** The first failure and all the waits up to the last retry fit before the deadline margin. */
  lemma {:induction false} WaitsFit(tries: nat -> Try, retry: Retry, clock: real, latest: real, n: nat)
    requires retry.Valid() && forall k :: 0 <= k < n ==> Retried(tries, retry, clock, latest, k)
    ensures n > 0 ==> Failed(tries, retry, clock, n - 1) >= Failed(tries, retry, clock, 0) + TotalBackoff(n - 1, retry)
    ensures n > 0 ==> Failed(tries, retry, clock, 0) + TotalBackoff(n, retry) <= latest
  {
    if n > 1 {
      WaitsFit(tries, retry, clock, latest, n - 1);
      assert Retried(tries, retry, clock, latest, n - 1);
    } else if n == 1 {
      assert Retried(tries, retry, clock, latest, 0);
      assert TotalBackoff(0, retry) == 0.0;
      assert TotalBackoff(1, retry) == TotalBackoff(0, retry) + Backoff(1, retry);
    }
  }

  /** Retries are bounded by the time between the first failure and the deadline margin, and every
      attempt after the first starts by the margin, but for what the sleep before it overran. */
  lemma RetriesBounded(tries: nat -> Try, retry: Retry, clock: real, latest: real, n: nat)
    requires retry.Valid() && forall k :: 0 <= k < n ==> Retried(tries, retry, clock, latest, k)
    ensures n > 0 ==> n as real * retry.initial <= latest - Failed(tries, retry, clock, 0)
    ensures forall k :: 1 <= k <= n ==> Start(tries, retry, clock, k) <= latest + tries(k - 1).overslept
  {
    WaitsFit(tries, retry, clock, latest, n);
    TotalBackoffGrows(n, retry);
    forall k | 1 <= k <= n ensures Start(tries, retry, clock, k) <= latest + tries(k - 1).overslept {
      assert Retried(tries, retry, clock, latest, k - 1);
    }
  }

  /** An execution with `outcome`, whose attempts made `submits` submissions: all attempts but the last
      were retried, and the last says why it was the last. */
  ghost predicate Executes(tries: nat -> Try, retry: Retry, clock: real, job: Option<ClaimedJob>, outcome: Outcome, submits: nat, finished: real) {
    if job.None? || !job.value.claimedByUs then outcome == Outcome(false, NotOurs, 0) && submits == 0 && finished == clock
    else if !job.value.hasInput then outcome == Outcome(false, NoInput, 0) && submits == 0 && finished == clock
    else
      var latest := job.value.executeDeadline - retry.margin;
      && outcome.attempts > 0
      && var last := outcome.attempts - 1;
      && (forall k :: 0 <= k < last ==> Retried(tries, retry, clock, latest, k))
      && !Retried(tries, retry, clock, latest, last)
      && outcome.submitted == (tries(last).result == Submitted)
      && outcome.reason == (if Transient(tries(last)) then DeadlineMargin else Ended(tries(last).result))
      && submits == (if Submits(tries(last)) then 1 else 0)
      && finished == Failed(tries, retry, clock, last)
  }

  /** No environment lets an execution end in two ways. */
  lemma ExecutesOneWay(tries: nat -> Try, retry: Retry, clock: real, job: Option<ClaimedJob>,
                       o1: Outcome, s1: nat, f1: real, o2: Outcome, s2: nat, f2: real)
    requires Executes(tries, retry, clock, job, o1, s1, f1) && Executes(tries, retry, clock, job, o2, s2, f2)
    ensures o1 == o2 && s1 == s2 && f1 == f2
  {
    if job.Some? && job.value.claimedByUs && job.value.hasInput {
      var latest := job.value.executeDeadline - retry.margin;
      var last1: nat, last2: nat := o1.attempts - 1, o2.attempts - 1;
      assert last1 < last2 ==> Retried(tries, retry, clock, latest, last1);
      assert last2 < last1 ==> Retried(tries, retry, clock, latest, last2);
    }
  }

  /** The last instant an attempt may be waited for. */
  function Latest(job: ClaimedJob, retry: Retry): real {
    job.executeDeadline - retry.margin
  }

  /** How an execution ends, failure by failure: a job that is not ours or has no input is not attempted; an
      endpoint or network failure is the only thing that is retried, and only while the next wait ends before the
      margin; every other failure ends it at once; and the receipt is submitted in the last attempt or not at all. */
  lemma ExecutionEnds(tries: nat -> Try, retry: Retry, clock: real, job: Option<ClaimedJob>, outcome: Outcome, submits: nat, finished: real)
    requires Executes(tries, retry, clock, job, outcome, submits, finished)
    ensures outcome.attempts == 0 <==> job == None || !job.value.claimedByUs || !job.value.hasInput
    ensures outcome.attempts == 0 ==> !outcome.submitted && submits == 0 && finished == clock
    ensures outcome.attempts == 0 ==> outcome.reason == if job.Some? && job.value.claimedByUs then NoInput else NotOurs
    ensures forall k :: 0 <= k < outcome.attempts - 1 ==>
              tries(k).result in {LlmUnavailable, IpfsUnavailable} && Failed(tries, retry, clock, k) + Backoff(k + 1, retry) <= Latest(job.value, retry)
    ensures outcome.attempts > 0 ==>
              var last := outcome.attempts - 1;
              var result := tries(last).result;
              && (result in {LlmUnavailable, IpfsUnavailable} ==>
                    outcome.reason == DeadlineMargin && finished + Backoff(last + 1, retry) > Latest(job.value, retry))
              && (result !in {LlmUnavailable, IpfsUnavailable} ==> outcome.reason == Ended(result))
              && (outcome.submitted <==> result == Submitted) && submits == (if result in {SubmitRefused, Submitted} then 1 else 0)
              && finished == Failed(tries, retry, clock, last)
  {
    forall k | 0 <= k < outcome.attempts - 1
      ensures tries(k).result in {LlmUnavailable, IpfsUnavailable} && Failed(tries, retry, clock, k) + Backoff(k + 1, retry) <= Latest(job.value, retry)
    {
      assert Retried(tries, retry, clock, Latest(job.value, retry), k);
    }
  }

  /** The bounds that every execution keeps. */
  lemma ExecutionBounded(tries: nat -> Try, retry: Retry, clock: real, job: Option<ClaimedJob>, outcome: Outcome, submits: nat, finished: real)
    requires retry.Valid() && Executes(tries, retry, clock, job, outcome, submits, finished)
    ensures outcome.attempts > 1 ==>
              (outcome.attempts - 1) as real * retry.initial
              <= job.value.executeDeadline - retry.margin - Failed(tries, retry, clock, 0)
    ensures forall k :: 1 <= k < outcome.attempts ==>
              Start(tries, retry, clock, k) <= job.value.executeDeadline - retry.margin + tries(k - 1).overslept
  {
    if outcome.attempts > 0 {
      RetriesBounded(tries, retry, clock, job.value.executeDeadline - retry.margin, outcome.attempts - 1);
    }
  }

  /** The execution of a claim: it ends whatever fails, submits at most once, and retries no more than
      the time to the deadline margin allows. */
  method ExecuteClaimed(job: Option<ClaimedJob>, retry: Retry, tries: nat -> Try, start: real)
    returns (outcome: Outcome, submits: nat, finished: real)
    requires retry.Valid()
    ensures Executes(tries, retry, start, job, outcome, submits, finished)
    ensures submits <= 1 && (outcome.submitted ==> submits == 1) && start <= finished
    ensures outcome.attempts > 1 ==>
              (outcome.attempts - 1) as real * retry.initial
              <= job.value.executeDeadline - retry.margin - Failed(tries, retry, start, 0)
    ensures forall k :: 1 <= k < outcome.attempts ==>
              Start(tries, retry, start, k) <= job.value.executeDeadline - retry.margin + tries(k - 1).overslept
  {
    if job.None? || !job.value.claimedByUs {
      return Outcome(false, NotOurs, 0), 0, start;
    }
    if !job.value.hasInput {
      return Outcome(false, NoInput, 0), 0, start;
    }
    outcome, submits, finished := RetryUntilDone(job.value, retry, tries, start);
    ExecutionBounded(tries, retry, start, job, outcome, submits, finished);
  }

  /** The loop over the attempts. */
  method RetryUntilDone(job: ClaimedJob, retry: Retry, tries: nat -> Try, start: real)
    returns (outcome: Outcome, submits: nat, finished: real)
    requires retry.Valid() && job.claimedByUs && job.hasInput
    ensures Executes(tries, retry, start, Some(job), outcome, submits, finished)
    ensures start <= finished
  {
    var latest := job.executeDeadline - retry.margin;
    var clock := start;
    var attempt := 0;
    while true
      invariant forall k :: 0 <= k < attempt ==> Retried(tries, retry, start, latest, k)
      invariant clock == Start(tries, retry, start, attempt) && start <= clock
      decreases (latest - clock) / retry.initial
    {
      ghost var before := clock;
      attempt := attempt + 1;
      var now := tries(attempt - 1);
      clock := clock + now.elapsed;
      match now.result
      case LlmUnavailable | IpfsUnavailable =>
        var wait := Backoff(attempt, retry);
        if clock + wait > latest {
          return Outcome(false, DeadlineMargin, attempt), 0, clock;
        }
        BackoffBounds(attempt, retry);
        WaitShrinks(latest, before, clock + wait + now.overslept, retry.initial);
        clock := clock + wait + now.overslept;
      case LlmFatal | OutputRejected | InputInvalid =>
        return Outcome(false, Ended(now.result), attempt), 0, clock;
      case SubmitRefused =>
        return Outcome(false, Ended(SubmitRefused), attempt), 1, clock;
      case Submitted =>
        return Outcome(true, Ended(Submitted), attempt), 1, clock;
    }
  }

  lemma WaitShrinks(latest: real, before: real, after: real, initial: real)
    requires 0.0 < initial && before + initial <= after && before + initial <= latest
    ensures (latest - after) / initial <= (latest - before) / initial - 1.0
    ensures (latest - before) / initial >= 1.0
  {
    assert (latest - before) / initial - (latest - after) / initial == (after - before) / initial;
    assert ((after - before) / initial) * initial == after - before;
    assert ((latest - before) / initial) * initial == latest - before;
  }
}

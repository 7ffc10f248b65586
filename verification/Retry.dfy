/** Retrying a send (crates/aether-bus/src/retry.rs, producer.rs). Jitter is any value in range. */
module Retry {
  import opened Powers

  /** Durations are in nanoseconds. */
  datatype RetryPolicy = RetryPolicy(maxAttempts: nat, baseDelay: nat, maxDelay: nat)

  /** 2^64 - 1 seconds and 999999999 nanoseconds, the largest duration. */
  const DURATION_MAX: nat := 18446744073709551615999999999

  function Min(a: nat, b: nat): nat {
    if a <= b then a else b
  }

  /** The longest wait after attempt `n`; the doubling saturates and stops at 2^31. */
  function DelayCap(p: RetryPolicy, attempt: nat): nat {
    Min(Min(p.baseDelay * TwoTo(Min(attempt, 31)), DURATION_MAX), p.maxDelay)
  }

  /** What one attempt reports; a breaker that is open or a missing key is final. */
  datatype Attempt = Sent | Transient | Final(error: string)

  datatype SendOutcome = Delivered | Refused(error: string) | RetriesExhausted(maxRetries: nat) | NoAttempts

  /** `attempts` is what the producer would report each time, `jitter` the wait drawn before each retry. */
  method SendWithRetry(p: RetryPolicy, attempts: seq<Attempt>, jitter: seq<nat>)
    returns (outcome: SendOutcome, sends: nat, waited: nat)
    requires |attempts| == p.maxAttempts && |jitter| == p.maxAttempts
    requires forall i :: 0 <= i < |jitter| - 1 ==> jitter[i] <= DelayCap(p, i)
    ensures sends <= p.maxAttempts && (sends == 0 <==> outcome.NoAttempts?) && (sends == 0 <==> p.maxAttempts == 0)
    ensures forall i :: 0 <= i < sends - 1 ==> attempts[i].Transient?
    ensures outcome.Delivered? <==> sends > 0 && attempts[sends - 1].Sent?
    ensures outcome.Refused? <==> sends > 0 && attempts[sends - 1].Final?
    ensures outcome.Refused? ==> outcome.error == attempts[sends - 1].error
    ensures outcome.RetriesExhausted? <==> sends == p.maxAttempts > 0 && attempts[sends - 1].Transient?
    ensures outcome.RetriesExhausted? ==> outcome.maxRetries == p.maxAttempts
    ensures waited == Sum(jitter, if sends == 0 then 0 else sends - 1)
  {
    sends, waited := 0, 0;
    if p.maxAttempts == 0 {
      return NoAttempts, 0, 0;
    }
    for attempt := 0 to p.maxAttempts
      invariant sends == attempt
      invariant waited == Sum(jitter, if attempt == 0 then 0 else attempt - 1)
      invariant forall i :: 0 <= i < attempt ==> attempts[i].Transient?
      invariant attempt < p.maxAttempts
    {
      if attempt > 0 {
        waited := waited + jitter[attempt - 1];
      }
      sends := sends + 1;
      match attempts[attempt] {
        case Sent => return Delivered, sends, waited;
        case Final(error) => return Refused(error), sends, waited;
        case Transient =>
          if attempt + 1 >= p.maxAttempts {
            return RetriesExhausted(p.maxAttempts), sends, waited;
          }
      }
    }
    outcome := RetriesExhausted(p.maxAttempts);
  }

  function Sum(waits: seq<nat>, n: nat): nat
    requires n <= |waits|
  {
    if n == 0 then 0 else Sum(waits, n - 1) + waits[n - 1]
  }

  /** The waiting so far, counted from the first wait. */
  lemma {:induction false} WaitsAddUp(waits: seq<nat>, n: nat)
    requires 0 < n <= |waits|
    ensures Sum(waits, n) == waits[0] + Sum(waits[1..], n - 1) && Sum(waits, 0) == 0
  {
    if n > 1 {
      WaitsAddUp(waits, n - 1);
    }
  }

  lemma ScaleGrows(base: nat, x: nat, y: nat)
    requires x <= y
    ensures base * x <= base * y
  {
    assert base * (y - x) >= 0;
  }

  /** Caps never fall from one retry to the next and never pass the policy's maximum. */
  lemma DelayCapGrows(p: RetryPolicy, n: nat, m: nat)
    requires n <= m
    ensures DelayCap(p, n) <= DelayCap(p, m) <= p.maxDelay
  {
    var i, j := Min(n, 31), Min(m, 31);
    TwoToGrows(i, j);
    ScaleGrows(p.baseDelay, TwoTo(i), TwoTo(j));
  }

  /** The first cap is the base delay, each of the next thirty-one doubles it, and the maximum cuts it off. */
  lemma DelayCapDoubles(p: RetryPolicy, n: nat)
    requires p.baseDelay <= DURATION_MAX && p.maxDelay <= DURATION_MAX
    ensures DelayCap(p, 0) == if p.baseDelay <= p.maxDelay then p.baseDelay else p.maxDelay
    ensures var doubled := 2 * DelayCap(p, n);
            DelayCap(p, n + 1) == if n >= 31 then DelayCap(p, n)
                                  else if doubled <= p.maxDelay then doubled else p.maxDelay
  {
    if n < 31 {
      Doubled(p.baseDelay, n);
    }
  }

  lemma Doubled(base: nat, n: nat)
    ensures base * TwoTo(n + 1) == 2 * (base * TwoTo(n))
  {
  }

  /** All the waiting a retried send can do. */
  lemma {:induction false} WaitsBounded(p: RetryPolicy, jitter: seq<nat>, n: nat)
    requires n <= |jitter| && forall i :: 0 <= i < n ==> jitter[i] <= DelayCap(p, i)
    ensures Sum(jitter, n) <= n * p.maxDelay
  {
    if n > 0 {
      WaitsBounded(p, jitter, n - 1);
      DelayCapGrows(p, n - 1, n - 1);
      OneMoreWait(n, p.maxDelay);
    }
  }

  lemma OneMoreWait(n: nat, maxDelay: nat)
    requires n > 0
    ensures (n - 1) * maxDelay + maxDelay == n * maxDelay
  {
  }
}

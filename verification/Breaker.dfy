/**
 * The circuit breaker and the producer it guards (crates/aether-bus/src/retry.rs, producer.rs).
 *
 * Instants are nanosecond readings of one monotonic clock, passed in explicitly. A failure reads
 * the clock twice, once when the outcome is pushed and once when it is judged.
 */
module Breaker {
  import opened Wrappers

  datatype BreakerState = Closed | Open | HalfOpen

  datatype Entry = Entry(at: int, error: bool)

  const THRESHOLD := 5
  const SECOND := 1000000000
  const RESET := 15 * SECOND
  const WINDOW := 30 * SECOND

  /** The breaker's fields as one value. */
  datatype View = View(state: BreakerState, failures: nat, windowStart: Option<int>,
                       openedAt: Option<int>, probeSent: bool, recent: seq<Entry>)

  const FRESH := View(Closed, 0, None, None, false, [])

  function Trim(recent: seq<Entry>, cutoff: int): seq<Entry> {
    if recent != [] && recent[0].at < cutoff then Trim(recent[1..], cutoff) else recent
  }

  function Pushed(recent: seq<Entry>, now: int, error: bool): seq<Entry> {
    Trim(recent, now - WINDOW) + [Entry(now, error)]
  }

  function Errors(recent: seq<Entry>): nat {
    if recent == [] then 0
    else Errors(recent[..|recent| - 1]) + (if recent[|recent| - 1].error then 1 else 0)
  }

  predicate ErrorRateExceeded(recent: seq<Entry>) {
    |recent| >= THRESHOLD && Errors(recent) > |recent| / 2
  }

  function RecordSuccess(v: View, now: int): View {
    var w := v.(recent := Pushed(v.recent, now, false));
    match v.state
    case HalfOpen => w.(state := Closed, failures := 0, windowStart := None, probeSent := false)
    case Closed => w.(failures := 0, windowStart := None)
    case Open => w
  }

  predicate WindowElapsed(v: View, now: int) {
    v.windowStart.Some? && now - v.windowStart.value >= WINDOW
  }

  function RecordFailure(v: View, pushed: int, now: int): View {
    var recent := Pushed(v.recent, pushed, true);
    if v.state.HalfOpen? then
      v.(recent := recent, state := Open, openedAt := Some(now), failures := 0, probeSent := false)
    else
      var restart := v.windowStart.None? || WindowElapsed(v, now);
      var failures := (if WindowElapsed(v, now) then 0 else v.failures) + 1;
      var trips := v.state.Closed? && (failures >= THRESHOLD || ErrorRateExceeded(recent));
      View(if trips then Open else v.state, failures, if restart then Some(now) else v.windowStart,
           if trips then Some(now) else v.openedAt, v.probeSent, recent)
  }

  predicate Allows(v: View, now: int) {
    match v.state
    case Closed => true
    case Open => v.openedAt.Some? && now - v.openedAt.value >= RESET
    case HalfOpen => !v.probeSent
  }

  function AfterAllow(v: View, now: int): View {
    if v.state.Closed? || !Allows(v, now) then v else v.(state := HalfOpen, probeSent := true)
  }

  class CircuitBreaker {
    var state: BreakerState
    var consecutiveFailures: nat
    var failureWindowStart: Option<int>
    var openedAt: Option<int>
    var halfOpenProbeSent: bool
    var recentOutcomes: seq<Entry>

    function Fields(): View
      reads this
    {
      View(state, consecutiveFailures, failureWindowStart, openedAt, halfOpenProbeSent, recentOutcomes)
    }

    constructor ()
      ensures Fields() == FRESH
    {
      state, consecutiveFailures, failureWindowStart := Closed, 0, None;
      openedAt, halfOpenProbeSent, recentOutcomes := None, false, [];
    }

    method PushOutcome(now: int, wasError: bool)
      modifies this`recentOutcomes
      ensures recentOutcomes == Pushed(old(recentOutcomes), now, wasError)
    {
      var cutoff := now - WINDOW;
      while recentOutcomes != [] && recentOutcomes[0].at < cutoff
        invariant Trim(recentOutcomes, cutoff) == Trim(old(recentOutcomes), cutoff)
        decreases |recentOutcomes|
      {
        recentOutcomes := recentOutcomes[1..];
      }
      recentOutcomes := recentOutcomes + [Entry(now, wasError)];
    }

    method ErrorRate() returns (exceeded: bool)
      ensures exceeded == ErrorRateExceeded(recentOutcomes)
    {
      var total := |recentOutcomes|;
      if total < THRESHOLD {
        return false;
      }
      var errors := 0;
      for i := 0 to total
        invariant errors == Errors(recentOutcomes[..i])
      {
        assert recentOutcomes[..i + 1][..i] == recentOutcomes[..i];
        if recentOutcomes[i].error {
          errors := errors + 1;
        }
      }
      assert recentOutcomes[..total] == recentOutcomes;
      return errors > total / 2;
    }

    method Success(now: int)
      modifies this
      ensures Fields() == RecordSuccess(old(Fields()), now)
    {
      PushOutcome(now, false);
      match state {
        case HalfOpen =>
          state, consecutiveFailures, failureWindowStart, halfOpenProbeSent := Closed, 0, None, false;
        case Closed =>
          consecutiveFailures, failureWindowStart := 0, None;
        case Open =>
      }
    }

    method Failure(pushed: int, now: int)
      modifies this
      ensures Fields() == RecordFailure(old(Fields()), pushed, now)
    {
      PushOutcome(pushed, true);
      if state == HalfOpen {
        state, openedAt, consecutiveFailures, halfOpenProbeSent := Open, Some(now), 0, false;
        return;
      }
      if failureWindowStart.Some? {
        if now - failureWindowStart.value >= WINDOW {
          consecutiveFailures, failureWindowStart := 0, Some(now);
        }
      } else {
        failureWindowStart := Some(now);
      }
      consecutiveFailures := consecutiveFailures + 1;
      var consecutiveTrigger := consecutiveFailures >= THRESHOLD;
      var errorRateTrigger := ErrorRate();
      if state == Closed && (consecutiveTrigger || errorRateTrigger) {
        state, openedAt := Open, Some(now);
      }
    }

    method AllowRequest(now: int) returns (allowed: bool)
      modifies this`state, this`halfOpenProbeSent
      ensures allowed == Allows(old(Fields()), now)
      ensures Fields() == AfterAllow(old(Fields()), now)
    {
      match state {
        case Closed =>
          return true;
        case Open =>
          if openedAt.Some? && now - openedAt.value >= RESET {
            state, halfOpenProbeSent := HalfOpen, true;
            return true;
          }
          return false;
        case HalfOpen =>
          if halfOpenProbeSent {
            return false;
          }
          halfOpenProbeSent := true;
          return true;
      }
    }
  }

  // ---- The guarded producer ----

  datatype SendError = MissingPartitionKey(topic: string) | BreakerOpen | Transport(message: string)

  predicate NeedsPartitionKey(topic: string) {
    "md." <= topic || "orders." <= topic
  }

  /**
   * `send` suspends between admission and outcome, so it is two atomic parts; any number of
   * sends may be between them at once.
   */
  class BreakerProducer {
    const breaker: CircuitBreaker

    constructor ()
      ensures fresh(breaker) && breaker.Fields() == FRESH
    {
      breaker := new CircuitBreaker();
    }

    method BeginSend(topic: string, key: Option<string>, now: int) returns (refusal: Option<SendError>)
      modifies breaker
      ensures refusal == Some(MissingPartitionKey(topic)) <==> ("md." <= topic || "orders." <= topic) && key.None?
      ensures NeedsPartitionKey(topic) && key.None? ==>
                refusal == Some(MissingPartitionKey(topic)) && breaker.Fields() == old(breaker.Fields())
      ensures !(NeedsPartitionKey(topic) && key.None?) ==>
                && refusal == (if Allows(old(breaker.Fields()), now) then None else Some(BreakerOpen))
                && breaker.Fields() == AfterAllow(old(breaker.Fields()), now)
    {
      if NeedsPartitionKey(topic) && key.None? {
        return Some(MissingPartitionKey(topic));
      }
      var allowed := breaker.AllowRequest(now);
      return if allowed then None else Some(BreakerOpen);
    }

    method EndSend(result: Result<(), SendError>, pushed: int, now: int) returns (r: Result<(), SendError>)
      modifies breaker
      ensures r == result
      ensures breaker.Fields() == if result.Success? then RecordSuccess(old(breaker.Fields()), pushed)
                                  else RecordFailure(old(breaker.Fields()), pushed, now)
    {
      if result.Success? {
        breaker.Success(pushed);
      } else {
        breaker.Failure(pushed, now);
      }
      return result;
    }
  }
}

/**
 * The ingestion scheduler and its in-memory state store (server/ingest/scheduler.py, state.py).
 *
 * Coroutines are cut at their suspension points; each method below is one uninterrupted part.
 * A cursor is a position in the source's log, `None` being its beginning.
 */
module Scheduler {
  import opened Powers
  import opened Wrappers

  type Source = string

  datatype Item = Item(source: Source, content: string)

  datatype Config = Config(source: Source, rung: int, interval: real, batchSize: nat, enabled: bool)

  datatype Batch = Batch(items: seq<Item>, nextCursor: Option<nat>)

  datatype Job = Job(config: Config, batch: Batch)

  datatype Health = Unknown | Healthy | Degraded | Disabled

  datatype SourceState = SourceState(source: Source, rung: int, cursor: Option<nat>, health: Health, failures: nat,
                                     lastError: Option<string>, nextRunAt: real)

  datatype Downgrade = Downgrade(source: Source, fromRung: int, toRung: int)

  // ---- The state store ----

  function NewState(config: Config): SourceState {
    SourceState(config.source, config.rung, None, Unknown, 0, None, 0.0)
  }

  function Succeeded(state: SourceState, cursor: Option<nat>, nextRunAt: real): SourceState {
    state.(cursor := cursor, health := Healthy, failures := 0, lastError := None, nextRunAt := nextRunAt)
  }

  function Failed(state: SourceState, error: string, nextRunAt: real): SourceState {
    state.(health := Degraded, failures := state.failures + 1, lastError := Some(error), nextRunAt := nextRunAt)
  }

  class MemoryStateStore {
    var states: map<Source, SourceState>
    var downgrades: seq<Downgrade>

    constructor ()
      ensures states == map[] && downgrades == []
    {
      states, downgrades := map[], [];
    }

    method Register(configs: seq<Config>)
      modifies this`states
      ensures forall s <- old(states) :: s in states && states[s] == old(states[s])
      ensures forall s :: s in states <==> s in old(states) || exists c <- configs :: c.source == s
      ensures forall s <- states :: s in old(states) || exists c <- configs :: c.source == s && states[s] == NewState(c)
      ensures forall s <- states ::
                s in old(states) || states[s] == SourceState(s, states[s].rung, None, Unknown, 0, None, 0.0)
    {
      for i := 0 to |configs|
        invariant forall s <- old(states) :: s in states && states[s] == old(states[s])
        invariant forall s :: s in states <==> s in old(states) || exists c <- configs[..i] :: c.source == s
        invariant forall s <- states ::
                    s in old(states) || exists c <- configs[..i] :: c.source == s && states[s] == NewState(c)
      {
        var config := configs[i];
        assert configs[..i + 1] == configs[..i] + [config];
        assert config in configs[..i + 1];
        assert forall c <- configs[..i] :: c in configs[..i + 1];
        if config.source !in states {
          states := states[config.source := NewState(config)];
        }
      }
      assert configs[..|configs|] == configs;
    }

    method Get(source: Source) returns (state: Option<SourceState>)
      ensures state == if source in states then Some(states[source]) else None
    {
      return if source in states then Some(states[source]) else None;
    }

    /** False stands for the KeyError of an unregistered source. */
    method MarkSuccess(source: Source, cursor: Option<nat>, nextRunAt: real) returns (known: bool)
      modifies this`states
      ensures known == (source in old(states))
      ensures states == if known then old(states)[source := Succeeded(old(states)[source], cursor, nextRunAt)]
                        else old(states)
    {
      if source !in states {
        return false;
      }
      states := states[source := states[source].(cursor := cursor, health := Healthy, failures := 0, lastError := None,
                                                 nextRunAt := nextRunAt)];
      return true;
    }

    method MarkFailure(source: Source, error: string, nextRunAt: real) returns (known: bool)
      modifies this`states
      ensures known == (source in old(states))
      ensures states == if known then old(states)[source := Failed(old(states)[source], error, nextRunAt)]
                        else old(states)
    {
      if source !in states {
        return false;
      }
      var state := states[source];
      states := states[source := state.(health := Degraded, failures := state.failures + 1, lastError := Some(error),
                                        nextRunAt := nextRunAt)];
      return true;
    }

    method RecordDowngrade(decision: Downgrade)
      modifies this`downgrades
      ensures downgrades == old(downgrades) + [decision]
    {
      downgrades := downgrades + [decision];
    }
  }

  // ---- The scheduler ----

  /** May `config` run on an adapter of another rung? Only to a lower-compliance one, with a matching decision. */
  predicate MayRegister(config: Config, adapterRung: int, downgrade: Option<Downgrade>) {
    config.rung == adapterRung
    || (downgrade == Some(Downgrade(config.source, config.rung, adapterRung)) && adapterRung > config.rung)
  }

  /** The least power of two that no double can hold is 2 to this power. */
  const FLOAT_EXPONENTS := 1024

  /**
   * The wait after a failure. The interval is a double, so converting the power of two to one raises
   * OverflowError when it is too large; a product beyond the largest double is infinite and capped.
   */
  function Backoff(interval: real, failures: nat): Option<real> {
    if failures >= FLOAT_EXPONENTS then None
    else
      var delay := Delay(interval, failures);
      Some(if delay <= 3600.0 then delay else 3600.0)
  }

  /** The wait before it is capped. */
  function Delay(interval: real, failures: nat): real {
    interval * TwoTo(failures) as real
  }

  lemma ProductGrows(x: real, a: real, b: real)
    requires x >= 0.0 && a <= b
    ensures x * a <= x * b
  {
    assert x * (b - a) >= 0.0;
  }

  lemma DelayGrows(interval: real, failures: nat, more: nat)
    requires interval > 0.0 && failures <= more
    ensures interval <= Delay(interval, failures) <= Delay(interval, more)
  {
    TwoToGrows(failures, more);
    ProductGrows(interval, 1.0, TwoTo(failures) as real);
    ProductGrows(interval, TwoTo(failures) as real, TwoTo(more) as real);
  }

  /**
   * Backoff exists exactly below 1024 failures. It never falls as failures add up and is capped at
   * an hour, so a source polled less often than hourly is retried sooner after a failure than after
   * a success.
   */
  lemma BackoffBounds(interval: real, failures: nat, more: nat)
    requires interval > 0.0 && failures <= more
    ensures Backoff(interval, more).Some? <==> more < FLOAT_EXPONENTS
    ensures more < FLOAT_EXPONENTS ==>
              && Backoff(interval, failures).Some?
              && 0.0 < Backoff(interval, failures).value <= Backoff(interval, more).value <= 3600.0
              && (Backoff(interval, failures).value >= interval <==> interval <= 3600.0)
  {
    DelayGrows(interval, failures, more);
    hide Delay;
  }

  /** The first wait is the interval and each further failure doubles it, up to an hour. */
  lemma BackoffDoubles(interval: real, failures: nat)
    requires interval > 0.0 && failures + 1 < 1024
    ensures Backoff(interval, 0) == Some(if interval <= 3600.0 then interval else 3600.0)
    ensures Backoff(interval, failures).Some?
    ensures var wait := Backoff(interval, failures).value;
            Backoff(interval, failures + 1) == Some(if 2.0 * wait <= 3600.0 then 2.0 * wait else 3600.0)
  {
    DelayDoubles(interval, failures);
    DelayGrows(interval, failures, failures);
    assert Delay(interval, 0) == interval;
    hide Delay;
  }

  lemma DelayDoubles(interval: real, failures: nat)
    ensures Delay(interval, failures + 1) == 2.0 * Delay(interval, failures)
  {
    assert TwoTo(failures + 1) as real == 2.0 * TwoTo(failures) as real;
  }

  /** The next source worth asking about, and the sources after it. */
  function Scan(todo: seq<Source>, full: bool, inflight: set<Source>): (r: (Option<Source>, seq<Source>))
    ensures r.0.Some? ==>
              exists k :: 0 <= k < |todo| && todo[k] == r.0.value && r.1 == todo[k + 1..] && !full
                          && todo[k] !in inflight && forall i :: 0 <= i < k ==> todo[i] in inflight
    ensures r.0.None? ==> full || forall source <- todo :: source in inflight
  {
    if todo == [] || full then (None, [])
    else if todo[0] in inflight then Scan(todo[1..], full, inflight)
    else (Some(todo[0]), todo[1..])
  }

  class FleetScheduler {
    const state: MemoryStateStore
    const maxSize: nat
    var queue: seq<Job>
    var inflight: set<Source>
    var sources: map<Source, Config>

    constructor (state: MemoryStateStore, queueSize: nat)
      requires queueSize >= 1
      ensures this.state == state && maxSize == queueSize && queue == [] && inflight == {} && sources == map[]
    {
      this.state, maxSize := state, queueSize;
      queue, inflight, sources := [], {}, map[];
    }

    method Register(config: Config, adapterRung: int, downgrade: Option<Downgrade>) returns (accepted: bool)
      modifies this`sources, state
      ensures accepted == MayRegister(config, adapterRung, downgrade)
      ensures config.rung == adapterRung ==> accepted
      ensures config.rung != adapterRung ==>
                (accepted <==> && downgrade.Some? && adapterRung > config.rung
                               && downgrade.value.source == config.source
                               && downgrade.value.fromRung == config.rung && downgrade.value.toRung == adapterRung)
      ensures sources == if accepted then old(sources)[config.source := config.(rung := adapterRung)] else old(sources)
      ensures state.downgrades == old(state.downgrades)
                                  + (if accepted && config.rung != adapterRung then [downgrade.value] else [])
      ensures !accepted ==> state.states == old(state.states)
      ensures accepted ==> forall s :: s in state.states <==> s in old(state.states) || s == config.source
      ensures forall s <- old(state.states) :: s in state.states && state.states[s] == old(state.states[s])
    {
      var effective := config;
      if config.rung != adapterRung {
        if downgrade.None? || downgrade.value.source != config.source || downgrade.value.fromRung != config.rung
           || downgrade.value.toRung != adapterRung || adapterRung <= config.rung
        {
          return false;
        }
        state.RecordDowngrade(downgrade.value);
        effective := config.(rung := adapterRung);
      }
      sources := sources[effective.source := effective];
      state.Register([effective]);
      return true;
    }

    /** The part of `poll_due` between resuming and awaiting a source's state. */
    method NextCandidate(todo: seq<Source>) returns (candidate: Option<Source>, rest: seq<Source>)
      ensures (candidate, rest) == Scan(todo, |queue| >= maxSize, inflight)
    {
      rest := todo;
      while rest != []
        invariant Scan(rest, |queue| >= maxSize, inflight) == Scan(todo, |queue| >= maxSize, inflight)
        decreases |rest|
      {
        if |queue| >= maxSize {
          return None, [];
        }
        if rest[0] in inflight {
          rest := rest[1..];
        } else {
          return Some(rest[0]), rest[1..];
        }
      }
      return None, [];
    }

    /** `put_nowait` and the in-flight mark, with no suspension between them. */
    method Enqueue(job: Job) returns (queueFull: bool)
      modifies this`queue, this`inflight
      ensures queueFull == (old(|queue|) >= maxSize)
      ensures queue == if queueFull then old(queue) else old(queue) + [job]
      ensures inflight == if queueFull then old(inflight) else old(inflight) + {job.config.source}
    {
      if |queue| >= maxSize {
        return true;
      }
      queue := queue + [job];
      inflight := inflight + {job.config.source};
      return false;
    }

    method Take() returns (job: Job)
      requires queue != []
      modifies this`queue
      ensures [job] + queue == old(queue)
    {
      job := queue[0];
      queue := queue[1..];
    }

    /** The `finally` part of `process_one`. */
    method Release(job: Job)
      modifies this`inflight
      ensures inflight == old(inflight) - {job.config.source}
    {
      inflight := inflight - {job.config.source};
    }
  }
}

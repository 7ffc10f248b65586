/**
 * The scheduler as a concurrent system: one poller under its lock, N workers, and cancellation or
 * failure at every suspension point (server/ingest/scheduler.py).
 */
module Fleet {
  import opened Powers
  import opened Scheduler
  import opened Wrappers

  /** The items a source has ever published, by position. */
  type Log = (Source, nat) -> Item

  datatype Poller =
    | Resting
    | Getting(config: Config, todo: seq<Source>)
    | Fetching(config: Config, state: SourceState, now: real, todo: seq<Source>)
    | Handling(config: Config, state: SourceState, now: real, todo: seq<Source>)
    | Noted(todo: seq<Source>)

  /**
   * The poller is in the exception handler of a fetch in `Handling`, and has recorded the failure in
   * `Noted`. A worker in `Storing(job, k)` has stored k items; `Marked` has recorded success; `Recovering` is in the
   * exception handler and `FailureMarked` has recorded the failure.
   */
  datatype Worker =
    | Waiting
    | Storing(job: Job, stored: nat)
    | Marked(job: Job)
    | Recovering(job: Job)
    | FailureMarked(job: Job)

  /** One item accepted by the store. */
  datatype Delivery = Delivery(source: Source, position: nat, item: Item)

  datatype State = State(
    maxSize: nat, sources: map<Source, Config>, store: map<Source, SourceState>,
    queue: seq<Job>, inflight: set<Source>, poller: Poller, workers: seq<Worker>, delivered: set<Delivery>)

  datatype Step =
    | AddSource(config: Config)
    | AddState(config: Config)
    | BeginPoll(todo: seq<Source>)
    | GotState(now: real)
    | GotBatch(batch: Batch)
    | FetchFailed
    | NoteFailure(error: string)
    | ResumePoll
    | BreakPoll
    | TakeJob(w: nat)
    | StoreItem(w: nat)
    | StoreRaises(w: nat, accepted: bool)
    | MarkSuccess(w: nat, now: real)
    | MarkRaises(w: nat)
    | Recover(w: nat, error: string, now: real)
    | Finish(w: nat)
    | CancelWorker(w: nat)
    | Restart

  function Position(cursor: Option<nat>): nat {
    if cursor.Some? then cursor.value else 0
  }

  /** Where in its source's log a job starts. */
  function Base(job: Job): int {
    Position(job.batch.nextCursor) - |job.batch.items|
  }

  predicate Busy(worker: Worker) {
    !worker.Waiting?
  }

  /** An adapter answers with the slice of the log that starts at the cursor it was given. */
  ghost predicate Slice(log: Log, source: Source, batch: Batch, cursor: Option<nat>) {
    && Position(batch.nextCursor) == Position(cursor) + |batch.items|
    && forall i :: 0 <= i < |batch.items| ==> batch.items[i] == log(source, Position(cursor) + i)
  }

  /** Continue the scan of `poll_due` up to its next suspension. */
  function Continue(s: State, todo: seq<Source>): State {
    var (candidate, rest) := Scan(todo, |s.queue| >= s.maxSize, s.inflight);
    s.(poller := if candidate.None? || candidate.value !in s.sources then Resting
                 else Getting(s.sources[candidate.value], rest))
  }

  function Released(s: State, w: nat): State
    requires w < |s.workers| && Busy(s.workers[w])
  {
    s.(inflight := s.inflight - {s.workers[w].job.config.source}, workers := s.workers[w := Waiting])
  }

  ghost predicate Enabled(s: State, log: Log, step: Step) {
    match step
    case AddSource(_) => true
    case AddState(config) => true
    case BeginPoll(todo) => s.poller.Resting? && forall source <- todo :: source in s.sources
    case GotState(_) => s.poller.Getting? && s.poller.config.source in s.store
    case GotBatch(batch) => s.poller.Fetching? && Slice(log, s.poller.config.source, batch, s.poller.state.cursor)
    case FetchFailed => s.poller.Fetching?
    case NoteFailure(_) => s.poller.Handling? && s.poller.config.source in s.store
    case ResumePoll => s.poller.Noted?
    case BreakPoll => !s.poller.Resting?
    case TakeJob(w) => w < |s.workers| && s.workers[w].Waiting? && s.queue != []
    case StoreItem(w) =>
      w < |s.workers| && s.workers[w].Storing? && s.workers[w].stored < |s.workers[w].job.batch.items|
    case StoreRaises(w, _) =>
      w < |s.workers| && s.workers[w].Storing? && s.workers[w].stored < |s.workers[w].job.batch.items|
    case MarkSuccess(w, _) =>
      && w < |s.workers| && s.workers[w].Storing? && s.workers[w].stored == |s.workers[w].job.batch.items|
      && s.workers[w].job.config.source in s.store
    case MarkRaises(w) =>
      && w < |s.workers|
      && (s.workers[w].Marked? || (s.workers[w].Storing? && s.workers[w].stored == |s.workers[w].job.batch.items|))
    case Recover(w, _, _) => w < |s.workers| && s.workers[w].Recovering? && s.workers[w].job.config.source in s.store
    case Finish(w) => w < |s.workers| && (s.workers[w].Marked? || s.workers[w].FailureMarked?)
    case CancelWorker(w) => w < |s.workers| && Busy(s.workers[w])
    case Restart => true
  }

  function Delivering(job: Job, k: nat): Delivery
    requires k < |job.batch.items|
  {
    Delivery(job.config.source, if Base(job) + k < 0 then 0 else Base(job) + k, job.batch.items[k])
  }

  ghost function Next(s: State, log: Log, step: Step): State
    requires Enabled(s, log, step)
  {
    match step
    case AddSource(config) => s.(sources := s.sources[config.source := config])
    case AddState(config) =>
      if config.source in s.store then s else s.(store := s.store[config.source := NewState(config)])
    case BeginPoll(todo) => Continue(s, todo)
    case GotState(now) =>
      var state := s.store[s.poller.config.source];
      if !s.poller.config.enabled || state.health.Disabled? || state.nextRunAt > now then Continue(s, s.poller.todo)
      else s.(poller := Fetching(s.poller.config, state, now, s.poller.todo))
    case GotBatch(batch) =>
      if |s.queue| >= s.maxSize then s.(poller := Resting)  // QueueFull would escape
      else
        Continue(s.(queue := s.queue + [Job(s.poller.config, batch)],
                    inflight := s.inflight + {s.poller.config.source}),
                 s.poller.todo)
    case FetchFailed =>
      s.(poller := Handling(s.poller.config, s.poller.state, s.poller.now, s.poller.todo))
    case NoteFailure(error) =>
      var source := s.poller.config.source;
      var delay := Backoff(s.poller.config.interval, s.poller.state.failures);
      if delay.None? then s.(poller := Resting)  // OverflowError leaves `poll_due`
      else
        s.(store := s.store[source := Failed(s.store[source], error, s.poller.now + delay.value)],
           poller := Noted(s.poller.todo))
    case ResumePoll => Continue(s, s.poller.todo)
    case BreakPoll => s.(poller := Resting)
    case TakeJob(w) => s.(queue := s.queue[1..], workers := s.workers[w := Storing(s.queue[0], 0)])
    case StoreItem(w) =>
      var Storing(job, k) := s.workers[w];
      if job.batch.items[k].source != job.config.source then s.(workers := s.workers[w := Recovering(job)])
      else s.(delivered := s.delivered + {Delivering(job, k)}, workers := s.workers[w := Storing(job, k + 1)])
    case StoreRaises(w, accepted) =>
      var Storing(job, k) := s.workers[w];
      s.(delivered := if accepted && job.batch.items[k].source == job.config.source
                      then s.delivered + {Delivering(job, k)} else s.delivered,
         workers := s.workers[w := Recovering(job)])
    case MarkSuccess(w, now) =>
      var job := s.workers[w].job;
      var source := job.config.source;
      s.(store := s.store[source := Succeeded(s.store[source], job.batch.nextCursor, now + job.config.interval)],
         workers := s.workers[w := Marked(job)])
    case MarkRaises(w) => s.(workers := s.workers[w := Recovering(s.workers[w].job)])
    case Recover(w, error, now) =>
      var job := s.workers[w].job;
      var source := job.config.source;
      var delay := Backoff(job.config.interval, s.store[source].failures);
      if delay.None? then Released(s, w)  // OverflowError passes `finally`
      else
        s.(store := s.store[source := Failed(s.store[source], error, now + delay.value)],
           workers := s.workers[w := FailureMarked(job)])
    case Finish(w) => Released(s, w)
    case CancelWorker(w) => Released(s, w)
    case Restart => Restarted(s)
  }

  /** A new process: the state store and what was delivered are durable, everything else starts afresh. */
  function Restarted(s: State): State {
    s.(sources := map[], queue := [], inflight := {}, poller := Resting, workers := seq(|s.workers|, i => Waiting))
  }

  function Start(maxSize: nat, workers: nat): State {
    State(maxSize, map[], map[], [], {}, Resting, seq(workers, i => Waiting), {})
  }

  ghost predicate Run(steps: seq<Step>, states: seq<State>, log: Log, maxSize: nat, workers: nat) {
    && |states| == |steps| + 1 && states[0] == Start(maxSize, workers)
    && forall i :: 0 <= i < |steps| ==>
         Enabled(states[i], log, steps[i]) && states[i + 1] == Next(states[i], log, steps[i])
  }

  // ---- Capacity and exclusion ----

  /** Sources of the jobs that are queued or being processed. */
  ghost function Active(s: State): set<Source> {
    (set j | 0 <= j < |s.queue| :: s.queue[j].config.source)
    + (set w | 0 <= w < |s.workers| && Busy(s.workers[w]) :: s.workers[w].job.config.source)
  }

  ghost predicate Exclusive(s: State) {
    && (forall i, j :: 0 <= i < j < |s.queue| ==> s.queue[i].config.source != s.queue[j].config.source)
    && (forall v, w :: 0 <= v < w < |s.workers| && Busy(s.workers[v]) && Busy(s.workers[w]) ==>
          s.workers[v].job.config.source != s.workers[w].job.config.source)
    && (forall i, w :: 0 <= i < |s.queue| && 0 <= w < |s.workers| && Busy(s.workers[w]) ==>
          s.queue[i].config.source != s.workers[w].job.config.source)
  }

  /** The poller has read its source's state. */
  predicate HasSnapshot(p: Poller) {
    p.Fetching? || p.Handling?
  }

  ghost predicate Asking(s: State) {
    s.poller.Getting? || HasSnapshot(s.poller)
  }

  ghost predicate Capacity(s: State) {
    && s.inflight == Active(s) && Exclusive(s)
    && |s.queue| <= s.maxSize
    && (Asking(s) ==> |s.queue| < s.maxSize && s.poller.config.source !in s.inflight)
  }

  /** Every registered configuration is filed under its own source. */
  ghost predicate Filed(s: State) {
    forall source <- s.sources :: s.sources[source].source == source
  }

  lemma ContinueKeepsCapacity(s: State, todo: seq<Source>)
    requires Filed(s) && s.inflight == Active(s) && Exclusive(s) && |s.queue| <= s.maxSize
    ensures Capacity(Continue(s, todo)) && Filed(Continue(s, todo))
  {
  }

  lemma ReleaseKeepsCapacity(s: State, w: nat)
    requires Capacity(s) && w < |s.workers| && Busy(s.workers[w])
    ensures Capacity(Released(s, w))
  {
    var t := Released(s, w);
    var source := s.workers[w].job.config.source;
    forall x
      ensures x in Active(t) <==> x in Active(s) && x != source
    {
      if x in Active(s) && x != source && !(exists j :: 0 <= j < |s.queue| && s.queue[j].config.source == x) {
        var v :| 0 <= v < |s.workers| && Busy(s.workers[v]) && s.workers[v].job.config.source == x;
        assert Busy(t.workers[v]) && t.workers[v].job.config.source == x;
      }
    }
  }

  /** A worker that keeps its job changes nothing about who is active. */
  lemma SameJob(s: State, t: State, w: nat, after: Worker)
    requires Capacity(s) && w < |s.workers| && Busy(s.workers[w]) && Busy(after) && after.job == s.workers[w].job
    requires t.maxSize == s.maxSize && t.queue == s.queue && t.inflight == s.inflight && t.poller == s.poller
    requires t.workers == s.workers[w := after]
    ensures Capacity(t)
  {
    forall x
      ensures x in Active(t) <==> x in Active(s)
    {
      if x in Active(s) && !(exists j :: 0 <= j < |s.queue| && s.queue[j].config.source == x) {
        var v :| 0 <= v < |s.workers| && Busy(s.workers[v]) && s.workers[v].job.config.source == x;
        assert Busy(t.workers[v]) && t.workers[v].job.config.source == x;
      }
      if x in Active(t) && !(exists j :: 0 <= j < |s.queue| && s.queue[j].config.source == x) {
        var v :| 0 <= v < |t.workers| && Busy(t.workers[v]) && t.workers[v].job.config.source == x;
        assert Busy(s.workers[v]) && s.workers[v].job.config.source == x;
      }
    }
  }

  lemma EnqueueKeepsExclusion(s: State, job: Job)
    requires s.inflight == Active(s) && Exclusive(s) && |s.queue| < s.maxSize && job.config.source !in s.inflight
    ensures var t := s.(queue := s.queue + [job], inflight := s.inflight + {job.config.source});
            t.inflight == Active(t) && Exclusive(t)
  {
    var t := s.(queue := s.queue + [job], inflight := s.inflight + {job.config.source});
    assert t.queue[|s.queue|] == job;
    forall x
      ensures x in Active(t) <==> x in Active(s) || x == job.config.source
    {
      if x in Active(s) && exists j :: 0 <= j < |s.queue| && s.queue[j].config.source == x {
        var j :| 0 <= j < |s.queue| && s.queue[j].config.source == x;
        assert t.queue[j].config.source == x;
      }
    }
  }

  lemma TakeKeepsCapacity(s: State, w: nat)
    requires Capacity(s) && w < |s.workers| && s.workers[w].Waiting? && s.queue != []
    ensures Capacity(s.(queue := s.queue[1..], workers := s.workers[w := Storing(s.queue[0], 0)]))
  {
    var t := s.(queue := s.queue[1..], workers := s.workers[w := Storing(s.queue[0], 0)]);
    forall x
      ensures x in Active(t) <==> x in Active(s)
    {
      if exists j :: 0 <= j < |s.queue| && s.queue[j].config.source == x {
        var j :| 0 <= j < |s.queue| && s.queue[j].config.source == x;
        if j == 0 {
          assert Busy(t.workers[w]) && t.workers[w].job.config.source == x;
        } else {
          assert t.queue[j - 1].config.source == x;
        }
      } else if x in Active(s) {
        var v :| 0 <= v < |s.workers| && Busy(s.workers[v]) && s.workers[v].job.config.source == x;
        assert Busy(t.workers[v]) && t.workers[v].job.config.source == x;
      }
    }
  }

  /** Who is active depends on the queue and the workers alone. */
  lemma SameWork(s: State, t: State)
    requires t.queue == s.queue && t.workers == s.workers
    ensures Active(t) == Active(s) && (Exclusive(t) <==> Exclusive(s))
  {
  }

  lemma NoWork(s: State)
    requires s.queue == [] && forall w :: 0 <= w < |s.workers| ==> s.workers[w].Waiting?
    ensures Active(s) == {} && Exclusive(s)
  {
  }

  predicate IsWorkerStep(step: Step) {
    step.TakeJob? || step.StoreItem? || step.StoreRaises? || step.MarkSuccess? || step.MarkRaises? || step.Recover?
    || step.Finish? || step.CancelWorker? || step.Restart?
  }

  lemma PollerStepKeepsCapacity(s: State, log: Log, step: Step)
    requires Capacity(s) && Filed(s) && Enabled(s, log, step) && !IsWorkerStep(step)
    ensures Capacity(Next(s, log, step)) && Filed(Next(s, log, step))
  {
    hide Slice, Backoff, Scan, Exclusive, Active;
    var t := Next(s, log, step);
    if step.BeginPoll? {
      ContinueKeepsCapacity(s, step.todo);
    } else if step.ResumePoll? {
      ContinueKeepsCapacity(s, s.poller.todo);
    } else if step.GotState? {
      SameWork(s, t);
      ContinueKeepsCapacity(s, s.poller.todo);
    } else if step.GotBatch? {
      var job := Job(s.poller.config, step.batch);
      EnqueueKeepsExclusion(s, job);
      ContinueKeepsCapacity(s.(queue := s.queue + [job], inflight := s.inflight + {job.config.source}), s.poller.todo);
    } else {
      SameWork(s, t);
    }
  }

  lemma WorkerStepKeepsCapacity(s: State, log: Log, step: Step)
    requires Capacity(s) && Filed(s) && Enabled(s, log, step) && IsWorkerStep(step)
    ensures Capacity(Next(s, log, step)) && Filed(Next(s, log, step))
  {
    hide Slice, Backoff, Scan, Exclusive, Active;
    var t := Next(s, log, step);
    if step.TakeJob? {
      TakeKeepsCapacity(s, step.w);
    } else if step.Restart? {
      NoWork(t);
    } else if Busy(t.workers[step.w]) {
      SameJob(s, t, step.w, t.workers[step.w]);
    } else {
      ReleaseKeepsCapacity(s, step.w);
    }
  }

  lemma StepKeepsCapacity(s: State, log: Log, step: Step)
    requires Capacity(s) && Filed(s) && Enabled(s, log, step)
    ensures Capacity(Next(s, log, step)) && Filed(Next(s, log, step))
  {
    hide Capacity, Filed, Enabled, Next;
    if IsWorkerStep(step) {
      WorkerStepKeepsCapacity(s, log, step);
    } else {
      PollerStepKeepsCapacity(s, log, step);
    }
  }

  // ---- No data is skipped ----

  ghost predicate DeliveredUpTo(s: State, log: Log, source: Source, position: int) {
    forall p: nat :: p < position ==> Delivery(source, p, log(source, p)) in s.delivered
  }

  /** The job continues its source's log exactly where the stored cursor stands. */
  ghost predicate Continues(s: State, log: Log, job: Job) {
    var source := job.config.source;
    && source in s.store && Base(job) == Position(s.store[source].cursor)
    && forall i :: 0 <= i < |job.batch.items| ==> job.batch.items[i] == log(source, Base(job) + i)
  }

  ghost predicate DataSafe(s: State, log: Log) {
    && (forall d <- s.delivered :: d.item.source == d.source)
    && (forall source <- s.store :: DeliveredUpTo(s, log, source, Position(s.store[source].cursor)))
    && (forall j <- s.queue :: Continues(s, log, j))
    && (forall w <- s.workers :: w.Storing? ==>
          && Continues(s, log, w.job) && w.stored <= |w.job.batch.items|
          && DeliveredUpTo(s, log, w.job.config.source, Base(w.job) + w.stored))
    && (HasSnapshot(s.poller) ==>
          s.poller.config.source in s.store && s.store[s.poller.config.source] == s.poller.state)
  }

  /** Steps that move neither a cursor nor a job's progress. */
  lemma SafeFrame(s: State, t: State, log: Log)
    requires DataSafe(s, log)
    requires s.delivered <= t.delivered && forall d <- t.delivered :: d.item.source == d.source
    requires s.store.Keys <= t.store.Keys
    requires forall source <- t.store :: if source in s.store then t.store[source].cursor == s.store[source].cursor
                                         else t.store[source].cursor == None
    requires forall j <- t.queue :: j in s.queue
    requires forall w <- t.workers :: w.Storing? ==> w in s.workers || (w.stored == 0 && w.job in s.queue)
    requires HasSnapshot(t.poller) ==>
               t.poller.config.source in t.store && t.poller.state == t.store[t.poller.config.source]
    ensures DataSafe(t, log)
  {
    forall source <- t.store
      ensures DeliveredUpTo(t, log, source, Position(t.store[source].cursor))
    {
      if source in s.store {
        assert DeliveredUpTo(s, log, source, Position(s.store[source].cursor));
      }
    }
    forall w <- t.workers | w.Storing?
      ensures Continues(t, log, w.job) && w.stored <= |w.job.batch.items|
              && DeliveredUpTo(t, log, w.job.config.source, Base(w.job) + w.stored)
    {
      if w in s.workers {
        assert DeliveredUpTo(s, log, w.job.config.source, Base(w.job) + w.stored);
      } else {
        assert Continues(s, log, w.job);
        assert DeliveredUpTo(s, log, w.job.config.source, Position(s.store[w.job.config.source].cursor));
      }
    }
    forall j <- t.queue
      ensures Continues(t, log, j)
    {
      assert Continues(s, log, j);
    }
  }

  lemma GotBatchIsSafe(s: State, log: Log, batch: Batch)
    requires Capacity(s) && DataSafe(s, log) && Enabled(s, log, GotBatch(batch))
    ensures DataSafe(Next(s, log, GotBatch(batch)), log)
  {
    var job := Job(s.poller.config, batch);
    var mid := s.(queue := s.queue + [job], inflight := s.inflight + {s.poller.config.source}, poller := Resting);
    assert Continues(mid, log, job);
    forall j <- mid.queue
      ensures Continues(mid, log, j)
    {
      assert j in s.queue ==> Continues(s, log, j);
    }
    forall w <- s.workers | w.Storing?
      ensures Continues(mid, log, w.job) && DeliveredUpTo(mid, log, w.job.config.source, Base(w.job) + w.stored)
    {
      assert Continues(s, log, w.job) && DeliveredUpTo(s, log, w.job.config.source, Base(w.job) + w.stored);
    }
    forall source <- s.store
      ensures DeliveredUpTo(mid, log, source, Position(s.store[source].cursor))
    {
      assert DeliveredUpTo(s, log, source, Position(s.store[source].cursor));
    }
    SafeFrame(mid, Next(s, log, GotBatch(batch)), log);
  }

  lemma StoreItemIsSafe(s: State, log: Log, w: nat)
    requires Capacity(s) && DataSafe(s, log) && Enabled(s, log, StoreItem(w))
    ensures DataSafe(Next(s, log, StoreItem(w)), log)
  {
    var t := Next(s, log, StoreItem(w));
    var Storing(job, k) := s.workers[w];
    assert s.workers[w] in s.workers;
    if job.batch.items[k].source != job.config.source {
      SafeFrame(s, t, log);
    } else {
      var lesser := t.(workers := s.workers);
      SafeFrame(s, lesser, log);
      forall v <- t.workers | v.Storing?
        ensures Continues(t, log, v.job) && v.stored <= |v.job.batch.items|
                && DeliveredUpTo(t, log, v.job.config.source, Base(v.job) + v.stored)
      {
        if v in s.workers {
          assert DeliveredUpTo(lesser, log, v.job.config.source, Base(v.job) + v.stored);
        } else {
          assert v == Storing(job, k + 1);
          assert DeliveredUpTo(lesser, log, job.config.source, Base(job) + k);
        }
      }
      forall j <- t.queue
        ensures Continues(t, log, j)
      {
        assert Continues(lesser, log, j);
      }
      forall source <- t.store
        ensures DeliveredUpTo(t, log, source, Position(t.store[source].cursor))
      {
        assert DeliveredUpTo(lesser, log, source, Position(s.store[source].cursor));
      }
    }
  }

  lemma MarkSuccessIsSafe(s: State, log: Log, w: nat, now: real)
    requires Capacity(s) && DataSafe(s, log) && Enabled(s, log, MarkSuccess(w, now))
    ensures DataSafe(Next(s, log, MarkSuccess(w, now)), log)
  {
    var t := Next(s, log, MarkSuccess(w, now));
    var job := s.workers[w].job;
    assert s.workers[w] in s.workers && Busy(s.workers[w]);
    forall source <- t.store
      ensures DeliveredUpTo(t, log, source, Position(t.store[source].cursor))
    {
      if source == job.config.source {
        assert DeliveredUpTo(s, log, source, Base(job) + |job.batch.items|);
      } else {
        assert DeliveredUpTo(s, log, source, Position(s.store[source].cursor));
      }
    }
    forall j <- t.queue
      ensures Continues(t, log, j)
    {
      var i :| 0 <= i < |s.queue| && s.queue[i] == j;
      assert Continues(s, log, j);
    }
    forall v <- t.workers | v.Storing?
      ensures Continues(t, log, v.job) && DeliveredUpTo(t, log, v.job.config.source, Base(v.job) + v.stored)
    {
      var i :| 0 <= i < |t.workers| && t.workers[i] == v;
      assert i != w && s.workers[i] == v && v in s.workers;
      assert v.job.config.source != job.config.source;
      assert Continues(s, log, v.job) && DeliveredUpTo(s, log, v.job.config.source, Base(v.job) + v.stored);
    }
    assert HasSnapshot(s.poller) ==> s.poller.config.source != job.config.source by {
      assert job.config.source in Active(s);
    }
  }

  lemma PollerStepIsSafe(s: State, log: Log, step: Step)
    requires DataSafe(s, log) && Enabled(s, log, step) && !IsWorkerStep(step) && !step.GotBatch?
    ensures DataSafe(Next(s, log, step), log)
  {
    hide DeliveredUpTo, Continues;
    SafeFrame(s, Next(s, log, step), log);
  }

  lemma WorkerStepIsSafe(s: State, log: Log, step: Step)
    requires Capacity(s) && DataSafe(s, log) && Enabled(s, log, step)
    requires IsWorkerStep(step) && !step.StoreItem? && !step.MarkSuccess?
    ensures DataSafe(Next(s, log, step), log)
  {
    hide DeliveredUpTo, Continues;
    if step.TakeJob? {
      assert s.queue[0] in s.queue;
    } else if step.Recover? && HasSnapshot(s.poller) {
      assert s.workers[step.w].job.config.source in Active(s);
    }
    SafeFrame(s, Next(s, log, step), log);
  }

  lemma StepKeepsDataSafe(s: State, log: Log, step: Step)
    requires Capacity(s) && DataSafe(s, log) && Enabled(s, log, step)
    ensures DataSafe(Next(s, log, step), log)
  {
    hide Capacity, DataSafe, Next, Enabled;
    if step.GotBatch? {
      GotBatchIsSafe(s, log, step.batch);
    } else if step.StoreItem? {
      StoreItemIsSafe(s, log, step.w);
    } else if step.MarkSuccess? {
      MarkSuccessIsSafe(s, log, step.w, step.now);
    } else if IsWorkerStep(step) {
      WorkerStepIsSafe(s, log, step);
    } else {
      PollerStepIsSafe(s, log, step);
    }
  }

  lemma SizeStays(s: State, log: Log, step: Step)
    requires Enabled(s, log, step)
    ensures Next(s, log, step).maxSize == s.maxSize
  {
    hide Backoff, Scan;
  }

  lemma {:induction false} RunIsSafe(steps: seq<Step>, states: seq<State>, log: Log, maxSize: nat, workers: nat, n: nat)
    requires Run(steps, states, log, maxSize, workers) && n < |states|
    ensures Capacity(states[n]) && Filed(states[n]) && DataSafe(states[n], log) && states[n].maxSize == maxSize
  {
    if n == 0 {
      NoWork(states[0]);
    } else {
      RunIsSafe(steps, states, log, maxSize, workers, n - 1);
      hide Enabled, Next, Capacity, Filed, DataSafe;
      SizeStays(states[n - 1], log, steps[n - 1]);
      StepKeepsCapacity(states[n - 1], log, steps[n - 1]);
      StepKeepsDataSafe(states[n - 1], log, steps[n - 1]);
    }
  }

  // ---- Main results ----

  /**
   * In every interleaving, every item before a stored cursor was accepted by the store. An item
   * that names another source is therefore never passed: it holds its source's cursor back.
   */
  lemma IngestionNeverSkips(steps: seq<Step>, states: seq<State>, log: Log, maxSize: nat, workers: nat, n: nat,
                            source: Source)
    requires Run(steps, states, log, maxSize, workers) && n < |states| && source in states[n].store
    ensures forall p: nat :: p < Position(states[n].store[source].cursor) ==>
              Delivery(source, p, log(source, p)) in states[n].delivered
    ensures forall p: nat :: log(source, p).source != source ==> Position(states[n].store[source].cursor) <= p
  {
    RunIsSafe(steps, states, log, maxSize, workers, n);
    assert DeliveredUpTo(states[n], log, source, Position(states[n].store[source].cursor));
    forall p: nat | p < Position(states[n].store[source].cursor)
      ensures log(source, p).source == source
    {
      assert Delivery(source, p, log(source, p)) in states[n].delivered;
    }
  }

  /** Everything the store accepted is an item of the log, at the position it is filed under. */
  lemma {:induction false} NothingIsInvented(steps: seq<Step>, states: seq<State>, log: Log, maxSize: nat,
                                             workers: nat, n: nat)
    requires Run(steps, states, log, maxSize, workers) && n < |states|
    ensures forall d <- states[n].delivered :: d.item == log(d.source, d.position) && d.item.source == d.source
  {
    hide Capacity, Filed, DataSafe, Run, Next, Enabled;
    if n == 0 {
      StartIsEmpty(steps, states, log, maxSize, workers);
    } else {
      RunGoesOn(steps, states, log, maxSize, workers, n - 1);
      NothingIsInvented(steps, states, log, maxSize, workers, n - 1);
      RunIsSafe(steps, states, log, maxSize, workers, n - 1);
      StepDelivers(states[n - 1], log, steps[n - 1]);
    }
  }

  lemma StepDelivers(s: State, log: Log, step: Step)
    requires DataSafe(s, log) && Enabled(s, log, step)
    ensures forall d <- Next(s, log, step).delivered ::
              d in s.delivered || (d.item == log(d.source, d.position) && d.item.source == d.source)
  {
    hide Slice, Scan, DeliveredUpTo, Backoff;
    if step.StoreItem? || step.StoreRaises? {
      assert s.workers[step.w] in s.workers;
      assert Continues(s, log, s.workers[step.w].job);
    }
  }

  /**
   * A stored cursor moves at one step only, the success mark of the one job of its source, and
   * then forward by exactly that job's items; failures, mismatches and cancellation leave it.
   */
  lemma CursorsOnlyAdvance(steps: seq<Step>, states: seq<State>, log: Log, maxSize: nat, workers: nat, n: nat,
                           source: Source)
    requires Run(steps, states, log, maxSize, workers) && n < |steps| && source in states[n].store
    ensures source in states[n + 1].store
    ensures var before, after := states[n].store[source].cursor, states[n + 1].store[source].cursor;
            if steps[n].MarkSuccess? && states[n].workers[steps[n].w].job.config.source == source then
              Position(after) == Position(before) + |states[n].workers[steps[n].w].job.batch.items|
            else after == before
  {
    RunIsSafe(steps, states, log, maxSize, workers, n);
    hide Enabled, Next, DataSafe;
    StepMovesCursor(states[n], log, steps[n], source);
  }

  lemma StepMovesCursor(s: State, log: Log, step: Step, source: Source)
    requires DataSafe(s, log) && Enabled(s, log, step) && source in s.store
    ensures source in Next(s, log, step).store
    ensures var before, after := s.store[source].cursor, Next(s, log, step).store[source].cursor;
            if step.MarkSuccess? && s.workers[step.w].job.config.source == source then
              Position(after) == Position(before) + |s.workers[step.w].job.batch.items|
            else after == before
  {
    if step.MarkSuccess? {
      assert s.workers[step.w] in s.workers;
      assert Continues(s, log, s.workers[step.w].job);
    }
    hide DataSafe, Slice, Continue, Backoff, NewState;
  }

  /**
   * The in-flight set is exact, a source never has two jobs, the queue never exceeds its bound,
   * and the put after a fetch finds room although a suspension separates it from the check.
   */
  lemma CapacityIsRespected(steps: seq<Step>, states: seq<State>, log: Log, maxSize: nat, workers: nat, n: nat)
    requires Run(steps, states, log, maxSize, workers) && n < |states|
    ensures states[n].inflight == Active(states[n]) && Exclusive(states[n])
    ensures |states[n].queue| <= maxSize
    ensures n < |steps| && steps[n].GotBatch? ==>
              |states[n].queue| < maxSize && states[n].poller.config.source !in states[n].inflight
  {
    RunIsSafe(steps, states, log, maxSize, workers, n);
  }

  /** The source whose success mark the step is. */
  ghost function Marking(s: State, step: Step): Option<Source> {
    if step.MarkSuccess? && step.w < |s.workers| && s.workers[step.w].Storing?
    then Some(s.workers[step.w].job.config.source) else None
  }

  /** The source whose failure the step would record. */
  ghost function Noting(s: State, step: Step): Option<Source> {
    if step.NoteFailure? && s.poller.Handling? then Some(s.poller.config.source)
    else if step.Recover? && step.w < |s.workers| && s.workers[step.w].Recovering?
    then Some(s.workers[step.w].job.config.source) else None
  }

  /** The failures recorded for a source in the first `n` steps since its last success mark, up to 1024. */
  ghost function Streak(steps: seq<Step>, states: seq<State>, source: Source, n: nat): nat
    requires n <= |steps| < |states|
  {
    if n == 0 then 0
    else if Marking(states[n - 1], steps[n - 1]) == Some(source) then 0
    else
      var before := Streak(steps, states, source, n - 1);
      if Noting(states[n - 1], steps[n - 1]) == Some(source) && before < 1024 then before + 1 else before
  }

  /** In every run the failure count of a source is its streak: a success mark alone ends it. */
  lemma {:induction false} FailuresAreAStreak(steps: seq<Step>, states: seq<State>, log: Log, maxSize: nat,
                                              workers: nat, n: nat, source: Source)
    requires Run(steps, states, log, maxSize, workers) && n < |states|
    ensures (if source in states[n].store then states[n].store[source].failures else 0)
            == Streak(steps, states, source, n)
  {
    hide Capacity, Filed, DataSafe, Run, Next, Enabled, Marking, Noting;
    if n == 0 {
      StartIsEmpty(steps, states, log, maxSize, workers);
    } else {
      RunGoesOn(steps, states, log, maxSize, workers, n - 1);
      FailuresAreAStreak(steps, states, log, maxSize, workers, n - 1, source);
      RunIsSafe(steps, states, log, maxSize, workers, n - 1);
      StepCountsFailures(states[n - 1], log, steps[n - 1], source);
    }
  }

  lemma StepCountsFailures(s: State, log: Log, step: Step, source: Source)
    requires DataSafe(s, log) && Enabled(s, log, step)
    ensures var t := Next(s, log, step);
            var before := if source in s.store then s.store[source].failures else 0;
            (if source in t.store then t.store[source].failures else 0)
            == if Marking(s, step) == Some(source) then 0
               else if Noting(s, step) == Some(source) && before < 1024 then before + 1 else before
  {
    hide Slice, Scan, DeliveredUpTo, Continues, Delay;
  }

  /** The wait after a failure, up to an hour. */
  ghost function Wait(interval: real, streak: nat): real {
    var delay := interval * TwoTo(streak) as real;
    if delay <= 3600.0 then delay else 3600.0
  }

  /**
   * What a step of a run does to the stored state of a source. A success mark stores the job's cursor
   * and plans the next run an interval later; a recorded failure plans it one wait later, by the streak
   * that ends there, and keeps the cursor; a new source starts afresh; nothing else changes anything.
   */
  lemma StoreFollowsSteps(steps: seq<Step>, states: seq<State>, log: Log, maxSize: nat, workers: nat, n: nat,
                          source: Source)
    requires Run(steps, states, log, maxSize, workers) && n < |steps|
    ensures source in states[n + 1].store <==>
              source in states[n].store || (steps[n].AddState? && steps[n].config.source == source)
    ensures source !in states[n].store && source in states[n + 1].store ==>
              states[n + 1].store[source] == SourceState(source, steps[n].config.rung, None, Unknown, 0, None, 0.0)
    ensures source in states[n].store ==>
              var s, step, before := states[n], steps[n], states[n].store[source];
              var streak := Streak(steps, states, source, n);
              states[n + 1].store[source] ==
              if Marking(s, step) == Some(source) then
                var job := s.workers[step.w].job;
                SourceState(before.source, before.rung, job.batch.nextCursor, Healthy, 0, None,
                            step.now + job.config.interval)
              else if Noting(s, step) == Some(source) && streak < 1024 then
                SourceState(before.source, before.rung, before.cursor, Degraded, streak + 1, Some(step.error),
                            if step.NoteFailure? then s.poller.now + Wait(s.poller.config.interval, streak)
                            else step.now + Wait(s.workers[step.w].job.config.interval, streak))
              else before
  {
    FailuresAreAStreak(steps, states, log, maxSize, workers, n, source);
    RunIsSafe(steps, states, log, maxSize, workers, n);
    hide Capacity, Filed, DataSafe, Next, Enabled, Streak, Marking, Noting, Wait;
    StepStores(states[n], log, steps[n], source);
  }

  lemma StepStores(s: State, log: Log, step: Step, source: Source)
    requires DataSafe(s, log) && Enabled(s, log, step)
    ensures source in Next(s, log, step).store <==>
              source in s.store || (step.AddState? && step.config.source == source)
    ensures source !in s.store && source in Next(s, log, step).store ==>
              Next(s, log, step).store[source]
              == SourceState(source, step.config.rung, None, Unknown, 0, None, 0.0)
    ensures source in s.store ==>
              var before := s.store[source];
              Next(s, log, step).store[source] ==
              if Marking(s, step) == Some(source) then
                var job := s.workers[step.w].job;
                SourceState(before.source, before.rung, job.batch.nextCursor, Healthy, 0, None,
                            step.now + job.config.interval)
              else if Noting(s, step) == Some(source) && before.failures < 1024 then
                SourceState(before.source, before.rung, before.cursor, Degraded, before.failures + 1, Some(step.error),
                            if step.NoteFailure? then s.poller.now + Wait(s.poller.config.interval, before.failures)
                            else step.now + Wait(s.workers[step.w].job.config.interval, before.failures))
              else before
  {
    hide Slice, Scan, DeliveredUpTo, Continues;
  }

  /** The jobs queued and the jobs taken in the first `n` steps, since the last restart. */
  ghost function Queued(steps: seq<Step>, states: seq<State>, n: nat): seq<Job>
    requires n <= |steps| < |states|
  {
    if n == 0 || steps[n - 1].Restart? then []
    else
      var before := Queued(steps, states, n - 1);
      if steps[n - 1].GotBatch? && states[n - 1].poller.Fetching?
      then before + [Job(states[n - 1].poller.config, steps[n - 1].batch)] else before
  }

  ghost function Taken(steps: seq<Step>, states: seq<State>, n: nat): seq<Job>
    requires n <= |steps| < |states|
  {
    if n == 0 || steps[n - 1].Restart? then []
    else
      var before := Taken(steps, states, n - 1);
      if steps[n - 1].TakeJob? && steps[n - 1].w < |states[n].workers| && states[n].workers[steps[n - 1].w].Storing?
      then before + [states[n].workers[steps[n - 1].w].job] else before
  }

  /** Workers start the fetched batches in the order they were fetched, and none is lost before a restart. */
  lemma {:induction false} JobsRunInOrder(steps: seq<Step>, states: seq<State>, log: Log, maxSize: nat,
                                          workers: nat, n: nat)
    requires Run(steps, states, log, maxSize, workers) && n < |states|
    ensures Queued(steps, states, n) == Taken(steps, states, n) + states[n].queue
  {
    hide Capacity, Filed, DataSafe, Run, Next, Enabled;
    if n == 0 {
      StartIsEmpty(steps, states, log, maxSize, workers);
    } else {
      RunGoesOn(steps, states, log, maxSize, workers, n - 1);
      JobsRunInOrder(steps, states, log, maxSize, workers, n - 1);
      RunIsSafe(steps, states, log, maxSize, workers, n - 1);
      StepMovesJobs(states[n - 1], log, steps[n - 1]);
    }
  }

  lemma StepMovesJobs(s: State, log: Log, step: Step)
    requires Capacity(s) && Enabled(s, log, step)
    ensures var t := Next(s, log, step);
            if step.Restart? then t.queue == []
            else if step.GotBatch? then s.poller.Fetching? && t.queue == s.queue + [Job(s.poller.config, step.batch)]
            else if step.TakeJob? then
              step.w < |t.workers| && t.workers[step.w].Storing? && s.queue == [t.workers[step.w].job] + t.queue
            else t.queue == s.queue
  {
    hide Slice, Scan, Active, Exclusive, Backoff;
  }

  /** A fetch is started exactly for an enabled source that is due, and never for one already in flight. */
  lemma FetchesExactlyWhenDue(steps: seq<Step>, states: seq<State>, log: Log, maxSize: nat, workers: nat, n: nat)
    requires Run(steps, states, log, maxSize, workers) && n < |steps| && steps[n].GotState?
    ensures states[n].poller.Getting? && states[n].poller.config.source in states[n].store
    ensures var config := states[n].poller.config;
            var state := states[n].store[config.source];
            && (states[n + 1].poller.Fetching? <==>
                  config.enabled && state.health != Disabled && state.nextRunAt <= steps[n].now)
            && (states[n + 1].poller.Fetching? ==>
                  && states[n + 1].poller.config == config && states[n + 1].poller.state == state
                  && config.source !in states[n].inflight)
  {
    RunIsSafe(steps, states, log, maxSize, workers, n);
    hide Scan;
  }

  /** Nothing but the answer of the state store starts a fetch. */
  lemma FetchesOnlyWhenDue(steps: seq<Step>, states: seq<State>, log: Log, maxSize: nat, workers: nat, n: nat)
    requires Run(steps, states, log, maxSize, workers) && n < |steps|
    requires !states[n].poller.Fetching? && states[n + 1].poller.Fetching?
    ensures steps[n].GotState?
    ensures var p := states[n + 1].poller;
            && p.config.enabled && p.state == states[n].store[p.config.source]
            && !p.state.health.Disabled? && p.state.nextRunAt <= steps[n].now
            && p.config.source !in states[n].inflight
  {
    RunIsSafe(steps, states, log, maxSize, workers, n);
  }

  /** The sources the poll has not come to yet. */
  ghost function Remaining(p: Poller): seq<Source> {
    if p.Resting? then [] else p.todo
  }

  ghost predicate AllKnown(s: State) {
    forall source <- Remaining(s.poller) :: source in s.sources
  }

  lemma StepKeepsKnown(s: State, log: Log, step: Step)
    requires AllKnown(s) && Enabled(s, log, step)
    ensures AllKnown(Next(s, log, step))
  {
    hide Slice, Backoff, Succeeded, Failed, NewState;
  }

  lemma {:induction false} PollKnowsItsSources(steps: seq<Step>, states: seq<State>, log: Log, maxSize: nat,
                                               workers: nat, n: nat)
    requires Run(steps, states, log, maxSize, workers) && n < |states|
    ensures AllKnown(states[n])
  {
    hide AllKnown, Run, Next, Enabled;
    if n == 0 {
      NothingToPoll(steps, states, log, maxSize, workers);
    } else {
      RunGoesOn(steps, states, log, maxSize, workers, n - 1);
      PollKnowsItsSources(steps, states, log, maxSize, workers, n - 1);
      StepKeepsKnown(states[n - 1], log, steps[n - 1]);
    }
  }

  lemma NothingToPoll(steps: seq<Step>, states: seq<State>, log: Log, maxSize: nat, workers: nat)
    requires Run(steps, states, log, maxSize, workers)
    ensures |states| > 0 && AllKnown(states[0])
  {
  }

  /** The poll looks for its next source in `todo`. */
  ghost predicate LooksOn(s: State, step: Step, t: State, todo: seq<Source>) {
    || (step.BeginPoll? && todo == step.todo)
    || (step.GotState? && s.poller.Getting? && !t.poller.Fetching? && todo == s.poller.todo)
    || ((step.GotBatch? || step.ResumePoll?) && !s.poller.Resting? && todo == s.poller.todo)
  }

  /**
   * A poll leaves out no source: when it is done with one it asks for the first of the others that is not
   * in flight, and rests only when the queue is full or all of them are.
   */
  lemma PollGoesOn(steps: seq<Step>, states: seq<State>, log: Log, maxSize: nat, workers: nat, n: nat,
                   todo: seq<Source>)
    requires Run(steps, states, log, maxSize, workers) && n < |steps|
    requires LooksOn(states[n], steps[n], states[n + 1], todo)
    ensures var t := states[n + 1];
            if |t.queue| >= maxSize || forall source <- todo :: source in t.inflight then t.poller == Resting
            else exists k :: && 0 <= k < |todo| && todo[k] in t.sources && todo[k] !in t.inflight
                             && (forall i :: 0 <= i < k ==> todo[i] in t.inflight)
                             && t.poller == Getting(t.sources[todo[k]], todo[k + 1..])
  {
    RunIsSafe(steps, states, log, maxSize, workers, n);
    RunIsSafe(steps, states, log, maxSize, workers, n + 1);
    PollKnowsItsSources(steps, states, log, maxSize, workers, n);
    RunGoesOn(steps, states, log, maxSize, workers, n);
    hide Run, Capacity, Filed, DataSafe;
    StepLooksOn(states[n], log, steps[n], todo);
  }

  lemma StepLooksOn(s: State, log: Log, step: Step, todo: seq<Source>)
    requires Enabled(s, log, step) && LooksOn(s, step, Next(s, log, step), todo) && AllKnown(s)
    requires step.GotBatch? ==> |s.queue| < s.maxSize
    ensures var t := Next(s, log, step);
            if |t.queue| >= s.maxSize || forall source <- todo :: source in t.inflight then t.poller == Resting
            else exists k :: && 0 <= k < |todo| && todo[k] in t.sources && todo[k] !in t.inflight
                             && (forall i :: 0 <= i < k ==> todo[i] in t.inflight)
                             && t.poller == Getting(t.sources[todo[k]], todo[k + 1..])
  {
    hide Slice, Backoff, Scan, NewState;
    var t := Next(s, log, step);
    assert forall source <- todo :: source in s.sources;
    assert t.sources == s.sources && t.poller == Continue(t, todo).poller;
  }

  // ---- When a failure cannot be recorded ----

  /** While a fetch is pending or its failure is handled, the state read before it is still what the store holds. */
  lemma SnapshotIsCurrent(steps: seq<Step>, states: seq<State>, log: Log, maxSize: nat, workers: nat, n: nat)
    requires Run(steps, states, log, maxSize, workers) && n < |states| && HasSnapshot(states[n].poller)
    ensures var source := states[n].poller.config.source;
            source in states[n].store && states[n].store[source] == states[n].poller.state
  {
    RunIsSafe(steps, states, log, maxSize, workers, n);
  }

  /** Where failures are handled: in the poll, or in a worker's job. */
  datatype Handler = ThePoll | OfWorker(w: nat)

  /** The source whose failure is being handled there. */
  function Failing(s: State, h: Handler): Option<Source> {
    match h
    case ThePoll => if s.poller.Handling? then Some(s.poller.config.source) else None
    case OfWorker(w) =>
      if w < |s.workers| && s.workers[w].Recovering? then Some(s.workers[w].job.config.source) else None
  }

  /** The handler reached its end, below the overflow: it was neither cancelled, broken off nor restarted. */
  predicate Records(s: State, h: Handler, step: Step, source: Source) {
    && (if h.ThePoll? then step.NoteFailure? else step.Recover? && step.w == h.w)
    && source in s.store && s.store[source].failures < FLOAT_EXPONENTS
  }

  /**
   * Whatever ends the handling of a failure, the failure is recorded if and only if the handler
   * reaches its end with fewer than 1024 failures recorded. Cancellation, a poll broken off, a restart
   * and the overflow leave the store as it was.
   */
  lemma FailureIsRecordedExactlyWhen(steps: seq<Step>, states: seq<State>, log: Log, maxSize: nat, workers: nat, n: nat,
                                     h: Handler)
    requires Run(steps, states, log, maxSize, workers) && n < |steps|
    requires Failing(states[n], h).Some? && Failing(states[n + 1], h).None?
    ensures var source, s, t := Failing(states[n], h).value, states[n], states[n + 1];
            if Records(s, h, steps[n], source) then
              && source in t.store && t.store == s.store[source := t.store[source]]
              && t.store[source].failures == s.store[source].failures + 1 && t.store[source].health.Degraded?
            else t.store == s.store
  {
    RunIsSafe(steps, states, log, maxSize, workers, n);
    hide Capacity, Filed, Continue, Slice, NewState, Succeeded, Run;
    HandlingEnds(states[n], log, steps[n], h);
  }

  /** The steps that can end the handling of a failure. */
  lemma HandlingEnds(s: State, log: Log, step: Step, h: Handler)
    requires Enabled(s, log, step) && Failing(s, h).Some? && Failing(Next(s, log, step), h).None?
    ensures if h.ThePoll? then step.NoteFailure? || step.BreakPoll? || step.Restart?
            else (step.Recover? && step.w == h.w) || (step.CancelWorker? && step.w == h.w) || step.Restart?
  {
    hide Backoff, Slice, Scan;
  }

  /** So no run ever records more than 1024 failures in a row. */
  lemma {:induction false} FailuresStayBounded(steps: seq<Step>, states: seq<State>, log: Log, maxSize: nat,
                                               workers: nat, n: nat, source: Source)
    requires Run(steps, states, log, maxSize, workers) && n < |states| && source in states[n].store
    ensures states[n].store[source].failures <= FLOAT_EXPONENTS
  {
    hide Capacity, Filed, DataSafe, Run, Next, Enabled;
    if n == 0 {
      StartIsEmpty(steps, states, log, maxSize, workers);
    } else {
      RunGoesOn(steps, states, log, maxSize, workers, n - 1);
      if source in states[n - 1].store {
        FailuresStayBounded(steps, states, log, maxSize, workers, n - 1, source);
      }
      RunIsSafe(steps, states, log, maxSize, workers, n - 1);
      FailuresGrowByOne(states[n - 1], log, steps[n - 1], source);
    }
  }

  lemma StartIsEmpty(steps: seq<Step>, states: seq<State>, log: Log, maxSize: nat, workers: nat)
    requires Run(steps, states, log, maxSize, workers)
    ensures |states| > 0 && states[0].store == map[] && states[0].queue == [] && states[0].delivered == {}
  {
  }

  lemma RunGoesOn(steps: seq<Step>, states: seq<State>, log: Log, maxSize: nat, workers: nat, n: nat)
    requires Run(steps, states, log, maxSize, workers) && n + 1 < |states|
    ensures n < |steps| && Enabled(states[n], log, steps[n]) && states[n + 1] == Next(states[n], log, steps[n])
  {
    hide Enabled, Next;
  }

  lemma FailuresGrowByOne(s: State, log: Log, step: Step, source: Source)
    requires DataSafe(s, log) && Enabled(s, log, step) && source in Next(s, log, step).store
    requires source in s.store ==> s.store[source].failures <= FLOAT_EXPONENTS
    ensures Next(s, log, step).store[source].failures <= FLOAT_EXPONENTS
  {
    hide Slice, Scan, DeliveredUpTo, Continues;
  }

  /** Nothing is going on but `config`, whose source is in this state. */
  function Quiet(config: Config, state: SourceState): State {
    State(1, map[config.source := config], map[config.source := state], [], {}, Resting, [], {})
  }

  /** One more poll of the failing source, and the states it passes through. */
  lemma FailOnce(log: Log, config: Config, state: SourceState) returns (steps: seq<Step>, states: seq<State>)
    requires config.enabled && state.source == config.source && !state.health.Disabled?
    ensures steps == [BeginPoll([config.source]), GotState(state.nextRunAt), FetchFailed, NoteFailure(""), ResumePoll]
    ensures |states| == 5 && states[0] == Quiet(config, state)
    ensures forall i :: 0 <= i < 4 ==>
              Enabled(states[i], log, steps[i]) && states[i + 1] == Next(states[i], log, steps[i])
    ensures Failing(states[3], ThePoll) == Some(config.source) && Failing(states[4], ThePoll) == None
    ensures if state.failures < FLOAT_EXPONENTS then
              && Enabled(states[4], log, steps[4])
              && var t := Next(states[4], log, steps[4]);
                 config.source in t.store && t == Quiet(config, t.store[config.source])
                 && t.store[config.source].failures == state.failures + 1
                 && t.store[config.source].source == config.source && t.store[config.source].health.Degraded?
            else states[4] == states[0]
  {
    hide Backoff;
    var source := config.source;
    steps := [BeginPoll([source]), GotState(state.nextRunAt), FetchFailed, NoteFailure(""), ResumePoll];
    var s0 := Quiet(config, state);
    assert [source][1..] == [];
    assert Scan([source], false, {}) == (Some(source), []);
    var s1 := Next(s0, log, steps[0]);
    assert s1 == s0.(poller := Getting(config, []));
    var s2 := Next(s1, log, steps[1]);
    assert s2 == s0.(poller := Fetching(config, state, state.nextRunAt, []));
    var s3 := Next(s2, log, steps[2]);
    assert s3 == s0.(poller := Handling(config, state, state.nextRunAt, []));
    BackoffExists(config.interval, state.failures);
    var s4 := Next(s3, log, steps[3]);
    states := [s0, s1, s2, s3, s4];
    if state.failures < FLOAT_EXPONENTS {
      assert s4.poller == Noted([]);
      var failed := s4.store[source];
      assert s4.store == map[source := failed];
    }
  }

  lemma BackoffExists(interval: real, failures: nat)
    ensures Backoff(interval, failures).Some? <==> failures < FLOAT_EXPONENTS
  {
  }

  /** A run from a fresh scheduler in which the source fails `n` times in a row. */
  lemma {:induction false} FailingRun(log: Log, config: Config, n: nat) returns (steps: seq<Step>, states: seq<State>)
    requires config.enabled && n <= FLOAT_EXPONENTS
    ensures Run(steps, states, log, 1, 0) && |states| == |steps| + 1
    ensures var last := states[|steps|];
            && config.source in last.store && var state := last.store[config.source];
            && last == Quiet(config, state) && state.source == config.source
            && state.failures == n && !state.health.Disabled?
  {
    if n == 0 {
      steps, states := FirstStepsWith(log, config, 0);
      assert Quiet(config, NewState(config)).(workers := []) == Quiet(config, NewState(config));
    } else {
      var before, passed := FailingRun(log, config, n - 1);
      hide Run, Enabled, Next;
      var last := passed[|before|];
      var more, between := FailOnce(log, config, last.store[config.source]);
      var after := between + [Next(between[4], log, more[4])];
      RunsJoin(before, passed, more, after, log, 1, 0);
      steps, states := before + more, passed + after[1..];
    }
  }

  lemma FirstStepsWith(log: Log, config: Config, workers: nat) returns (steps: seq<Step>, states: seq<State>)
    ensures Run(steps, states, log, 1, workers) && |states| == |steps| + 1
    ensures states[|steps|] == Quiet(config, NewState(config)).(workers := seq(workers, i => Waiting))
  {
    steps := [AddSource(config), AddState(config)];
    var s0 := Start(1, workers);
    var s1 := Next(s0, log, steps[0]);
    states := [s0, s1, Next(s1, log, steps[1])];
  }

  /** A run goes on from where it stopped. */
  lemma RunsJoin(before: seq<Step>, passed: seq<State>, more: seq<Step>, states: seq<State>, log: Log, maxSize: nat,
                 workers: nat)
    requires Run(before, passed, log, maxSize, workers)
    requires |states| == |more| + 1 && states[0] == passed[|before|]
    requires forall i :: 0 <= i < |more| ==>
               Enabled(states[i], log, more[i]) && states[i + 1] == Next(states[i], log, more[i])
    ensures Run(before + more, passed + states[1..], log, maxSize, workers)
    ensures (passed + states[1..])[|before + more|] == states[|more|]
  {
    hide Enabled, Next;
    var steps, all := before + more, passed + states[1..];
    forall i | 0 <= i < |steps|
      ensures Enabled(all[i], log, steps[i]) && all[i + 1] == Next(all[i], log, steps[i])
    {
      if i >= |before| {
        assert steps[i] == more[i - |before|] && all[i] == states[i - |before|]
               && all[i + 1] == states[i - |before| + 1];
      }
    }
  }

  /** The overflow is reached: a failure whose handler runs to its end and leaves no trace in the store. */
  lemma FailureCanGoUnrecorded(log: Log, config: Config) returns (steps: seq<Step>, states: seq<State>)
    requires config.enabled
    ensures Run(steps, states, log, 1, 0) && |steps| > 0
    ensures var n := |steps| - 1;
            && steps[n].NoteFailure? && Failing(states[n], ThePoll) == Some(config.source)
            && Failing(states[n + 1], ThePoll) == None && states[n + 1].store == states[n].store
  {
    var before, passed := FailingRun(log, config, FLOAT_EXPONENTS);
    var more, between := FailOnce(log, config, passed[|before|].store[config.source]);
    steps, states := before + more[..4], passed + between[1..];
    RunsJoin(before, passed, more[..4], between, log, 1, 0);
    assert states[|steps|] == between[4] && states[|steps| - 1] == between[3];
    assert steps[|steps| - 1] == more[3];
  }

  /** A batch of the one item that a source has published first. */
  function FirstItem(log: Log, config: Config): Job {
    Job(config, Batch([log(config.source, 0)], Some(1)))
  }

  /** The poll queues the batch. */
  lemma PollOnce(log: Log, config: Config, s: State) returns (steps: seq<Step>, states: seq<State>)
    requires config.enabled && s == Quiet(config, NewState(config)).(workers := [Waiting])
    ensures |steps| == 3 && |states| == 4 && states[0] == s
    ensures forall i :: 0 <= i < 3 ==>
              Enabled(states[i], log, steps[i]) && states[i + 1] == Next(states[i], log, steps[i])
    ensures states[3] == s.(queue := [FirstItem(log, config)], inflight := {config.source})
  {
    var source, state := config.source, NewState(config);
    steps := [BeginPoll([source]), GotState(0.0), GotBatch(FirstItem(log, config).batch)];
    assert [source][1..] == [];
    assert Scan([source], false, {}) == (Some(source), []);
    var s1 := Next(s, log, steps[0]);
    assert s1 == s.(poller := Getting(config, []));
    var s2 := Next(s1, log, steps[1]);
    assert s2 == s.(poller := Fetching(config, state, 0.0, []));
    var s3 := Next(s2, log, steps[2]);
    states := [s, s1, s2, s3];
  }

  /** A worker finds that the item names another source, and is cancelled in its exception handler. */
  lemma WorkAndCancel(log: Log, config: Config, s: State) returns (steps: seq<Step>, states: seq<State>)
    requires s.queue == [FirstItem(log, config)] && s.workers == [Waiting]
    requires log(config.source, 0).source != config.source
    ensures steps == [TakeJob(0), StoreItem(0), CancelWorker(0)]
    ensures |states| == 4 && states[0] == s
    ensures forall i :: 0 <= i < 3 ==>
              Enabled(states[i], log, steps[i]) && states[i + 1] == Next(states[i], log, steps[i])
    ensures Failing(states[2], OfWorker(0)) == Some(config.source) && Failing(states[3], OfWorker(0)) == None
    ensures states[2].store == states[3].store == s.store
  {
    var job := FirstItem(log, config);
    steps := [TakeJob(0), StoreItem(0), CancelWorker(0)];
    var s1 := Next(s, log, steps[0]);
    assert s1.workers == [Storing(job, 0)];
    var s2 := Next(s1, log, steps[1]);
    assert s2.workers == [Recovering(job)];
    var s3 := Next(s2, log, steps[2]);
    assert s3.workers == [Waiting];
    states := [s, s1, s2, s3];
  }

  /** The timeout of a worker's job strikes in the exception handler: the failure leaves no trace either. */
  lemma CancelledFailureGoesUnrecorded(log: Log, config: Config) returns (steps: seq<Step>, states: seq<State>)
    requires config.enabled && log(config.source, 0).source != config.source
    ensures Run(steps, states, log, 1, 1) && |steps| > 0
    ensures var n := |steps| - 1;
            && steps[n] == CancelWorker(0) && Failing(states[n], OfWorker(0)) == Some(config.source)
            && Failing(states[n + 1], OfWorker(0)) == None && states[n + 1].store == states[n].store
            && states[n].store == map[config.source := NewState(config)]
  {
    var first, begun := FirstStepsWith(log, config, 1);
    var poll, polled := PollOnce(log, config, begun[|first|]);
    RunsJoin(first, begun, poll, polled, log, 1, 1);
    var work, worked := WorkAndCancel(log, config, polled[3]);
    hide Run, Enabled, Next;
    var before, passed := first + poll, begun + polled[1..];
    RunsJoin(before, passed, work, worked, log, 1, 1);
    steps, states := before + work, passed + worked[1..];
    assert states[|steps|] == worked[3] && states[|steps| - 1] == worked[2] && steps[|steps| - 1] == work[2];
  }
}

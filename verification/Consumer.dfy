/**
 * The Kafka consumer with deferred offsets (crates/aether-bus/src/consumer.rs).
 *
 * `State` and `Step` describe the consumer, its client library and its broker, one step for each
 * call that can fail. `KafkaConsumer` is the code; its methods take the environment's behaviour
 * as a script and return the steps they took. The partition assignment is fixed.
 */
module Consumer {
  import opened Wrappers

  datatype Partition = Partition(topic: string, index: int)

  /** Does the partition hold a message at this offset? Compaction may leave gaps. */
  type Log = (Partition, nat) -> bool

  datatype Message = Message(partition: Partition, offset: nat)

  /** `offset` is the position to resume from, one past the message. */
  datatype Pending = Pending(partition: Partition, offset: nat)

  /**
   * `pending` belongs to the consumer, `stored` and `position` to the client library, `committed`
   * to the broker; `completed` records messages processed successfully or fully quarantined.
   */
  datatype View = View(pending: seq<Pending>, stored: map<Partition, nat>, position: map<Partition, nat>,
                       committed: map<Partition, nat>, completed: set<Message>)

  datatype Phase =
    | Idle
    | Consuming
    | Quarantining(m: Message)
    | QuarantineStoring(m: Message)
    | QuarantineCommitting
    | Processing(m: Message)
    | Acking
    | Committing
    | Failed

  /** In `Failed` the last call returned an error or was dropped. */
  datatype State = State(view: View, phase: Phase)

  /**
   * `Abandon` drops the call where it is suspended: waiting for a message, for the quarantine or
   * for `process`. Whatever it waited for may have taken effect, which `done` says.
   * `CallAgain` uses the consumer further after a failed or dropped call, `Restart` replaces it.
   */
  datatype Step =
    | Begin
    | Receive(m: Message, valid: bool)
    | TimeOut
    | Quarantine(ok: bool)
    | StoreQuarantined(ok: bool)
    | Process(ok: bool)
    | Ack(failAt: nat)
    | Commit(ok: bool, applied: bool)
    | Abandon(done: bool)
    | CallAgain
    | Restart

  function At(offsets: map<Partition, nat>, p: Partition): nat {
    if p in offsets then offsets[p] else 0
  }

  /** The broker delivers the first message at or after the client's position. */
  ghost predicate IsNext(log: Log, position: map<Partition, nat>, m: Message) {
    && At(position, m.partition) <= m.offset && log(m.partition, m.offset)
    && forall o: nat :: At(position, m.partition) <= o < m.offset ==> !log(m.partition, o)
  }

  function StoreAll(stored: map<Partition, nat>, pending: seq<Pending>): map<Partition, nat> {
    if pending == [] then stored
    else StoreAll(stored, pending[..|pending| - 1])[pending[|pending| - 1].partition := pending[|pending| - 1].offset]
  }

  function Committed(v: View): View {
    v.(committed := v.committed + v.stored)
  }

  function Received(v: View, m: Message, valid: bool): View {
    v.(position := v.position[m.partition := m.offset + 1],
       pending := if valid then v.pending + [Pending(m.partition, m.offset + 1)] else v.pending)
  }

  ghost predicate Enabled(s: State, log: Log, step: Step) {
    match step
    case Begin => s.phase.Idle?
    case Receive(m, _) => s.phase.Consuming? && IsNext(log, s.view.position, m)
    case TimeOut => s.phase.Consuming?
    case Quarantine(_) => s.phase.Quarantining?
    case StoreQuarantined(_) => s.phase.QuarantineStoring?
    case Process(_) => s.phase.Processing?
    case Ack(_) => s.phase.Acking?
    case Commit(ok, applied) => (s.phase.Committing? || s.phase.QuarantineCommitting?) && (ok ==> applied)
    case Abandon(_) => s.phase.Consuming? || s.phase.Quarantining? || s.phase.Processing?
    case CallAgain => s.phase.Failed?
    case Restart => true
  }

  ghost function Next(s: State, log: Log, step: Step): State
    requires Enabled(s, log, step)
  {
    var v := s.view;
    match step
    case Begin => State(v, Consuming)
    case Receive(m, valid) => State(Received(v, m, valid), if valid then Processing(m) else Quarantining(m))
    case TimeOut => State(v, Idle)
    case Quarantine(ok) =>
      if ok then State(v.(completed := v.completed + {s.phase.m}), QuarantineStoring(s.phase.m)) else State(v, Failed)
    case StoreQuarantined(ok) =>
      if ok then State(v.(stored := v.stored[s.phase.m.partition := s.phase.m.offset + 1]), QuarantineCommitting)
      else State(v, Failed)
    case Process(ok) =>
      if ok then State(v.(completed := v.completed + {s.phase.m}), Acking) else State(v, Failed)
    case Ack(failAt) =>
      if failAt < |v.pending| then State(v.(stored := StoreAll(v.stored, v.pending[..failAt])), Failed)
      else State(v.(stored := StoreAll(v.stored, v.pending), pending := []), Committing)
    case Commit(ok, applied) =>
      State(if applied then Committed(v) else v,
            if !ok then Failed else if s.phase.Committing? then Idle else Consuming)
    case Abandon(done) =>
      State(if done && !s.phase.Consuming? then v.(completed := v.completed + {s.phase.m}) else v, Failed)
    case CallAgain => State(v, Idle)
    case Restart =>
      State(View([], map[], v.committed, v.committed, v.completed), Idle)
  }

  /** The state reached by `steps`, if each of them can happen. */
  ghost function Exec(s: State, log: Log, steps: seq<Step>): Option<State> {
    if steps == [] then Some(s)
    else match Exec(s, log, steps[..|steps| - 1])
      case None => None
      case Some(t) => if Enabled(t, log, steps[|steps| - 1]) then Some(Next(t, log, steps[|steps| - 1])) else None
  }

  const START := State(View([], map[], map[], map[], {}), Idle)

  lemma ExecOne(s: State, log: Log, steps: seq<Step>, step: Step)
    requires Exec(s, log, steps).Some? && Enabled(Exec(s, log, steps).value, log, step)
    ensures Exec(s, log, steps + [step]) == Some(Next(Exec(s, log, steps).value, log, step))
  {
    assert (steps + [step])[..|steps|] == steps;
  }

  lemma ExecNone(s: State, log: Log)
    ensures Exec(s, log, []) == Some(s)
  {
  }

  // ---- The code ----

  datatype Fate = QuarantineFails | StoreFails | CommitFails(applied: bool) | Quarantined

  /** What one `recv` of the polling loop yields. */
  datatype Poll = Nothing | ReceiveError | ValidMessage(m: Message) | MalformedMessage(m: Message, fate: Fate)

  datatype Handling = ProcessFails | AckFails(at: nat) | FinalCommitFails(applied: bool) | Handled

  datatype ConsumerError = ReceiveFailed | CommitFailed | QuarantineFailed | ProcessFailed

  /** The script is one the broker could produce. */
  ghost predicate Deliverable(log: Log, position: map<Partition, nat>, polls: seq<Poll>)
    decreases |polls|
  {
    polls == []
    || (if polls[0].ValidMessage? || polls[0].MalformedMessage? then
          IsNext(log, position, polls[0].m)
          && Deliverable(log, position[polls[0].m.partition := polls[0].m.offset + 1], polls[1..])
        else Deliverable(log, position, polls[1..]))
  }

  /** What the script's next entry promises. */
  lemma NextPoll(log: Log, position: map<Partition, nat>, polls: seq<Poll>, i: nat)
    requires i < |polls| && Deliverable(log, position, polls[i..])
    ensures if polls[i].ValidMessage? || polls[i].MalformedMessage? then
              IsNext(log, position, polls[i].m)
              && Deliverable(log, position[polls[i].m.partition := polls[i].m.offset + 1], polls[i + 1..])
            else Deliverable(log, position, polls[i + 1..])
  {
    hide IsNext;
    assert polls[i..][0] == polls[i] && polls[i..][1..] == polls[i + 1..];
  }

  /** The calls a malformed message leads to, and the error they end with. */
  function FateSteps(fate: Fate): seq<Step> {
    match fate
    case QuarantineFails => [Quarantine(false)]
    case StoreFails => [Quarantine(true), StoreQuarantined(false)]
    case CommitFails(applied) => [Quarantine(true), StoreQuarantined(true), Commit(false, applied)]
    case Quarantined => [Quarantine(true), StoreQuarantined(true), Commit(true, true)]
  }

  function FateError(fate: Fate): Option<ConsumerError> {
    match fate
    case QuarantineFails => Some(QuarantineFailed)
    case StoreFails => Some(ReceiveFailed)
    case CommitFails(_) => Some(CommitFailed)
    case Quarantined => None
  }

  /** What a call of `consume` has done and returns when, after the steps `before`, the polls go this way. */
  function Consumption(polls: seq<Poll>, before: seq<Step>): (seq<Step>, Result<seq<Message>, ConsumerError>)
    decreases |polls|
  {
    if polls == [] then (before, Success([]))
    else match polls[0]
      case Nothing => Consumption(polls[1..], before)
      case ReceiveError => Consumption(polls[1..], before)
      case ValidMessage(m) => (before + [Receive(m, true)], Success([m]))
      case MalformedMessage(m, fate) =>
        var after := before + [Receive(m, false)] + FateSteps(fate);
        if FateError(fate).Some? then (after, Failure(FateError(fate).value)) else Consumption(polls[1..], after)
  }

  /** Reading the script one entry at a time. */
  lemma ConsumptionFrom(polls: seq<Poll>, i: nat, steps: seq<Step>)
    requires i < |polls|
    ensures polls[i].Nothing? || polls[i].ReceiveError? ==>
            Consumption(polls[i..], steps) == Consumption(polls[i + 1..], steps)
    ensures polls[i].ValidMessage? ==>
              Consumption(polls[i..], steps) == (steps + [Receive(polls[i].m, true)], Success([polls[i].m]))
    ensures polls[i].MalformedMessage? ==>
              var after := steps + [Receive(polls[i].m, false)] + FateSteps(polls[i].fate);
              var error := FateError(polls[i].fate);
              Consumption(polls[i..], steps)
              == if error.Some? then (after, Failure(error.value)) else Consumption(polls[i + 1..], after)
  {
    hide FateSteps, FateError;
    assert polls[i..][0] == polls[i] && polls[i..][1..] == polls[i + 1..];
  }

  lemma NothingLeft(steps: seq<Step>)
    ensures Consumption([], steps) == (steps, Success([]))
  {
  }

  /** What follows a valid message when `pending` offsets are waiting. */
  function HandlingSteps(handling: Handling, pending: nat): seq<Step> {
    match handling
    case ProcessFails => [Process(false)]
    case AckFails(at) =>
      if at < pending then [Process(true), Ack(at)] else [Process(true), Ack(at), Commit(true, true)]
    case FinalCommitFails(applied) => [Process(true), Ack(pending), Commit(false, applied)]
    case Handled => [Process(true), Ack(pending), Commit(true, true)]
  }

  function HandlingResult(handling: Handling, pending: nat): Result<nat, ConsumerError> {
    match handling
    case ProcessFails => Failure(ProcessFailed)
    case AckFails(at) => if at < pending then Failure(ReceiveFailed) else Success(1)
    case FinalCommitFails(_) => Failure(CommitFailed)
    case Handled => Success(1)
  }

  class KafkaConsumer {
    var pendingOffsets: seq<Pending>
    var stored: map<Partition, nat>
    var position: map<Partition, nat>
    var committed: map<Partition, nat>
    ghost var completed: set<Message>

    ghost function Value(): View
      reads this
    {
      View(pendingOffsets, stored, position, committed, completed)
    }

    constructor (committed: map<Partition, nat>, ghost completed: set<Message>)
      ensures Value() == View([], map[], committed, committed, completed)
    {
      pendingOffsets, stored, position, this.committed := [], map[], committed, committed;
      this.completed := completed;
    }

    method CommitSync(ok: bool, applied: bool) returns (failed: bool)
      requires ok ==> applied
      modifies this`committed
      ensures failed == !ok
      ensures Value() == if applied then Committed(old(Value())) else old(Value())
    {
      if applied {
        committed := committed + stored;
      }
      return !ok;
    }

    /** Stores every pending offset; pending is cleared only when all of them are stored. */
    method Acknowledge(failAt: nat) returns (failed: bool)
      modifies this`stored, this`pendingOffsets
      ensures failed == (failAt < |old(pendingOffsets)|)
      ensures stored == StoreAll(old(stored), if failed then old(pendingOffsets)[..failAt] else old(pendingOffsets))
      ensures pendingOffsets == if failed then old(pendingOffsets) else []
    {
      if pendingOffsets == [] {
        return false;
      }
      for i := 0 to |pendingOffsets|
        invariant i <= failAt && pendingOffsets == old(pendingOffsets)
        invariant stored == StoreAll(old(stored), pendingOffsets[..i])
      {
        if i == failAt {
          return true;
        }
        assert pendingOffsets[..i + 1][..i] == pendingOffsets[..i];
        stored := stored[pendingOffsets[i].partition := pendingOffsets[i].offset];
      }
      assert pendingOffsets[..|pendingOffsets|] == pendingOffsets;
      pendingOffsets := [];
      return false;
    }

    /** The polling loop: at most one envelope, malformed messages quarantined on the way. */
    method Consume(polls: seq<Poll>, ghost log: Log)
      returns (r: Result<seq<Message>, ConsumerError>, ghost steps: seq<Step>)
      requires Deliverable(log, position, polls)
      modifies this
      ensures Exec(State(old(Value()), Consuming), log, steps)
              == Some(State(Value(), match r
                                     case Failure(_) => Failed
                                     case Success(results) =>
                                       if results == [] then Consuming else Processing(results[0])))
      ensures (steps, r) == Consumption(polls, [])
      ensures r.Success? ==> |r.value| <= 1
      ensures |pendingOffsets| == |old(pendingOffsets)| + if r.Success? then |r.value| else 0
    {
      var results: seq<Message> := [];
      steps := [];
      ghost var start := State(Value(), Consuming);
      ExecNone(start, log);
      assert polls[0..] == polls;
      hide Exec, IsNext, Deliverable, FateSteps, FateError, Consumption;
      var i := 0;
      while i < |polls| && results == []
        invariant 0 <= i <= |polls| && |results| <= 1
        invariant results == [] ==> Deliverable(log, position, polls[i..])
        invariant Exec(start, log, steps)
                  == Some(State(Value(), if results == [] then Consuming else Processing(results[0])))
        invariant Consumption(polls, [])
                  == if results == [] then Consumption(polls[i..], steps) else (steps, Success(results))
        invariant |pendingOffsets| == |old(pendingOffsets)| + |results|
      {
        var poll := polls[i];
        NextPoll(log, position, polls, i);
        ConsumptionFrom(polls, i, steps);
        i := i + 1;
        match poll {
          case ValidMessage(m) =>
            ExecOne(start, log, steps, Receive(m, true));
            steps := steps + [Receive(m, true)];
            position := position[m.partition := m.offset + 1];
            pendingOffsets := pendingOffsets + [Pending(m.partition, m.offset + 1)];
            results := [m];
          case MalformedMessage(m, fate) =>
            ExecOne(start, log, steps, Receive(m, false));
            steps := steps + [Receive(m, false)];
            position := position[m.partition := m.offset + 1];
            var error;
            error, steps := HandleMalformed(m, fate, start, steps, log);
            if error.Some? {
              return Failure(error.value), steps;
            }
          case _ =>
        }
      }
      assert i == |polls| ==> polls[i..] == [];
      NothingLeft(steps);
      return Success(results), steps;
    }

    /** Quarantine, store and commit one malformed message. */
    method HandleMalformed(m: Message, fate: Fate, ghost start: State, ghost before: seq<Step>, ghost log: Log)
      returns (error: Option<ConsumerError>, ghost steps: seq<Step>)
      requires Exec(start, log, before) == Some(State(Value(), Quarantining(m)))
      modifies this`stored, this`committed, this`completed
      ensures Exec(start, log, steps) == Some(State(Value(), if error.Some? then Failed else Consuming))
      ensures steps == before + FateSteps(fate) && error == FateError(fate)
    {
      hide Exec;
      ExecOne(start, log, before, Quarantine(!fate.QuarantineFails?));
      steps := before + [Quarantine(!fate.QuarantineFails?)];
      if fate.QuarantineFails? {
        return Some(QuarantineFailed), steps;
      }
      completed := completed + {m};
      ExecOne(start, log, steps, StoreQuarantined(!fate.StoreFails?));
      steps := steps + [StoreQuarantined(!fate.StoreFails?)];
      if fate.StoreFails? {
        return Some(ReceiveFailed), steps;
      }
      stored := stored[m.partition := m.offset + 1];
      var ok := fate.Quarantined?;
      ExecOne(start, log, steps, Commit(ok, ok || fate.applied));
      steps := steps + [Commit(ok, ok || fate.applied)];
      var failed := CommitSync(ok, ok || fate.applied);
      error := if failed then Some(CommitFailed) else None;
    }

    /** Process a valid message, then acknowledge and commit everything pending. */
    method HandleValid(m: Message, handling: Handling, ghost start: State, ghost before: seq<Step>, ghost log: Log)
      returns (r: Result<nat, ConsumerError>, ghost steps: seq<Step>)
      requires Exec(start, log, before) == Some(State(Value(), Processing(m)))
      modifies this
      ensures Exec(start, log, steps) == Some(State(Value(), if r.Success? then Idle else Failed))
      ensures steps == before + HandlingSteps(handling, |old(pendingOffsets)|)
      ensures r == HandlingResult(handling, |old(pendingOffsets)|)
    {
      hide Exec;
      ExecOne(start, log, before, Process(!handling.ProcessFails?));
      steps := before + [Process(!handling.ProcessFails?)];
      if handling.ProcessFails? {
        return Failure(ProcessFailed), steps;
      }
      completed := completed + {m};
      var failAt := if handling.AckFails? then handling.at else |pendingOffsets|;
      ExecOne(start, log, steps, Ack(failAt));
      steps := steps + [Ack(failAt)];
      var failed := Acknowledge(failAt);
      if failed {
        return Failure(ReceiveFailed), steps;
      }
      var ok := !handling.FinalCommitFails?;
      ExecOne(start, log, steps, Commit(ok, ok || handling.applied));
      steps := steps + [Commit(ok, ok || handling.applied)];
      failed := CommitSync(ok, ok || handling.applied);
      r := if failed then Failure(CommitFailed) else Success(1);
    }

    /** Consume, process, acknowledge and commit: exactly these calls, which are a path of the state machine. */
    method ProcessAndCommit(polls: seq<Poll>, handling: Handling, ghost log: Log)
      returns (r: Result<nat, ConsumerError>, ghost steps: seq<Step>)
      requires Deliverable(log, position, polls)
      modifies this
      ensures Exec(State(old(Value()), Idle), log, steps)
              == Some(State(Value(), if r.Success? then Idle else Failed))
      ensures var (taken, consumed) := Consumption(polls, []);
              var pending := |old(pendingOffsets)| + 1;
              if consumed.Failure? then steps == [Begin] + taken && r == Failure(consumed.error)
              else if consumed.value == [] then steps == [Begin] + taken + [TimeOut] && r == Success(0)
              else steps == [Begin] + taken + HandlingSteps(handling, pending) && r == HandlingResult(handling, pending)
    {
      ghost var start := State(Value(), Idle);
      var consumed;
      ghost var taken;
      consumed, taken := Consume(polls, log);
      ExecAfterBegin(start, log, taken);
      hide Exec, Deliverable, Consumption, HandlingSteps, HandlingResult;
      steps := [Begin] + taken;
      if consumed.Failure? {
        return Failure(consumed.error), steps;
      }
      if consumed.value == [] {
        ExecOne(start, log, steps, TimeOut);
        return Success(0), steps + [TimeOut];
      }
      r, steps := HandleValid(consumed.value[0], handling, start, steps, log);
    }
  }

  lemma {:induction false} ExecAfterBegin(s: State, log: Log, steps: seq<Step>)
    requires s.phase.Idle?
    ensures Exec(s, log, [Begin] + steps) == Exec(State(s.view, Consuming), log, steps)
  {
    if steps == [] {
      assert [Begin] + steps == [Begin];
      assert Exec(s, log, [Begin][..0]) == Some(s);
    } else {
      assert ([Begin] + steps)[..|steps|] == [Begin] + steps[..|steps| - 1];
      ExecAfterBegin(s, log, steps[..|steps| - 1]);
    }
  }
}

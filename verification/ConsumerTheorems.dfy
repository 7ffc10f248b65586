/** At-least-once consumption, and after which failures a consumer may be called again. */
module ConsumerTheorems {
  import opened Wrappers
  import opened Consumer

  // ---- When a failure is harmless ----

  ghost predicate MoreToCome(log: Log, position: map<Partition, nat>, p: Partition) {
    exists o: nat :: At(position, p) <= o && log(p, o)
  }

  /** The step ends the call without completing the message in hand. */
  predicate LeavesIncomplete(step: Step) {
    step == Process(false) || step == Quarantine(false) || step == Abandon(false)
  }

  /** The step ends the call and leaves an incomplete message behind the position. */
  predicate Leaves(s: State, step: Step) {
    LeavesIncomplete(step) && (s.phase.Processing? || s.phase.Quarantining?) && s.phase.m !in s.view.completed
  }

  /**
   * What is left behind can still be passed. A message being processed has a pending offset, which
   * goes out with the next acknowledgement, whatever partition that is for; a message being
   * quarantined has none, and a later one of its own partition must come first.
   */
  ghost predicate Exposed(s: State, log: Log, step: Step) {
    Leaves(s, step)
    && exists p :: MoreToCome(log, s.view.position, p) && (s.phase.Quarantining? ==> p == s.phase.m.partition)
  }

  /** The consumer is called again after harmless failures only; after others it is restarted. */
  ghost predicate Careful(log: Log, steps: seq<Step>) {
    forall i :: 0 < i < |steps| && steps[i].CallAgain? && Exec(START, log, steps[..i - 1]).Some? ==>
      !Exposed(Exec(START, log, steps[..i - 1]).value, log, steps[i - 1])
  }

  lemma CarefulFront(log: Log, steps: seq<Step>, n: nat)
    requires Careful(log, steps) && n <= |steps|
    ensures Careful(log, steps[..n])
  {
    hide Exec, Exposed;
    forall i | 0 < i < n && steps[..n][i].CallAgain? && Exec(START, log, steps[..n][..i - 1]).Some?
      ensures !Exposed(Exec(START, log, steps[..n][..i - 1]).value, log, steps[..n][i - 1])
    {
      assert steps[..n][..i - 1] == steps[..i - 1];
    }
  }

  // ---- The invariant ----

  /** Every message before these offsets is complete. */
  ghost predicate Covered(log: Log, offsets: map<Partition, nat>, completed: set<Message>) {
    forall p, o: nat :: p in offsets && o < offsets[p] && log(p, o) ==> Message(p, o) in completed
  }

  /** The message a state is still working on. */
  ghost predicate InHand(s: State, m: Message) {
    (s.phase.Processing? || s.phase.Quarantining?) && s.phase.m == m
  }

  ghost predicate CompleteBefore(s: State, log: Log, p: Partition, offset: nat) {
    forall o: nat :: o < offset && log(p, o) ==> Message(p, o) in s.view.completed || InHand(s, Message(p, o))
  }

  ghost predicate Durable(s: State, log: Log) {
    Covered(log, s.view.committed, s.view.completed) && Covered(log, s.view.stored, s.view.completed)
  }

  ghost predicate PhaseSound(s: State, log: Log) {
    var v := s.view;
    match s.phase
    case Processing(m) =>
      && log(m.partition, m.offset) && At(v.position, m.partition) == m.offset + 1
      && v.pending != [] && v.pending[|v.pending| - 1] == Pending(m.partition, m.offset + 1)
    case Quarantining(m) =>
      && log(m.partition, m.offset) && At(v.position, m.partition) == m.offset + 1
      && CompleteBefore(s, log, m.partition, m.offset + 1)
      && forall q <- v.pending :: q.partition == m.partition ==> q.offset <= m.offset
    case QuarantineStoring(m) => CompleteBefore(s, log, m.partition, m.offset + 1)
    case _ => true
  }

  /**
   * The position passes incomplete messages only in partitions from which nothing more comes, and
   * pending offsets pass none but the one in hand.
   */
  ghost predicate Sound(s: State, log: Log) {
    var v := s.view;
    && (forall p :: MoreToCome(log, v.position, p) ==> CompleteBefore(s, log, p, At(v.position, p)))
    && (forall q <- v.pending ::
          q.offset <= At(v.position, q.partition) && CompleteBefore(s, log, q.partition, q.offset))
    && PhaseSound(s, log)
  }

  /** Nothing more comes from anywhere: until a restart there is nothing left to do. */
  ghost predicate Frozen(s: State, log: Log) {
    (s.phase.Idle? || s.phase.Consuming? || s.phase.Failed?) && forall p :: !MoreToCome(log, s.view.position, p)
  }

  ghost predicate Inv(s: State, log: Log) {
    Durable(s, log) && (Sound(s, log) || Frozen(s, log))
  }

  lemma {:induction false} StoreAllCovered(log: Log, stored: map<Partition, nat>, pending: seq<Pending>,
                                           completed: set<Message>)
    requires Covered(log, stored, completed)
    requires forall q, o: nat :: q in pending && o < q.offset && log(q.partition, o) ==>
             Message(q.partition, o) in completed
    ensures Covered(log, StoreAll(stored, pending), completed)
  {
    if pending != [] {
      var front, last := pending[..|pending| - 1], pending[|pending| - 1];
      assert forall q <- front :: q in pending;
      StoreAllCovered(log, stored, front, completed);
      assert last in pending;
    }
  }

  /** Nothing is received from a partition that has nothing more to give. */
  lemma ReceivedFromMore(log: Log, position: map<Partition, nat>, m: Message)
    requires IsNext(log, position, m)
    ensures MoreToCome(log, position, m.partition)
  {
  }

  lemma ReceiveKeepsSound(s: State, log: Log, m: Message, valid: bool)
    requires Sound(s, log) && Enabled(s, log, Receive(m, valid))
    ensures Sound(Next(s, log, Receive(m, valid)), log)
  {
    var v, t := s.view, Next(s, log, Receive(m, valid));
    ReceivedFromMore(log, v.position, m);
    assert CompleteBefore(s, log, m.partition, At(v.position, m.partition));
    assert CompleteBefore(t, log, m.partition, m.offset + 1);
    forall p | MoreToCome(log, t.view.position, p)
      ensures CompleteBefore(t, log, p, At(t.view.position, p))
    {
      if p != m.partition {
        assert At(t.view.position, p) == At(v.position, p);
        assert MoreToCome(log, v.position, p);
        assert CompleteBefore(s, log, p, At(v.position, p));
      }
    }
    forall q <- t.view.pending
      ensures q.offset <= At(t.view.position, q.partition) && CompleteBefore(t, log, q.partition, q.offset)
    {
      assert q in v.pending ==> q.offset <= At(v.position, q.partition);
      assert q in v.pending ==> CompleteBefore(s, log, q.partition, q.offset);
    }
  }

  lemma AckKeepsDurable(s: State, log: Log, failAt: nat)
    requires Durable(s, log) && Sound(s, log) && s.phase.Acking?
    ensures Durable(Next(s, log, Ack(failAt)), log)
  {
    var v := s.view;
    var sent := if failAt < |v.pending| then v.pending[..failAt] else v.pending;
    forall q, o: nat | q in sent && o < q.offset && log(q.partition, o)
      ensures Message(q.partition, o) in v.completed
    {
      assert q in v.pending;
      assert CompleteBefore(s, log, q.partition, q.offset);
    }
    StoreAllCovered(log, v.stored, sent, v.completed);
  }

  lemma StepKeepsDurable(s: State, log: Log, step: Step)
    requires Inv(s, log) && Enabled(s, log, step)
    ensures Durable(Next(s, log, step), log)
  {
    if step.Ack? {
      AckKeepsDurable(s, log, step.failAt);
    } else {
      hide IsNext, MoreToCome, StoreAll;
    }
  }

  /** A restart begins again at the committed offsets. */
  lemma RestartIsSound(s: State, log: Log)
    requires Durable(s, log)
    ensures Inv(Next(s, log, Restart), log)
  {
    var t := Next(s, log, Restart);
    forall p
      ensures CompleteBefore(t, log, p, At(t.view.position, p))
    {
    }
  }

  /** What was complete stays so when messages are completed and none in hand is dropped incomplete. */
  lemma StillComplete(s: State, t: State, log: Log, p: Partition, offset: nat)
    requires CompleteBefore(s, log, p, offset) && s.view.completed <= t.view.completed
    requires forall m :: InHand(s, m) ==> InHand(t, m) || m in t.view.completed
    ensures CompleteBefore(t, log, p, offset)
  {
  }

  /** Steps that neither receive a message nor leave one behind. */
  lemma QuietStepKeepsSound(s: State, log: Log, step: Step)
    requires Sound(s, log) && Enabled(s, log, step) && !step.Receive? && !step.Restart? && !Leaves(s, step)
    ensures Sound(Next(s, log, step), log)
  {
    hide StoreAll, CompleteBefore, MoreToCome;
    var t := Next(s, log, step);
    forall p | MoreToCome(log, t.view.position, p)
      ensures CompleteBefore(t, log, p, At(t.view.position, p))
    {
      StillComplete(s, t, log, p, At(t.view.position, p));
    }
    forall q <- t.view.pending
      ensures q.offset <= At(t.view.position, q.partition) && CompleteBefore(t, log, q.partition, q.offset)
    {
      assert q in s.view.pending;
      StillComplete(s, t, log, q.partition, q.offset);
    }
    if t.phase.QuarantineStoring? {
      StillComplete(s, t, log, t.phase.m.partition, t.phase.m.offset + 1);
    }
  }

  /** A message left in quarantine harms nobody if its partition has nothing more to give. */
  lemma LeavingQuarantineKeepsSound(s: State, log: Log, step: Step)
    requires Sound(s, log) && Enabled(s, log, step) && Leaves(s, step) && s.phase.Quarantining?
    requires !MoreToCome(log, s.view.position, s.phase.m.partition)
    ensures Sound(Next(s, log, step), log)
  {
    var t, m := Next(s, log, step), s.phase.m;
    forall p | MoreToCome(log, t.view.position, p)
      ensures CompleteBefore(t, log, p, At(t.view.position, p))
    {
      assert CompleteBefore(s, log, p, At(s.view.position, p));
    }
    forall q <- t.view.pending
      ensures q.offset <= At(t.view.position, q.partition) && CompleteBefore(t, log, q.partition, q.offset)
    {
      assert CompleteBefore(s, log, q.partition, q.offset);
    }
  }

  lemma FrozenStays(s: State, log: Log, step: Step)
    requires Frozen(s, log) && Enabled(s, log, step) && !step.Restart?
    ensures Frozen(Next(s, log, step), log)
  {
    if step.Receive? {
      ReceivedFromMore(log, s.view.position, step.m);
    }
  }

  /** A step that leaves nothing exposed keeps the invariant. */
  lemma StepKeepsInv(s: State, log: Log, step: Step)
    requires Inv(s, log) && Enabled(s, log, step) && !Exposed(s, log, step)
    ensures Inv(Next(s, log, step), log)
  {
    StepKeepsDurable(s, log, step);
    if step.Restart? {
      RestartIsSound(s, log);
    } else if !Sound(s, log) {
      FrozenStays(s, log, step);
    } else if step.Receive? {
      ReceiveKeepsSound(s, log, step.m, step.valid);
    } else if !Leaves(s, step) {
      QuietStepKeepsSound(s, log, step);
    } else if s.phase.Quarantining? {
      LeavingQuarantineKeepsSound(s, log, step);
    } else {
      hide MoreToCome;
      assert Frozen(Next(s, log, step), log);
    }
  }

  // ---- Runs ----

  /** The last step of the run was an exposed failure. */
  ghost predicate JustExposed(log: Log, steps: seq<Step>) {
    && steps != [] && Exec(START, log, steps[..|steps| - 1]).Some?
    && Exposed(Exec(START, log, steps[..|steps| - 1]).value, log, steps[|steps| - 1])
  }

  /** What a run keeps whose calls go on only after harmless failures. */
  lemma {:induction false} RunKeepsInv(log: Log, steps: seq<Step>)
    requires Exec(START, log, steps).Some? && Careful(log, steps)
    ensures Durable(Exec(START, log, steps).value, log)
    ensures JustExposed(log, steps) || Inv(Exec(START, log, steps).value, log)
  {
    hide Enabled, Exposed, Inv, Durable, Next;
    if steps == [] {
      StartIsSound(log);
    } else {
      var front, last := steps[..|steps| - 1], steps[|steps| - 1];
      CarefulFront(log, steps, |front|);
      RunKeepsInv(log, front);
      var s := Exec(START, log, front).value;
      if JustExposed(log, front) {
        assert front[..|front| - 1] == steps[..|steps| - 2];
        assert !last.CallAgain?;
        AfterFailure(Exec(START, log, front[..|front| - 1]).value, log, front[|front| - 1], last);
        RestartIsSound(s, log);
        InvIsDurable(Next(s, log, last), log);
      } else {
        StepKeepsDurable(s, log, last);
        if !Exposed(s, log, last) {
          StepKeepsInv(s, log, last);
        }
      }
    }
  }

  lemma StartIsSound(log: Log)
    ensures Inv(START, log) && Durable(START, log)
  {
  }

  lemma InvIsDurable(s: State, log: Log)
    requires Inv(s, log)
    ensures Durable(s, log)
  {
  }

  /** After an exposed failure the consumer is called again or restarted. */
  lemma AfterFailure(s: State, log: Log, step: Step, after: Step)
    requires Enabled(s, log, step) && Exposed(s, log, step) && Enabled(Next(s, log, step), log, after)
    ensures after.CallAgain? || after.Restart?
  {
  }

  /** A run that restarts after every failed or dropped call is careful. */
  lemma RestartingIsCareful(log: Log, steps: seq<Step>)
    requires forall step <- steps :: !step.CallAgain?
    ensures Careful(log, steps)
  {
    assert forall i :: 0 <= i < |steps| ==> steps[i] in steps;
  }

  /**
   * At-least-once: at every moment of every run that is careful about calling again, in particular of
   * every run that restarts after its failures (`RestartingIsCareful`), no committed offset passes a
   * message that was neither processed nor fully quarantined, so everything else is delivered again.
   */
  lemma AtLeastOnce(log: Log, steps: seq<Step>, p: Partition, o: nat)
    requires Exec(START, log, steps).Some?
    requires Careful(log, steps)
    requires var v := Exec(START, log, steps).value.view;
             p in v.committed && o < v.committed[p] && log(p, o)
    ensures Message(p, o) in Exec(START, log, steps).value.view.completed
  {
    hide Exec, Careful, JustExposed;
    RunKeepsInv(log, steps);
  }

  /** Nothing is lost across a restart: what is not complete is at or after the new position. */
  lemma RestartRedelivers(log: Log, steps: seq<Step>, m: Message)
    requires Exec(START, log, steps).Some? && log(m.partition, m.offset)
    requires Careful(log, steps)
    requires m !in Exec(START, log, steps).value.view.completed
    ensures var s := Next(Exec(START, log, steps).value, log, Restart);
            At(s.view.position, m.partition) <= m.offset
  {
    hide Exec, Careful, JustExposed;
    RunKeepsInv(log, steps);
  }

  // ---- What is finished stays finished ----

  /** The calls that finish the message in hand. */
  ghost function Finish(s: State): seq<Step> {
    if s.phase.Processing? then [Process(true), Ack(|s.view.pending|), Commit(true, true)]
    else [Quarantine(true), StoreQuarantined(true), Commit(true, true)]
  }

  lemma ThreeSteps(s: State, log: Log, a: Step, b: Step, c: Step)
    requires Enabled(s, log, a)
    requires var t := Next(s, log, a); Enabled(t, log, b)
    requires var t := Next(Next(s, log, a), log, b); Enabled(t, log, c)
    ensures Exec(s, log, [a, b, c]) == Some(Next(Next(Next(s, log, a), log, b), log, c))
  {
    hide Enabled, Next;
    ExecNone(s, log);
    hide Exec;
    assert [] + [a] == [a] && [a] + [b] == [a, b] && [a, b] + [c] == [a, b, c];
    ExecOne(s, log, [], a);
    ExecOne(s, log, [a], b);
    ExecOne(s, log, [a, b], c);
  }

  lemma {:induction false} ExecJoin(s: State, log: Log, steps: seq<Step>, more: seq<Step>)
    requires Exec(s, log, steps).Some?
    ensures Exec(s, log, steps + more) == Exec(Exec(s, log, steps).value, log, more)
  {
    hide Enabled, Next;
    if more == [] {
      assert steps + more == steps;
    } else {
      ExecJoin(s, log, steps, more[..|more| - 1]);
      assert (steps + more)[..|steps + more| - 1] == steps + more[..|more| - 1];
    }
  }

  /** The message being processed has the last pending offset, in every run, careful or not. */
  lemma {:induction false} InHandIsLast(log: Log, steps: seq<Step>)
    requires Exec(START, log, steps).Some? && Exec(START, log, steps).value.phase.Processing?
    ensures var s := Exec(START, log, steps).value;
            s.view.pending != []
            && s.view.pending[|s.view.pending| - 1] == Pending(s.phase.m.partition, s.phase.m.offset + 1)
  {
  }

  /** The state in which the message in hand is finished. */
  lemma Finishing(s: State, log: Log)
    requires s.phase.Processing? || s.phase.Quarantining?
    ensures var v, m := s.view, s.phase.m;
            var stored := if s.phase.Processing? then StoreAll(v.stored, v.pending)
                          else v.stored[m.partition := m.offset + 1];
            Exec(s, log, Finish(s))
            == Some(State(View(if s.phase.Processing? then [] else v.pending, stored, v.position,
                               v.committed + stored, v.completed + {m}),
                          if s.phase.Processing? then Idle else Consuming))
  {
    hide Exec, StoreAll;
    if s.phase.Processing? {
      ThreeSteps(s, log, Process(true), Ack(|s.view.pending|), Commit(true, true));
    } else {
      ThreeSteps(s, log, Quarantine(true), StoreQuarantined(true), Commit(true, true));
    }
  }

  lemma NotAgain(log: Log, position: map<Partition, nat>, m: Message)
    requires m.partition in position && position[m.partition] == m.offset + 1
    ensures forall o: nat :: o <= m.offset ==> !IsNext(log, position, Message(m.partition, o))
  {
  }

  /** `t` is `s` with its message `m` finished, and no restart brings that message back. */
  ghost predicate Finished(s: State, log: Log, m: Message, t: State) {
    && t.view.completed == s.view.completed + {m}
    && m.partition in t.view.committed && t.view.committed[m.partition] == m.offset + 1
    && t.view.position == s.view.position
    && (if s.phase.Processing? then t.phase.Idle? && t.view.pending == []
        else t.phase.Consuming? && t.view.pending == s.view.pending
             && t.view.stored == s.view.stored[m.partition := m.offset + 1])
    && forall o: nat :: o <= m.offset ==> !IsNext(log, Next(t, log, Restart).view.position, Message(m.partition, o))
  }

  lemma RestartPosition(s: State, log: Log)
    ensures Next(s, log, Restart).view.position == s.view.committed
  {
  }

  lemma FinishesFrom(s: State, log: Log)
    requires s.phase.Processing? || s.phase.Quarantining?
    requires s.phase.Processing? ==>
               s.view.pending != []
               && s.view.pending[|s.view.pending| - 1] == Pending(s.phase.m.partition, s.phase.m.offset + 1)
    ensures Exec(s, log, Finish(s)).Some? && Finished(s, log, s.phase.m, Exec(s, log, Finish(s)).value)
  {
    if s.phase.Processing? {
      LastPendingIsStored(s.view.stored, s.view.pending);
    }
    hide Exec, StoreAll, Finish, IsNext;
    Finishing(s, log);
    RestartPosition(Exec(s, log, Finish(s)).value, log);
    hide Enabled, Next;
    NotAgain(log, Exec(s, log, Finish(s)).value.view.committed, s.phase.m);
  }

  /**
   * A message that was processed or quarantined to the end is behind the committed offset of its
   * partition, by exactly one, whatever happened before: after a restart neither it nor anything before
   * it is delivered again. A processed message takes everything pending with it, a quarantined one nothing.
   */
  lemma FinishedIsNotRepeated(log: Log, steps: seq<Step>)
    requires Exec(START, log, steps).Some?
    requires Exec(START, log, steps).value.phase.Processing? || Exec(START, log, steps).value.phase.Quarantining?
    ensures var s := Exec(START, log, steps).value;
            Exec(START, log, steps + Finish(s)).Some?
            && Finished(s, log, s.phase.m, Exec(START, log, steps + Finish(s)).value)
  {
    var s := Exec(START, log, steps).value;
    if s.phase.Processing? {
      InHandIsLast(log, steps);
    }
    ExecJoin(START, log, steps, Finish(s));
    hide Exec, Finish, Finished;
    FinishesFrom(s, log);
  }

  // ---- What a call returns ----

  /** The error that a call which did not go through stands for; `pending` offsets were waiting. */
  ghost function Blame(step: Step, pending: nat): Option<ConsumerError> {
    if step == Process(false) then Some(ProcessFailed)
    else if step == Quarantine(false) then Some(QuarantineFailed)
    else if step.Commit? && !step.ok then Some(CommitFailed)
    else if step == StoreQuarantined(false) || (step.Ack? && step.failAt < pending) then Some(ReceiveFailed)
    else None
  }

  /** The error is that of the last call made, and without one the message is finished. */
  lemma ErrorsNameTheCall(s: State, fate: Fate, handling: Handling)
    ensures var steps := FateSteps(fate);
            FateError(fate) == Blame(steps[|steps| - 1], |s.view.pending|)
    ensures FateError(fate).None? && s.phase.Quarantining? ==> FateSteps(fate) == Finish(s)
    ensures var steps := HandlingSteps(handling, |s.view.pending|);
            match Blame(steps[|steps| - 1], |s.view.pending|)
            case Some(error) => HandlingResult(handling, |s.view.pending|) == Failure(error)
            case None => HandlingResult(handling, |s.view.pending|) == Success(1)
    ensures HandlingResult(handling, |s.view.pending|).Success? && s.phase.Processing? && handling.Handled? ==>
              HandlingSteps(handling, |s.view.pending|) == Finish(s)
  {
  }

  /** The polling loop goes on after it. */
  ghost predicate Passed(poll: Poll) {
    poll.Nothing? || poll.ReceiveError? || (poll.MalformedMessage? && poll.fate.Quarantined?)
  }

  /** What the poll that ends the loop makes the call return. */
  ghost function Ending(poll: Poll): Result<seq<Message>, ConsumerError>
    requires !Passed(poll)
  {
    if poll.ValidMessage? then Success([poll.m])
    else if poll.fate.QuarantineFails? then Failure(QuarantineFailed)
    else if poll.fate.StoreFails? then Failure(ReceiveFailed)
    else Failure(CommitFailed)
  }

  lemma OnePoll(polls: seq<Poll>, before: seq<Step>)
    requires polls != []
    ensures Passed(polls[0]) ==> exists after :: Consumption(polls, before) == Consumption(polls[1..], after)
    ensures !Passed(polls[0]) ==> Consumption(polls, before).1 == Ending(polls[0])
  {
    var after := if polls[0].MalformedMessage? then before + [Receive(polls[0].m, false)] + FateSteps(polls[0].fate)
                 else before;
    assert Passed(polls[0]) ==> Consumption(polls, before) == Consumption(polls[1..], after);
  }

  /**
   * What `consume` returns: nothing if it goes on after every poll, and otherwise what the first poll
   * says that ends it. Receive errors never end it.
   */
  lemma {:induction false} ConsumeReturns(polls: seq<Poll>, before: seq<Step>, k: nat)
    requires k <= |polls| && (forall i :: 0 <= i < k ==> Passed(polls[i])) && (k < |polls| ==> !Passed(polls[k]))
    ensures Consumption(polls, before).1 == if k == |polls| then Success([]) else Ending(polls[k])
    decreases k
  {
    if polls != [] {
      OnePoll(polls, before);
      hide Consumption, Ending, Passed;
      if k > 0 {
        var after :| Consumption(polls, before) == Consumption(polls[1..], after);
        ConsumeReturns(polls[1..], after, k - 1);
      }
    }
  }

  // ---- Calling again ----

  ghost predicate Lost(s: State, log: Log, m: Message) {
    m.partition in s.view.committed && m.offset < s.view.committed[m.partition]
    && log(m.partition, m.offset) && m !in s.view.completed
  }

  /** Calling once more on a consumer whose last call failed or was dropped. */
  ghost function CalledAgain(s: State): State {
    State(s.view, Idle)
  }

  /** Some use of the consumer up to its next failure, or after a restart, loses a message. */
  ghost predicate CanLose(s: State, log: Log) {
    exists more: seq<Step>, m: Message ::
      && (forall step <- more :: !step.CallAgain?)
      && Exec(CalledAgain(s), log, more).Some? && Lost(Exec(CalledAgain(s), log, more).value, log, m)
  }

  lemma {:induction false} FirstToCome(log: Log, position: map<Partition, nat>, p: Partition, o: nat)
    returns (next: Message)
    requires At(position, p) <= o && log(p, o)
    ensures IsNext(log, position, next) && next.partition == p
    decreases o
  {
    if earlier: nat :| At(position, p) <= earlier < o && log(p, earlier) {
      next := FirstToCome(log, position, p, earlier);
    } else {
      next := Message(p, o);
    }
  }

  /** Receive a message, process it, acknowledge everything pending and commit. */
  function OneMore(next: Message, pending: nat): seq<Step> {
    [Begin, Receive(next, true), Process(true), Ack(pending + 1), Commit(true, true)]
  }

  lemma FiveSteps(s: State, log: Log, a: Step, b: Step, c: Step, d: Step, e: Step)
    requires Enabled(s, log, a)
    requires var t := Next(s, log, a); Enabled(t, log, b)
    requires var t := Next(Next(s, log, a), log, b); Enabled(t, log, c)
    requires var t := Next(Next(Next(s, log, a), log, b), log, c); Enabled(t, log, d)
    requires var t := Next(Next(Next(Next(s, log, a), log, b), log, c), log, d); Enabled(t, log, e)
    ensures Exec(s, log, [a, b, c, d, e])
            == Some(Next(Next(Next(Next(Next(s, log, a), log, b), log, c), log, d), log, e))
  {
    hide Enabled, Next;
    ExecNone(s, log);
    hide Exec;
    assert [] + [a] == [a] && [a] + [b] == [a, b] && [a, b] + [c] == [a, b, c];
    assert [a, b, c] + [d] == [a, b, c, d] && [a, b, c, d] + [e] == [a, b, c, d, e];
    ExecOne(s, log, [], a);
    ExecOne(s, log, [a], b);
    ExecOne(s, log, [a, b], c);
    ExecOne(s, log, [a, b, c], d);
    ExecOne(s, log, [a, b, c, d], e);
  }

  lemma OneMoreRuns(log: Log, v: View, next: Message)
    requires IsNext(log, v.position, next)
    ensures var r := Received(v, next, true);
            Exec(State(v, Idle), log, OneMore(next, |v.pending|))
            == Some(State(Committed(r.(completed := r.completed + {next}, stored := StoreAll(v.stored, r.pending),
                                       pending := [])), Idle))
  {
    hide Exec, StoreAll, IsNext;
    FiveSteps(State(v, Idle), log, Begin, Receive(next, true), Process(true), Ack(|v.pending| + 1), Commit(true, true));
  }

  lemma StoreAllAppend(stored: map<Partition, nat>, pending: seq<Pending>, q: Pending)
    ensures StoreAll(stored, pending + [q]) == StoreAll(stored, pending)[q.partition := q.offset]
  {
    assert (pending + [q])[..|pending|] == pending;
  }

  /** The last pending offset is the one that is stored for its partition. */
  lemma LastPendingIsStored(stored: map<Partition, nat>, pending: seq<Pending>)
    requires pending != []
    ensures var last := pending[|pending| - 1];
            last.partition in StoreAll(stored, pending) && StoreAll(stored, pending)[last.partition] == last.offset
  {
  }

  /** Acknowledging `next` with what is pending commits past the incomplete message. */
  lemma CommitsPast(s: State, log: Log, next: Message)
    requires PhaseSound(s, log) && IsNext(log, s.view.position, next)
    requires s.phase.Processing? || (s.phase.Quarantining? && next.partition == s.phase.m.partition)
    ensures var stored := StoreAll(s.view.stored, Received(s.view, next, true).pending);
            s.phase.m.partition in stored && s.phase.m.offset < stored[s.phase.m.partition]
    ensures next != s.phase.m
  {
    hide StoreAll;
    var v := s.view;
    StoreAllAppend(v.stored, v.pending, Pending(next.partition, next.offset + 1));
    if s.phase.Processing? {
      LastPendingIsStored(v.stored, v.pending);
    }
  }

  /** An exposed failure does lose its message when the consumer is called again. */
  lemma ExposedLoses(s: State, log: Log, step: Step)
    requires PhaseSound(s, log) && Enabled(s, log, step) && Exposed(s, log, step)
    ensures CanLose(Next(s, log, step), log)
  {
    hide StoreAll, Exec;
    var v, m := s.view, s.phase.m;
    var p :| MoreToCome(log, v.position, p) && (s.phase.Quarantining? ==> p == m.partition);
    var o: nat :| At(v.position, p) <= o && log(p, o);
    var next := FirstToCome(log, v.position, p, o);
    OneMoreRuns(log, v, next);
    CommitsPast(s, log, next);
    var again := CalledAgain(Next(s, log, step));
    assert again == State(v, Idle);
    assert Lost(Exec(again, log, OneMore(next, |v.pending|)).value, log, m);
  }

  /** Up to the next failure, and after restarts, nothing is lost. */
  lemma {:induction false} UseKeepsDurable(s: State, log: Log, steps: seq<Step>)
    requires Inv(s, log) && Exec(s, log, steps).Some? && forall step <- steps :: !step.CallAgain?
    ensures var t := Exec(s, log, steps).value; Durable(t, log) && (Inv(t, log) || t.phase.Failed?)
  {
    hide Inv, Durable, Exposed, Enabled, Next;
    InvIsDurable(s, log);
    if steps != [] {
      var front, last := steps[..|steps| - 1], steps[|steps| - 1];
      assert last in steps && forall step <- front :: step in steps;
      UseKeepsDurable(s, log, front);
      UseStep(Exec(s, log, front).value, log, last);
    }
  }

  lemma UseStep(s: State, log: Log, step: Step)
    requires Durable(s, log) && (Inv(s, log) || s.phase.Failed?) && Enabled(s, log, step) && !step.CallAgain?
    ensures var t := Next(s, log, step); Durable(t, log) && (Inv(t, log) || t.phase.Failed?)
  {
    if step.Restart? {
      RestartIsSound(s, log);
    } else {
      StepKeepsDurable(s, log, step);
      if !Exposed(s, log, step) {
        StepKeepsInv(s, log, step);
      }
    }
  }

  lemma UnexposedIsSafe(s: State, log: Log, step: Step)
    requires Inv(s, log) && Enabled(s, log, step) && Next(s, log, step).phase.Failed? && !Exposed(s, log, step)
    ensures !CanLose(Next(s, log, step), log)
  {
    hide Sound, Frozen, Exposed, Exec;
    var t := Next(s, log, step);
    StepKeepsInv(s, log, step);
    NothingExposed(t, log, CallAgain);
    StepKeepsInv(t, log, CallAgain);
    forall more: seq<Step>, m: Message |
        (forall step <- more :: !step.CallAgain?) && Exec(CalledAgain(t), log, more).Some?
      ensures !Lost(Exec(CalledAgain(t), log, more).value, log, m)
    {
      UseKeepsDurable(CalledAgain(t), log, more);
    }
  }

  lemma NothingExposed(s: State, log: Log, step: Step)
    requires !LeavesIncomplete(step)
    ensures !Exposed(s, log, step)
  {
  }

  /**
   * Exactly when calling again can lose a message, at every moment a call can fail or be dropped in
   * every run that was careful so far, however often it was called again: when `process` failed or was
   * dropped undone and any message is still to come, or when the quarantine was and one is still to
   * come from that partition.
   */
  lemma CallingAgainLosesExactly(log: Log, steps: seq<Step>, step: Step)
    requires Exec(START, log, steps).Some? && Careful(log, steps)
    requires var s := Exec(START, log, steps).value;
             !s.phase.Failed? && Enabled(s, log, step) && Next(s, log, step).phase.Failed?
    ensures var s := Exec(START, log, steps).value;
            CanLose(Next(s, log, step), log) <==> Exposed(s, log, step)
  {
    var s := Exec(START, log, steps).value;
    RunKeepsInv(log, steps);
    if JustExposed(log, steps) {
      ExposureEndsTheCall(log, steps);
    }
    hide Exec, Careful, JustExposed, CanLose;
    if Exposed(s, log, step) {
      ExposedLoses(s, log, step);
    } else {
      UnexposedIsSafe(s, log, step);
    }
  }

  lemma ExposureEndsTheCall(log: Log, steps: seq<Step>)
    requires Exec(START, log, steps).Some? && JustExposed(log, steps)
    ensures Exec(START, log, steps).value.phase.Failed?
  {
  }

  // ---- A message lost ----

  /** The pending offset of a failed message survives, and the next acknowledgement stores it. */
  lemma ContinuingAfterAFailedProcessLoses(log: Log, p: Partition)
    requires log(p, 0) && log(p, 1)
    ensures var first := [Begin, Receive(Message(p, 0), true), Process(false)];
            var second := OneMore(Message(p, 1), 1);
            && Exec(START, log, first).Some? && Exec(START, log, first).value.phase.Failed?
            && Exec(CalledAgain(Exec(START, log, first).value), log, second).Some?
            && Lost(Exec(CalledAgain(Exec(START, log, first).value), log, second).value, log, Message(p, 0))
  {
    ExecFirst(log, p);
    var v := View([Pending(p, 1)], map[], map[p := 1], map[], {});
    OneMoreRuns(log, v, Message(p, 1));
    var pending := [Pending(p, 1)] + [Pending(p, 2)];
    assert pending[..1] == [Pending(p, 1)];
  }

  lemma ExecFirst(log: Log, p: Partition)
    requires log(p, 0)
    ensures var a := Message(p, 0);
            Exec(START, log, [Begin, Receive(a, true), Process(false)])
            == Some(State(View([Pending(p, 1)], map[], map[p := 1], map[], {}), Failed))
  {
    var a := Message(p, 0);
    assert Exec(START, log, []) == Some(START);
    ExecOne(START, log, [], Begin);
    assert [] + [Begin] == [Begin];
    ExecOne(START, log, [Begin], Receive(a, true));
    assert [Begin] + [Receive(a, true)] == [Begin, Receive(a, true)];
    ExecOne(START, log, [Begin, Receive(a, true)], Process(false));
    assert [Begin, Receive(a, true)] + [Process(false)] == [Begin, Receive(a, true), Process(false)];
    assert START.view.position[p := 1] == map[p := 1];
    assert START.view.pending + [Pending(p, 1)] == [Pending(p, 1)];
  }
}

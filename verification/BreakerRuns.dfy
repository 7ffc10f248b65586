/**
 * Safety of the circuit breaker over whole runs. Outcomes may arrive in any order relative to
 * the admissions they belong to, arbitrarily late, or never.
 */
module BreakerRuns {
  import opened Wrappers
  import opened Breaker

  datatype Event =
    | Asked(at: int)
    | Succeeded(at: int)
    | Failed(at: int, noted: int)

  function End(e: Event): int {
    if e.Failed? then e.noted else e.at
  }

  /** Clock readings never decrease along the run. */
  ghost predicate Timed(events: seq<Event>) {
    && (forall i :: 0 <= i < |events| ==> events[i].at <= End(events[i]))
    && (forall i, j :: 0 <= i < j < |events| ==> End(events[i]) <= events[j].at)
  }

  function Apply(v: View, e: Event): View {
    match e
    case Asked(at) => AfterAllow(v, at)
    case Succeeded(at) => RecordSuccess(v, at)
    case Failed(at, noted) => RecordFailure(v, at, noted)
  }

  function After(events: seq<Event>): View {
    if events == [] then FRESH else Apply(After(events[..|events| - 1]), events[|events| - 1])
  }

  /** Every outcome of the run, oldest first. */
  function Outcomes(events: seq<Event>): seq<Event> {
    if events == [] then []
    else
      var last := events[|events| - 1];
      Outcomes(events[..|events| - 1]) + (if last.Asked? then [] else [last])
  }

  /** The outcomes pushed at or after `since`. */
  function Since(outcomes: seq<Event>, since: int): seq<Entry> {
    if outcomes == [] then []
    else
      var last := outcomes[|outcomes| - 1];
      Since(outcomes[..|outcomes| - 1], since) + (if last.at >= since then [Entry(last.at, last.Failed?)] else [])
  }

  lemma TimedPrefix(events: seq<Event>, n: nat)
    requires Timed(events) && n <= |events|
    ensures Timed(events[..n])
  {
  }

  lemma {:induction false} OutcomesAreTimed(events: seq<Event>)
    requires Timed(events)
    ensures Timed(Outcomes(events))
    ensures forall o <- Outcomes(events) :: !o.Asked?
    ensures events != [] ==> forall o <- Outcomes(events[..|events| - 1]) :: End(o) <= events[|events| - 1].at
    ensures events != [] ==> forall o <- Outcomes(events) :: End(o) <= End(events[|events| - 1])
  {
    if events != [] {
      var front := events[..|events| - 1];
      OutcomesAreTimed(front);
      if front != [] {
        assert End(front[|front| - 1]) <= events[|events| - 1].at;
      }
      assert events[|events| - 1].at <= End(events[|events| - 1]);
    }
  }

  // ---- The rolling window ----

  ghost predicate SortedEntries(es: seq<Entry>) {
    forall i, j :: 0 <= i < j < |es| ==> es[i].at <= es[j].at
  }

  lemma {:induction false} TrimAppend(es: seq<Entry>, e: Entry, cutoff: int)
    requires SortedEntries(es + [e])
    ensures Trim(es + [e], cutoff) == if e.at >= cutoff then Trim(es, cutoff) + [e] else Trim(es, cutoff)
    ensures e.at < cutoff ==> Trim(es, cutoff) == []
  {
    if es == [] {
      assert [e][1..] == [];
    } else {
      assert (es + [e])[0] == es[0] && (es + [e])[1..] == es[1..] + [e];
      assert SortedEntries(es[1..] + [e]) by {
        assert (es + [e])[1..] == es[1..] + [e];
      }
      TrimAppend(es[1..], e, cutoff);
      assert (es + [e])[|es|] == e;
    }
  }

  lemma {:induction false} SinceShape(outcomes: seq<Event>, since: int)
    requires Timed(outcomes)
    ensures SortedEntries(Since(outcomes, since))
    ensures forall e <- Since(outcomes, since) :: since <= e.at
    ensures outcomes != [] ==> forall e <- Since(outcomes, since) :: e.at <= outcomes[|outcomes| - 1].at
  {
    if outcomes != [] {
      var front := outcomes[..|outcomes| - 1];
      SinceShape(front, since);
      if front != [] {
        assert End(front[|front| - 1]) <= outcomes[|outcomes| - 1].at;
      }
    }
  }

  /** Trimming what a wider window kept gives the narrower window. */
  lemma {:induction false} TrimSince(outcomes: seq<Event>, wide: int, narrow: int)
    requires Timed(outcomes) && wide <= narrow
    ensures Trim(Since(outcomes, wide), narrow) == Since(outcomes, narrow)
  {
    if outcomes != [] {
      var front, last := outcomes[..|outcomes| - 1], outcomes[|outcomes| - 1];
      TrimSince(front, wide, narrow);
      SinceShape(outcomes, wide);
      if last.at >= wide {
        TrimAppend(Since(front, wide), Entry(last.at, last.Failed?), narrow);
        assert narrow > last.at ==> Since(front, narrow) == [];
      }
    }
  }

  /** What the window should hold after the outcomes `outs`. */
  function Window(outs: seq<Event>): seq<Entry> {
    if outs == [] then [] else Since(outs, outs[|outs| - 1].at - WINDOW)
  }

  lemma FirstWindow(e: Event)
    ensures Pushed([], e.at, e.Failed?) == Window([e])
  {
    assert [e][..0] == [];
    assert Since([e], e.at - WINDOW) == [] + [Entry(e.at, e.Failed?)];
  }

  lemma SinceAppend(outs: seq<Event>, e: Event, since: int)
    requires e.at >= since
    ensures Since(outs + [e], since) == Since(outs, since) + [Entry(e.at, e.Failed?)]
  {
    assert (outs + [e])[..|outs|] == outs;
  }

  lemma WindowStep(outs: seq<Event>, e: Event)
    requires Timed(outs + [e])
    ensures Pushed(Window(outs), e.at, e.Failed?) == Window(outs + [e])
  {
    hide Trim, Since;
    if outs == [] {
      FirstWindow(e);
      assert outs + [e] == [e];
    } else {
      var last := outs[|outs| - 1];
      TimedPrefix(outs + [e], |outs|);
      assert (outs + [e])[..|outs|] == outs && (outs + [e])[|outs| - 1] == last && (outs + [e])[|outs|] == e;
      assert last.at <= End(last) <= e.at;
      TrimSince(outs, last.at - WINDOW, e.at - WINDOW);
      SinceAppend(outs, e, e.at - WINDOW);
    }
  }

  /** What each event does to the window. */
  lemma RecentAfter(v: View, e: Event)
    ensures Apply(v, e).recent == if e.Asked? then v.recent else Pushed(v.recent, e.at, e.Failed?)
  {
    hide Pushed, ErrorRateExceeded;
  }

  lemma {:induction false} WindowInvariant(events: seq<Event>)
    requires Timed(events)
    ensures After(events).recent == Window(Outcomes(events))
  {
    hide Pushed, Window, Timed, Apply, Since;
    if events == [] {
      NothingInWindow();
    } else {
      var front, last := events[..|events| - 1], events[|events| - 1];
      TimedPrefix(events, |front|);
      WindowInvariant(front);
      OutcomesAreTimed(events);
      RecentAfter(After(front), last);
      if !last.Asked? {
        WindowStep(Outcomes(front), last);
      } else {
        assert Outcomes(events) == Outcomes(front);
      }
    }
  }

  lemma NothingInWindow()
    ensures Window([]) == []
  {
  }

  /** Right after an outcome is recorded the window holds exactly the last 30 seconds of outcomes. */
  lemma WindowIsExact(events: seq<Event>, e: Event)
    requires Timed(events + [e]) && !e.Asked?
    ensures After(events + [e]).recent == Since(Outcomes(events + [e]), e.at - 30 * SECOND)
  {
    hide Timed, Since, After, Outcomes;
    WindowInvariant(events + [e]);
    AfterNext(events, e);
    var outs := Outcomes(events) + [e];
    assert outs[|outs| - 1] == e;
  }

  // ---- When the breaker opens ----

  /** The last `count` outcomes are failures judged in the 30 seconds from `start`. */
  ghost predicate Streak(outs: seq<Event>, count: nat, start: int) {
    && count <= |outs|
    && forall i :: |outs| - count <= i < |outs| ==> outs[i].Failed? && start <= outs[i].noted < start + 30 * SECOND
  }

  lemma {:induction false} StreakInvariant(events: seq<Event>)
    requires Timed(events)
    ensures var v := After(events);
            && (v.state.HalfOpen? ==> v.probeSent)
            && (v.state.Open? ==> v.openedAt.Some?)
            && (v.state.Closed? ==>
                  if v.windowStart.Some? then
                    1 <= v.failures < THRESHOLD && Streak(Outcomes(events), v.failures, v.windowStart.value)
                  else v.failures == 0)
  {
    if events != [] {
      var front, last := events[..|events| - 1], events[|events| - 1];
      StreakInvariant(front);
      OutcomesAreTimed(events);
      if last.Failed? && After(front).state.Closed? {
        JudgedFailure(front, last);
      }
    }
  }

  /** The count kept after a failure in Closed describes the run's last outcomes. */
  lemma JudgedFailure(front: seq<Event>, last: Event)
    requires Timed(front + [last]) && last.Failed?
    requires var v := After(front);
             && v.state.Closed?
             && if v.windowStart.Some? then Streak(Outcomes(front), v.failures, v.windowStart.value)
                else v.failures == 0
    ensures var v := RecordFailure(After(front), last.at, last.noted);
            v.windowStart.Some? && v.failures >= 1
            && Streak(Outcomes(front) + [last], v.failures, v.windowStart.value)
  {
    hide Pushed, After, Outcomes, ErrorRateExceeded;
    var v, outs := After(front), Outcomes(front);
    TimedPrefix(front + [last], |front|);
    assert (front + [last])[..|front|] == front && (front + [last])[|front|] == last;
    assert last.at <= last.noted;
    if v.windowStart.Some? && !WindowElapsed(v, last.noted) {
      WindowStartInPast(front);
      assert (front + [last])[|front| - 1] == front[|front| - 1];
      StreakGrows(outs, v.failures, v.windowStart.value, last);
    } else {
      StreakGrows(outs, 0, last.noted, last);
    }
  }

  lemma StreakGrows(outs: seq<Event>, count: nat, start: int, last: Event)
    requires Streak(outs, count, start) && last.Failed? && start <= last.noted < start + WINDOW
    ensures Streak(outs + [last], count + 1, start)
  {
  }

  lemma {:induction false} WindowStartInPast(events: seq<Event>)
    requires Timed(events)
    ensures After(events).windowStart.Some? ==>
              events != [] && After(events).windowStart.value <= End(events[|events| - 1])
  {
    if events != [] {
      var front := events[..|events| - 1];
      WindowStartInPast(front);
      if front != [] {
        assert End(front[|front| - 1]) <= events[|events| - 1].at <= End(events[|events| - 1]);
      }
    }
  }

  ghost predicate FiveFailuresWithinWindow(outs: seq<Event>) {
    && |outs| >= 5
    && (forall i :: |outs| - 5 <= i < |outs| ==> outs[i].Failed?)
    && outs[|outs| - 1].noted - outs[|outs| - 5].noted < 30 * SECOND
  }

  ghost predicate MajorityFailed(window: seq<Entry>) {
    |window| >= 5 && 2 * Errors(window) > |window|
  }

  /**
   * Closed turns Open only at a failure, and only when the last five outcomes failed within 30
   * seconds or the last 30 seconds hold five outcomes or more with a strict majority failing.
   */
  lemma OpeningIsJustified(events: seq<Event>, e: Event)
    requires Timed(events + [e]) && After(events).state.Closed? && !After(events + [e]).state.Closed?
    ensures e.Failed? && After(events + [e]).state.Open? && After(events + [e]).openedAt == Some(e.noted)
    ensures var outs := Outcomes(events + [e]);
            FiveFailuresWithinWindow(outs) || MajorityFailed(Since(outs, e.at - 30 * SECOND))
  {
    assert (events + [e])[..|events|] == events;
    TimedPrefix(events + [e], |events|);
    StreakInvariant(events);
    WindowIsExact(events, e);
    JudgedFailure(events, e);
    assert Outcomes(events + [e]) == Outcomes(events) + [e];
  }

  /**
   * The failure window at the end of the outcomes: the failures since the last success, in windows
   * fixed to their first failure. Where the last of them starts and how many failures it holds.
   */
  function FixedWindow(outs: seq<Event>): (r: (Option<int>, nat))
    ensures r.0.None? ==> r.1 == 0
  {
    if outs == [] || !outs[|outs| - 1].Failed? then (None, 0)
    else
      var (start, count) := FixedWindow(outs[..|outs| - 1]);
      var noted := outs[|outs| - 1].noted;
      if start.None? || noted - start.value >= 30 * SECOND then (Some(noted), 1) else (start, count + 1)
  }

  lemma OneMoreOutcome(outs: seq<Event>, e: Event)
    ensures FixedWindow(outs + [e])
            == if !e.Failed? then (None, 0)
               else
                 var (start, count) := FixedWindow(outs);
                 if start.None? || e.noted - start.value >= WINDOW then (Some(e.noted), 1) else (start, count + 1)
  {
    assert (outs + [e])[..|outs|] == outs;
  }

  /** A closed breaker's counters are a function of the outcomes. */
  lemma {:induction false} CountersFollowOutcomes(events: seq<Event>)
    ensures After(events).state.Closed? ==>
              (After(events).windowStart, After(events).failures) == FixedWindow(Outcomes(events))
  {
    hide FixedWindow, Pushed, ErrorRateExceeded;
    if events == [] {
      NoWindow();
    } else {
      var front, last := events[..|events| - 1], events[|events| - 1];
      assert front + [last] == events;
      CountersFollowOutcomes(front);
      AfterNext(front, last);
      if last.Asked? {
        assert Outcomes(events) == Outcomes(front);
      } else {
        OneMoreOutcome(Outcomes(front), last);
      }
    }
  }

  lemma NoWindow()
    ensures FixedWindow([]) == (None, 0)
  {
  }

  /**
   * The exact rule, over the outcomes of the run: a failure opens a closed breaker if and only if a
   * strict majority of the last 30 seconds failed or it is the fifth in its fixed window.
   */
  lemma OpensExactlyWhen(events: seq<Event>, e: Event)
    requires Timed(events + [e]) && After(events).state.Closed? && e.Failed?
    ensures var outs := Outcomes(events + [e]);
            After(events + [e]).state.Open?
            <==> MajorityFailed(Since(outs, e.at - 30 * SECOND)) || FixedWindow(outs).1 >= 5
  {
    hide Timed, Since, FixedWindow, Pushed, Outcomes, After;
    AfterNext(events, e);
    WindowIsExact(events, e);
    CountersFollowOutcomes(events);
    OneMoreOutcome(Outcomes(events), e);
  }

  // ---- Probe discipline ----

  ghost predicate Admitted(events: seq<Event>, k: nat)
    requires k < |events|
  {
    events[k].Asked? && Allows(After(events[..k]), events[k].at)
  }

  /** The breaker is not closed before any of the events i+1..j. */
  ghost predicate NeverClosedBetween(events: seq<Event>, i: nat, j: nat)
    requires i < j < |events|
  {
    forall k :: i < k <= j ==> !After(events[..k]).state.Closed?
  }

  lemma LaterEvent(events: seq<Event>, i: nat, j: nat)
    requires Timed(events) && i < j < |events|
    ensures End(events[i]) <= events[j].at <= End(events[j])
  {
  }

  ghost predicate OpenSince(v: View, since: int) {
    v.state.HalfOpen? || (v.state.Open? && v.openedAt.Some? && v.openedAt.value >= since)
  }

  lemma OpeningStays(v: View, e: Event, since: int)
    requires OpenSince(v, since) && since <= End(e)
    ensures OpenSince(Apply(v, e), since) || Apply(v, e).state.Closed?
  {
    hide Pushed, ErrorRateExceeded;
  }

  /** Whatever happens from event `i` on, while not closed the breaker remembers an opening no older than `since`. */
  lemma {:induction false} OpeningStaysRecent(events: seq<Event>, i: nat, j: nat, since: int)
    requires Timed(events) && i < j < |events| && NeverClosedBetween(events, i, j)
    requires OpenSince(After(events[..i + 1]), since)
    requires since <= End(events[i])
    ensures OpenSince(After(events[..j]), since)
    decreases j
  {
    hide NeverClosedBetween, Timed, After, Apply, OpenSince;
    if j > i + 1 {
      NotClosedEarlier(events, i, j);
      OpeningStaysRecent(events, i, j - 1, since);
      assert events[..j] == events[..j - 1] + [events[j - 1]];
      AfterNext(events[..j - 1], events[j - 1]);
      LaterEvent(events, i, j - 1);
      OpeningStays(After(events[..j - 1]), events[j - 1], since);
    }
  }

  lemma NotClosedEarlier(events: seq<Event>, i: nat, j: nat)
    requires i + 1 < j < |events| && NeverClosedBetween(events, i, j)
    ensures NeverClosedBetween(events, i, j - 1) && !After(events[..j]).state.Closed?
  {
    hide After;
  }

  lemma NextAdmissionWaits(events: seq<Event>, i: nat, j: nat, since: int)
    requires Timed(events) && i < j < |events| && NeverClosedBetween(events, i, j) && Admitted(events, j)
    requires OpenSince(After(events[..i + 1]), since)
    requires since <= End(events[i])
    ensures events[j].at - since >= RESET
  {
    OpeningStaysRecent(events, i, j, since);
    TimedPrefix(events, j);
    StreakInvariant(events[..j]);
  }

  /**
   * From an opening (or reopening) until the breaker next closes, an admitted request comes at
   * least 15 seconds after the opening, and admitted requests are at least 15 seconds apart.
   */
  lemma ProbeDiscipline(events: seq<Event>, i: nat, j: nat)
    requires Timed(events) && i < j < |events| && NeverClosedBetween(events, i, j) && Admitted(events, j)
    ensures !After(events[..i]).state.Open? && After(events[..i + 1]).state.Open? ==>
              events[j].at - End(events[i]) >= 15 * SECOND
    ensures !After(events[..i]).state.Closed? && Admitted(events, i) ==> events[j].at - events[i].at >= 15 * SECOND
  {
    assert events[..i + 1][..i] == events[..i];
    TimedPrefix(events, i);
    TimedPrefix(events, i + 1);
    StreakInvariant(events[..i]);
    if After(events[..i]).state.Closed? {
      assert events[..i + 1] == events[..i] + [events[i]];
      OpeningIsJustified(events[..i], events[i]);
      NextAdmissionWaits(events, i, j, End(events[i]));
    } else if After(events[..i]).state.HalfOpen? && After(events[..i + 1]).state.Open? {
      NextAdmissionWaits(events, i, j, End(events[i]));
    } else if Admitted(events, i) {
      NextAdmissionWaits(events, i, j, events[i].at);
    }
  }

  /** An open breaker knows since when, and a half-open one has sent its probe. */
  ghost predicate Consistent(v: View) {
    (v.state.Open? ==> v.openedAt.Some?) && (v.state.HalfOpen? ==> v.probeSent)
  }

  lemma {:induction false} StaysConsistent(events: seq<Event>)
    ensures Consistent(After(events))
  {
    if events != [] {
      StaysConsistent(events[..|events| - 1]);
      hide Pushed, ErrorRateExceeded, WindowElapsed;
    }
  }

  /** The state after an event, where it is decided by the state before. */
  ghost predicate Moves(v: View, e: Event, w: View)
    requires Consistent(v)
  {
    match v.state
    case Closed => w.state.Closed? || (e.Failed? && w.state.Open? && w.openedAt == Some(e.noted))
    case Open =>
      && w.openedAt == v.openedAt
      && w.state == if e.Asked? && e.at >= v.openedAt.value + 15 * SECOND then HalfOpen else Open
    case HalfOpen =>
      && w.state == (if e.Asked? then HalfOpen else if e.Succeeded? then Closed else Open)
      && (e.Failed? ==> w.openedAt == Some(e.noted))
  }

  lemma ApplyMoves(v: View, e: Event)
    requires Consistent(v)
    ensures Moves(v, e, Apply(v, e))
    ensures e.Asked? && Allows(v, e.at) <==>
              e.Asked? && (v.state.Closed? || (v.state.Open? && e.at >= v.openedAt.value + 15 * SECOND))
  {
    hide Pushed, ErrorRateExceeded, WindowElapsed;
  }

  /**
   * Every move of a breaker. Closed is left at a failure only, which stamps the opening; Open is left
   * only when a request comes 15 seconds or more after the opening, whatever outcomes arrive late;
   * half-open is left at the next outcome. Exactly those requests and the ones of a closed breaker pass.
   */
  lemma MovesExactly(events: seq<Event>, e: Event)
    ensures Consistent(After(events)) && Moves(After(events), e, After(events + [e]))
    ensures var v := After(events);
            Admitted(events + [e], |events|) <==>
              && e.Asked?
              && (v.state.Closed? || (v.state.Open? && e.at >= v.openedAt.value + 15 * SECOND))
  {
    StaysConsistent(events);
    AfterNext(events, e);
    assert (events + [e])[..|events|] == events;
    hide After, Apply, Allows, Moves, Consistent;
    ApplyMoves(After(events), e);
  }

  /** Without a request 15 seconds or more after the opening, an open breaker stays open and admits nothing. */
  lemma {:induction false} OpenUntilAsked(events: seq<Event>, more: seq<Event>, since: int)
    requires After(events).state.Open? && After(events).openedAt == Some(since)
    requires forall e <- more :: e.Asked? ==> e.at < since + 15 * SECOND
    ensures After(events + more).state.Open? && After(events + more).openedAt == Some(since)
    ensures forall k :: |events| <= k < |events + more| ==> !Admitted(events + more, k)
  {
    hide After, Admitted;
    if more == [] {
      assert events + more == events;
    } else {
      var front, last := more[..|more| - 1], more[|more| - 1];
      assert events + more == events + front + [last];
      OpenUntilAsked(events, front, since);
      MovesExactly(events + front, last);
      forall k | |events| <= k < |events + more|
        ensures !Admitted(events + more, k)
      {
        if k < |events + front| {
          SameAdmission(events + front, last, k);
        }
      }
    }
  }

  lemma SameAdmission(events: seq<Event>, e: Event, k: nat)
    requires k < |events|
    ensures Admitted(events + [e], k) <==> Admitted(events, k)
  {
    assert (events + [e])[..k] == events[..k];
  }

  /**
   * A half-open breaker waits for an outcome: if every outstanding send is dropped before it
   * reports, requests are refused for as long as the run lasts.
   */
  lemma {:induction false} LostProbeBlocksForever(events: seq<Event>, asks: seq<Event>)
    requires Timed(events + asks) && After(events).state.HalfOpen?
    requires forall a <- asks :: a.Asked?
    ensures After(events + asks) == After(events)
    ensures forall k :: |events| <= k < |events + asks| ==> !Admitted(events + asks, k)
  {
    var run := events + asks;
    assert run[..|events|] == events;
    HalfOpenHoldsProbe(run, |events|);
    forall k | |events| <= k <= |run|
      ensures After(run[..k]) == After(events)
    {
      StaysHalfOpen(run, |events|, k);
    }
    assert run[..|run|] == run;
  }

  /**
   * The exact rule: a half-open breaker stays so until the next outcome. A success admits again at
   * once, a failure from 15 seconds on.
   */
  lemma OutcomeReleasesHalfOpen(events: seq<Event>, asks: seq<Event>, e: Event, at: int)
    requires Timed(events + asks + [e]) && After(events).state.HalfOpen?
    requires forall a <- asks :: a.Asked?
    ensures var v := After(events + asks + [e]);
            && (v.state.HalfOpen? <==> e.Asked?)
            && (e.Asked? ==> !Allows(v, at))
            && (e.Succeeded? ==> Allows(v, at))
            && (e.Failed? ==> (Allows(v, at) <==> at >= End(e) + 15 * SECOND))
  {
    var run := events + asks;
    assert run + [e] == events + asks + [e];
    assert (run + [e])[..|run|] == run;
    TimedPrefix(run + [e], |run|);
    LostProbeBlocksForever(events, asks);
    assert run[..|events|] == events;
    HalfOpenHoldsProbe(run, |events|);
    AfterNext(run, e);
  }

  /** Five failures at once, and a request 15 seconds later: its answer never comes. */
  function LosingRun(): seq<Event> {
    seq(5, i => Failed(0, 0)) + [Asked(RESET)]
  }

  /** A breaker that has seen nothing but `n` failures at 0. */
  function AfterFailures(n: nat): View {
    FRESH.(failures := n, windowStart := if n == 0 then None else Some(0), recent := seq(n, i => Entry(0, true)))
  }

  lemma OneMoreFailure(n: nat)
    requires n < 4
    ensures Apply(AfterFailures(n), Failed(0, 0)) == AfterFailures(n + 1)
  {
    var recent := seq(n, i => Entry(0, true));
    assert Trim(recent, 0 - WINDOW) == recent;
    assert recent + [Entry(0, true)] == seq(n + 1, i => Entry(0, true));
    hide Trim;
  }

  lemma {:induction false} FailuresAtOnce(n: nat)
    requires n <= 4
    ensures After(seq(n, i => Failed(0, 0))) == AfterFailures(n)
  {
    hide After, Apply;
    var run := seq(n, i => Failed(0, 0));
    if n == 0 {
      assert run == [];
      AfterNothing();
    } else {
      hide AfterFailures;
      FailuresAtOnce(n - 1);
      var front := seq(n - 1, i => Failed(0, 0));
      assert run == front + [Failed(0, 0)];
      AfterNext(front, Failed(0, 0));
      OneMoreFailure(n - 1);
    }
  }

  /** From a fresh breaker: the run opens it, its last request is the probe, and no later request is admitted. */
  lemma ProbeCanBeLost(asks: seq<Event>)
    requires Timed(LosingRun() + asks) && forall a <- asks :: a.Asked?
    ensures var run := LosingRun();
            && Admitted(run, 5) && After(run).state.HalfOpen? && After(run + asks).state.HalfOpen?
            && forall k :: 6 <= k < |run + asks| ==> !Admitted(run + asks, k)
  {
    var run := LosingRun();
    FailuresAtOnce(4);
    var four := seq(4, i => Failed(0, 0));
    var five := four + [Failed(0, 0)];
    AfterNext(four, Failed(0, 0));
    assert run[..5] == five && run == five + [Asked(RESET)];
    AfterNext(five, Asked(RESET));
    LostProbeBlocksForever(run, asks);
  }

  lemma HalfOpenHoldsProbe(run: seq<Event>, n: nat)
    requires Timed(run) && n <= |run|
    ensures After(run[..n]).state.HalfOpen? ==> After(run[..n]).probeSent
  {
    TimedPrefix(run, n);
    StreakInvariant(run[..n]);
  }

  lemma {:induction false} StaysHalfOpen(run: seq<Event>, n: nat, k: nat)
    requires n <= k <= |run| && After(run[..n]).state.HalfOpen? && After(run[..n]).probeSent
    requires forall i :: n <= i < |run| ==> run[i].Asked?
    ensures After(run[..k]) == After(run[..n])
    decreases k
  {
    if k > n {
      StaysHalfOpen(run, n, k - 1);
      assert run[..k] == run[..k - 1] + [run[k - 1]];
      AfterNext(run[..k - 1], run[k - 1]);
    }
  }

  // ---- Where the documented streak rule fails ----

  lemma AfterNext(events: seq<Event>, e: Event)
    ensures After(events + [e]) == Apply(After(events), e)
    ensures Outcomes(events + [e]) == Outcomes(events) + (if e.Asked? then [] else [e])
  {
    assert (events + [e])[..|events|] == events;
  }

  /** Six successes at one instant, then six failures: the fifth is judged 30 seconds after the first. */
  function UnnoticedStreak(): seq<Event> {
    [Succeeded(0), Succeeded(0), Succeeded(0), Succeeded(0), Succeeded(0), Succeeded(0),
     Failed(0, 0), Failed(SECOND, SECOND), Failed(SECOND, SECOND), Failed(SECOND, SECOND),
     Failed(WINDOW, WINDOW), Failed(WINDOW, WINDOW)]
  }

  /** Closed after `outcomes` outcomes of which `errors` failed, the first pushed at 0. */
  ghost predicate ClosedWith(v: View, outcomes: nat, errors: nat, failures: nat, start: Option<int>) {
    && v.state.Closed? && v.failures == failures && v.windowStart == start
    && |v.recent| == outcomes > 0 && v.recent[0].at == 0 && Errors(v.recent) == errors
  }

  /** A closed breaker absorbs a failure that neither completes a streak nor tips the error rate. */
  lemma Absorbed(run: seq<Event>, n: nat, outcomes: nat, errors: nat, failures: nat, start: Option<int>)
    requires n < |run| && run[n].Failed? && run[n].at <= WINDOW
    requires ClosedWith(After(run[..n]), outcomes, errors, failures, start)
    requires errors + 1 <= (outcomes + 1) / 2
    requires failures + 1 < THRESHOLD || (start.Some? && run[n].noted - start.value >= WINDOW)
    ensures var elapsed := start.Some? && run[n].noted - start.value >= WINDOW;
            ClosedWith(After(run[..n + 1]), outcomes + 1, errors + 1, if elapsed then 1 else failures + 1,
                       if start.None? || elapsed then Some(run[n].noted) else start)
  {
    assert run[..n + 1] == run[..n] + [run[n]];
    AfterNext(run[..n], run[n]);
    ErrorsAppend(After(run[..n]).recent, Entry(run[n].at, true));
  }

  lemma {:induction false} NoAsks(events: seq<Event>)
    requires forall e <- events :: !e.Asked?
    ensures Outcomes(events) == events
  {
    if events != [] {
      NoAsks(events[..|events| - 1]);
      assert events[|events| - 1] in events;
    }
  }

  lemma {:induction false} AllSucceeded(n: nat)
    requires n <= 6
    ensures var run := UnnoticedStreak()[..n];
            After(run) == FRESH.(recent := seq(n, i => Entry(0, false)))
  {
    var run := UnnoticedStreak();
    UnnoticedEvents();
    hide UnnoticedStreak, After;
    if n > 0 {
      AllSucceeded(n - 1);
      assert run[..n] == run[..n - 1] + [Succeeded(0)];
      AfterNext(run[..n - 1], Succeeded(0));
      OneMoreSuccess(seq(n - 1, i => Entry(0, false)), FRESH.(recent := seq(n - 1, i => Entry(0, false))));
      assert seq(n, i => Entry(0, false)) == seq(n - 1, i => Entry(0, false)) + [Entry(0, false)];
    } else {
      assert run[..0] == [];
      AfterNothing();
    }
  }

  lemma AfterNothing()
    ensures After([]) == FRESH
  {
  }

  lemma OneMoreSuccess(recent: seq<Entry>, v: View)
    requires v == FRESH.(recent := recent) && (recent != [] ==> recent[0].at == 0)
    ensures Apply(v, Succeeded(0)) == FRESH.(recent := recent + [Entry(0, false)])
  {
  }

  lemma UnnoticedEvents()
    ensures var run := UnnoticedStreak();
            && |run| == 12 && run[6] == Failed(0, 0)
            && run[7] == run[8] == run[9] == Failed(SECOND, SECOND)
            && run[10] == run[11] == Failed(WINDOW, WINDOW)
            && (forall i :: 0 <= i < 6 ==> run[i] == Succeeded(0))
  {
  }

  lemma UnnoticedIsARun()
    ensures Timed(UnnoticedStreak()) && Outcomes(UnnoticedStreak()) == UnnoticedStreak()
  {
    UnnoticedEvents();
    hide UnnoticedStreak;
    NoAsks(UnnoticedStreak());
  }

  lemma SuccessesKeepItClosed(run: seq<Event>)
    requires run == UnnoticedStreak()
    ensures |run| == 12 && ClosedWith(After(run[..6]), 6, 0, 0, None)
  {
    hide UnnoticedStreak, After;
    UnnoticedEvents();
    AllSucceeded(6);
    NoErrors(After(run[..6]).recent);
  }

  lemma StreakIsAbsorbed(run: seq<Event>)
    requires run == UnnoticedStreak()
    ensures |run| == 12 && ClosedWith(After(run[..10]), 10, 4, 4, Some(0))
  {
    hide UnnoticedStreak, After, ClosedWith;
    UnnoticedEvents();
    SuccessesKeepItClosed(run);
    Absorbed(run, 6, 6, 0, 0, None);
    Absorbed(run, 7, 7, 1, 1, Some(0));
    Absorbed(run, 8, 8, 2, 2, Some(0));
    Absorbed(run, 9, 9, 3, 3, Some(0));
  }

  /**
   * "Five consecutive failures within 30 seconds open the breaker" is not what the code does:
   * the failure window is fixed to the first failure, so a streak that straddles its end is missed.
   */
  lemma StreakRuleFails()
    ensures Timed(UnnoticedStreak())
    ensures FiveFailuresWithinWindow(Outcomes(UnnoticedStreak()))
    ensures After(UnnoticedStreak()).state.Closed?
  {
    var run := UnnoticedStreak();
    UnnoticedEvents();
    UnnoticedIsARun();
    hide UnnoticedStreak, After, Outcomes, Timed;
    StreakIsAbsorbed(run);
    Absorbed(run, 10, 10, 4, 4, Some(0));
    Absorbed(run, 11, 11, 5, 1, Some(WINDOW));
    assert run[..12] == run;
  }

  lemma {:induction false} NoErrors(es: seq<Entry>)
    requires forall e <- es :: !e.error
    ensures Errors(es) == 0
  {
    if es != [] {
      NoErrors(es[..|es| - 1]);
      assert es[|es| - 1] in es;
    }
  }

  lemma ErrorsAppend(es: seq<Entry>, e: Entry)
    ensures Errors(es + [e]) == Errors(es) + if e.error then 1 else 0
  {
    assert (es + [e])[..|es|] == es;
  }
}

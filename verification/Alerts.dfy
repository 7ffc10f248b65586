/**
 * Deduplication and rate limiting of alerts (server/alerts/rules.py). Clock readings are explicit:
 * a check that reads the clock twice takes two readings.
 */
module Alerts {
  import opened Rolling

  datatype Key = Key(opportunity: string, rule: string)

  datatype Rule = Rule(name: string, ratePerMinute: int)

  /** The module-level state as one value. */
  datatype Gate = Gate(seen: set<Key>, seenAt: map<Key, real>, limiters: map<string, seq<real>>)

  const HOUR := 3600.0
  const MINUTE := 60.0

  function Pruned(g: Gate, now: real): Gate {
    var stale := set k | k in g.seenAt && g.seenAt[k] < now - HOUR;
    g.(seen := g.seen - stale, seenAt := g.seenAt - stale)
  }

  function Purge(times: seq<real>, cutoff: real): seq<real> {
    if times != [] && times[0] < cutoff then Purge(times[1..], cutoff) else times
  }

  function Limiter(g: Gate, rule: string): seq<real> {
    if rule in g.limiters then g.limiters[rule] else []
  }

  /** One attempt to alert: the readings of the prune, of the mark and of the rate check. */
  datatype Attempt = Attempt(key: Key, rate: int, pruneAt: real, markAt: real, rateAt: real)

  datatype Verdict = Duplicate | Limited | Admitted

  function VerdictOf(g: Gate, a: Attempt): Verdict {
    if a.key in Pruned(g, a.pruneAt).seen then Duplicate
    else if |Purge(Limiter(g, a.key.rule), a.rateAt - MINUTE)| >= a.rate then Limited
    else Admitted
  }

  function AfterAttempt(g: Gate, a: Attempt): Gate {
    var p := Pruned(g, a.pruneAt);
    var kept := Purge(Limiter(g, a.key.rule), a.rateAt - MINUTE);
    match VerdictOf(g, a)
    case Duplicate => p
    case Limited => Gate(p.seen + {a.key}, p.seenAt[a.key := a.markAt], g.limiters[a.key.rule := kept])
    case Admitted => Gate(p.seen + {a.key}, p.seenAt[a.key := a.markAt], g.limiters[a.key.rule := kept + [a.rateAt]])
  }

  function Evaluated(g: Gate, attempts: seq<Attempt>): Gate {
    if attempts == [] then g else AfterAttempt(Evaluated(g, attempts[..|attempts| - 1]), attempts[|attempts| - 1])
  }

  const NO_ALERTS := Gate({}, map[], map[])

  class AlertRules {
    var seen: set<Key>
    var seenAt: map<Key, real>
    var limiters: map<string, seq<real>>

    function Value(): Gate
      reads this
    {
      Gate(seen, seenAt, limiters)
    }

    constructor ()
      ensures Value() == NO_ALERTS
    {
      seen, seenAt, limiters := {}, map[], map[];
    }

    method PruneDedup(now: real)
      modifies this`seen, this`seenAt
      ensures Value() == Pruned(old(Value()), now)
    {
      var stale := set k | k in seenAt && seenAt[k] < now - HOUR;
      ghost var all := stale;
      while stale != {}
        invariant stale <= all && limiters == old(limiters)
        invariant seen == old(seen) - (all - stale)
        invariant seenAt == old(seenAt) - (all - stale)
        decreases |stale|
      {
        var k :| k in stale;
        stale := stale - {k};
        seen := seen - {k};
        seenAt := seenAt - {k};
      }
    }

    method CheckDedup(key: Key, pruneAt: real, markAt: real) returns (duplicate: bool)
      modifies this`seen, this`seenAt
      ensures duplicate == (key in Pruned(old(Value()), pruneAt).seen)
      ensures var p := Pruned(old(Value()), pruneAt);
              Value() == if duplicate then p else p.(seen := p.seen + {key}, seenAt := p.seenAt[key := markAt])
    {
      PruneDedup(pruneAt);
      if key in seen {
        return true;
      }
      seen := seen + {key};
      seenAt := seenAt[key := markAt];
      return false;
    }

    method CheckRateLimit(rule: Rule, now: real) returns (limited: bool)
      modifies this`limiters
      ensures var kept := Purge(Limiter(old(Value()), rule.name), now - MINUTE);
              && limited == (|kept| >= rule.ratePerMinute)
              && limiters == old(limiters)[rule.name := if limited then kept else kept + [now]]
    {
      var times := if rule.name in limiters then limiters[rule.name] else [];
      while times != [] && times[0] < now - MINUTE
        invariant Purge(times, now - MINUTE) == Purge(Limiter(old(Value()), rule.name), now - MINUTE)
        decreases |times|
      {
        times := times[1..];
      }
      if |times| >= rule.ratePerMinute {
        limiters := limiters[rule.name := times];
        return true;
      }
      limiters := limiters[rule.name := times + [now]];
      return false;
    }

    /** The two checks of one rule whose filters matched. */
    method TryAlert(a: Attempt) returns (admitted: bool)
      modifies this
      ensures Value() == AfterAttempt(old(Value()), a)
      ensures admitted == VerdictOf(old(Value()), a).Admitted?
    {
      hide Purge, Pruned;
      var duplicate := CheckDedup(a.key, a.pruneAt, a.markAt);
      if duplicate {
        return false;
      }
      var limited := CheckRateLimit(Rule(a.key.rule, a.rate), a.rateAt);
      return !limited;
    }

    /** The loop of `evaluate` over the rules whose filters matched, with each check's clock readings. */
    method Evaluate(attempts: seq<Attempt>) returns (results: seq<Key>)
      modifies this
      ensures Value() == Evaluated(old(Value()), attempts)
      ensures results == AdmittedKeys(old(Value()), attempts)
    {
      results := [];
      assert attempts[..0] == [];
      hide AfterAttempt, VerdictOf;
      for i := 0 to |attempts|
        invariant Value() == Evaluated(old(Value()), attempts[..i])
        invariant results == AdmittedKeys(old(Value()), attempts[..i])
      {
        NextAttempt(old(Value()), attempts, i);
        var admitted := TryAlert(attempts[i]);
        if admitted {
          results := results + [attempts[i].key];
        }
      }
      assert attempts[..|attempts|] == attempts;
    }
  }

  function AdmittedKeys(g: Gate, attempts: seq<Attempt>): seq<Key> {
    if attempts == [] then []
    else
      var front, last := attempts[..|attempts| - 1], attempts[|attempts| - 1];
      AdmittedKeys(g, front) + (if VerdictOf(Evaluated(g, front), last).Admitted? then [last.key] else [])
  }

  lemma NextAttempt(g: Gate, attempts: seq<Attempt>, n: nat)
    requires n < |attempts|
    ensures var before := Evaluated(g, attempts[..n]);
            && Evaluated(g, attempts[..n + 1]) == AfterAttempt(before, attempts[n])
            && AdmittedKeys(g, attempts[..n + 1])
               == AdmittedKeys(g, attempts[..n])
                  + (if VerdictOf(before, attempts[n]).Admitted? then [attempts[n].key] else [])
  {
    hide AfterAttempt, VerdictOf;
    assert attempts[..n + 1][..n] == attempts[..n];
  }

  /** The admitted keys come in the order of the attempts, each as the attempts before it left the state. */
  lemma {:induction false} AdmittedInOrder(g: Gate, a: seq<Attempt>, b: seq<Attempt>, last: Attempt)
    ensures AdmittedKeys(g, a + b) == AdmittedKeys(g, a) + AdmittedKeys(Evaluated(g, a), b)
    ensures Evaluated(g, a + b) == Evaluated(Evaluated(g, a), b)
    ensures AdmittedKeys(g, [last]) == if VerdictOf(g, last).Admitted? then [last.key] else []
    decreases |b|
  {
    hide VerdictOf, AfterAttempt;
    assert [last][..0] == [] && [last][0] == last;
    assert AdmittedKeys(g, []) == [] && Evaluated(g, []) == g;
    assert [] + [last.key] == [last.key];
    if b == [] {
      assert a + b == a && AdmittedKeys(g, a) + [] == AdmittedKeys(g, a);
    } else {
      assert (a + b)[..|a + b| - 1] == a + b[..|b| - 1] && (a + b)[|a + b| - 1] == b[|b| - 1];
      AdmittedInOrder(g, a, b[..|b| - 1], last);
    }
  }

  // ---- Runs from a fresh start ----

  /** Readings never decrease, within an attempt or from one to the next. */
  ghost predicate Timed(attempts: seq<Attempt>) {
    && (forall i :: 0 <= i < |attempts| ==> attempts[i].pruneAt <= attempts[i].markAt <= attempts[i].rateAt)
    && (forall i, j :: 0 <= i < j < |attempts| ==> attempts[i].rateAt <= attempts[j].pruneAt)
  }

  ghost function VerdictAt(attempts: seq<Attempt>, i: nat): Verdict
    requires i < |attempts|
  {
    VerdictOf(Evaluated(NO_ALERTS, attempts[..i]), attempts[i])
  }

  /** When alerts of the rule were admitted. */
  ghost function Admissions(attempts: seq<Attempt>, rule: string): seq<real> {
    if attempts == [] then []
    else
      var front, last := attempts[..|attempts| - 1], attempts[|attempts| - 1];
      Admissions(front, rule)
      + (if last.key.rule == rule && VerdictOf(Evaluated(NO_ALERTS, front), last).Admitted? then [last.rateAt] else [])
  }

  ghost predicate ConstantRate(attempts: seq<Attempt>, rule: string, rate: int) {
    forall a <- attempts :: a.key.rule == rule ==> a.rate == rate
  }

  /** What is kept is a suffix of what was given, and only old moments were dropped. */
  lemma {:induction false} PurgeShape(times: seq<real>, cutoff: real) returns (dropped: nat)
    ensures dropped <= |times| && Purge(times, cutoff) == times[dropped..]
    ensures forall i :: 0 <= i < dropped ==> times[i] < cutoff
    ensures dropped < |times| ==> times[dropped] >= cutoff
  {
    dropped := 0;
    if times != [] && times[0] < cutoff {
      var d := PurgeShape(times[1..], cutoff);
      dropped := d + 1;
      assert forall i :: 1 <= i < dropped ==> times[i] == times[1..][i - 1];
    }
  }

  /** All admissions of a rule, oldest first, and what its limiter still holds of them. */
  ghost predicate LimiterTells(all: seq<real>, kept: seq<real>, dropped: nat, now: real) {
    && Nondecreasing(all) && (forall t <- all :: t <= now)
    && dropped <= |all| && kept == all[dropped..]
    && forall i :: 0 <= i < dropped ==> all[i] < now - MINUTE
  }

  /** Purging keeps exactly the admissions of the last minute. */
  lemma PurgeTells(all: seq<real>, kept: seq<real>, dropped: nat, now: real) returns (after: nat)
    requires LimiterTells(all, kept, dropped, now)
    ensures LimiterTells(all, Purge(kept, now - MINUTE), after, now)
    ensures forall i :: 0 <= i < |all| ==> (i >= after <==> all[i] >= now - MINUTE)
  {
    var d := PurgeShape(kept, now - MINUTE);
    after := dropped + d;
    assert forall i :: dropped <= i < after ==> all[i] == kept[i - dropped];
    assert after < |all| ==> all[after] == kept[d];
  }

  lemma AdmitTells(all: seq<real>, kept: seq<real>, dropped: nat, now: real)
    requires LimiterTells(all, kept, dropped, now)
    ensures LimiterTells(all + [now], kept + [now], dropped, now)
  {
    assert forall i :: 0 <= i < |all| ==> all[i] in all;
    assert Nondecreasing(all + [now]);
    assert (all + [now])[dropped..] == kept + [now];
  }

  lemma LimiterAfter(g: Gate, a: Attempt, rule: string)
    ensures var purged := Purge(Limiter(g, rule), a.rateAt - MINUTE);
            Limiter(AfterAttempt(g, a), rule)
            == if a.key.rule != rule || VerdictOf(g, a).Duplicate? then Limiter(g, rule)
               else if VerdictOf(g, a).Limited? then purged else purged + [a.rateAt]
    ensures a.key.rule == rule && !VerdictOf(g, a).Duplicate? ==>
              (VerdictOf(g, a).Admitted? <==> |Purge(Limiter(g, rule), a.rateAt - MINUTE)| < a.rate)
  {
  }

  lemma LimiterStep(g: Gate, a: Attempt, rule: string, all: seq<real>, dropped: nat, now: real) returns (after: nat)
    requires LimiterTells(all, Limiter(g, rule), dropped, now) && now <= a.rateAt
    ensures LimiterTells(all + (if a.key.rule == rule && VerdictOf(g, a).Admitted? then [a.rateAt] else []),
                         Limiter(AfterAttempt(g, a), rule), after, a.rateAt)
  {
    after := dropped;
    LimiterAfter(g, a, rule);
    assert all + [] == all;
    if a.key.rule == rule && !VerdictOf(g, a).Duplicate? {
      after := PurgeTells(all, Limiter(g, rule), dropped, a.rateAt);
      if VerdictOf(g, a).Admitted? {
        AdmitTells(all, Purge(Limiter(g, rule), a.rateAt - MINUTE), after, a.rateAt);
      }
    }
  }

  lemma {:induction false} LimiterInvariant(attempts: seq<Attempt>, rule: string, now: real) returns (dropped: nat)
    requires Timed(attempts) && (attempts != [] ==> attempts[|attempts| - 1].rateAt <= now)
    ensures LimiterTells(Admissions(attempts, rule), Limiter(Evaluated(NO_ALERTS, attempts), rule), dropped, now)
  {
    hide LimiterTells, AfterAttempt, VerdictOf, Limiter;
    dropped := 0;
    if attempts == [] {
      NothingToTell(rule, now);
    } else {
      var front, last := attempts[..|attempts| - 1], attempts[|attempts| - 1];
      assert front != [] ==> attempts[|front| - 1].rateAt <= last.pruneAt;
      dropped := LimiterInvariant(front, rule, last.rateAt);
      dropped := LimiterStep(Evaluated(NO_ALERTS, front), last, rule, Admissions(front, rule), dropped, last.rateAt);
      LaterTells(Admissions(attempts, rule), Limiter(Evaluated(NO_ALERTS, attempts), rule), dropped, last.rateAt, now);
    }
  }

  lemma NothingToTell(rule: string, now: real)
    ensures LimiterTells(Admissions([], rule), Limiter(Evaluated(NO_ALERTS, []), rule), 0, now)
  {
  }

  lemma LaterTells(all: seq<real>, kept: seq<real>, dropped: nat, now: real, later: real)
    requires LimiterTells(all, kept, dropped, now) && now <= later
    ensures LimiterTells(all, kept, dropped, later)
  {
  }

  /** What purging keeps is what the minute that ends now holds. */
  lemma KeptIsInside(all: seq<real>, kept: seq<real>, dropped: nat, now: real)
    requires LimiterTells(all, kept, dropped, now)
    ensures |Purge(kept, now - MINUTE)| == |Inside(all, now - MINUTE, MINUTE, true)|
  {
    var after := PurgeTells(all, kept, dropped, now);
    InsideSuffix(all, after, now, MINUTE, true);
  }

  /** The limiter of the rule of attempt `n` when its rate is checked. */
  lemma LimiterAt(attempts: seq<Attempt>, n: nat, rule: string) returns (dropped: nat)
    requires Timed(attempts) && n < |attempts|
    ensures LimiterTells(Admissions(attempts[..n], rule), Limiter(Evaluated(NO_ALERTS, attempts[..n]), rule), dropped,
                         attempts[n].rateAt)
  {
    assert n > 0 ==> attempts[n - 1].rateAt <= attempts[n].pruneAt;
    hide LimiterTells, Limiter, Admissions, Evaluated;
    dropped := LimiterInvariant(attempts[..n], rule, attempts[n].rateAt);
  }

  /**
   * The exact rule: an alert that is no duplicate is refused if and only if its rule already
   * admitted as many as it may in the minute that ends now.
   */
  lemma LimitedExactlyWhen(attempts: seq<Attempt>, n: nat)
    requires Timed(attempts) && n < |attempts| && !VerdictAt(attempts, n).Duplicate?
    ensures var a := attempts[n];
            VerdictAt(attempts, n).Limited?
            <==> |Inside(Admissions(attempts[..n], a.key.rule), a.rateAt - 60.0, 60.0, true)| >= a.rate
  {
    var a, before := attempts[n], attempts[..n];
    var dropped := LimiterAt(attempts, n, a.key.rule);
    hide LimiterTells, Limiter, Admissions, Evaluated, Inside, Purge, Pruned, Timed;
    KeptIsInside(Admissions(before, a.key.rule), Limiter(Evaluated(NO_ALERTS, before), a.key.rule), dropped, a.rateAt);
  }

  lemma OneMoreAttempt(attempts: seq<Attempt>, n: nat, rule: string)
    requires n < |attempts|
    ensures Admissions(attempts[..n + 1], rule)
            == Admissions(attempts[..n], rule)
               + (if attempts[n].key.rule == rule && VerdictAt(attempts, n).Admitted? then [attempts[n].rateAt] else [])
  {
    hide VerdictOf, Evaluated;
    assert attempts[..n + 1][..n] == attempts[..n];
  }

  /** Adding a moment to a timeline adds at most its place to a window. */
  lemma OneMoreInside(times: seq<real>, t: real, from: real)
    ensures var before, after := Inside(times, from, MINUTE, true), Inside(times + [t], from, MINUTE, true);
            && (from <= t <= from + MINUTE ==> |after| == |before| + 1)
            && (!(from <= t <= from + MINUTE) ==> after == before)
  {
    var before, after := Inside(times, from, MINUTE, true), Inside(times + [t], from, MINUTE, true);
    assert forall n: nat :: n < |times| ==> (times + [t])[n] == times[n];
    if from <= t <= from + MINUTE {
      assert after == before + {|times|};
    } else {
      assert after == before;
    }
  }

  /** A window that reaches the present holds no more than the minute that ends now. */
  lemma MinuteHoldsMore(times: seq<real>, now: real, from: real)
    requires (forall t <- times :: t <= now) && now - MINUTE <= from
    ensures |Inside(times, from, MINUTE, true)| <= |Inside(times, now - MINUTE, MINUTE, true)|
  {
    assert forall i :: 0 <= i < |times| ==> times[i] in times;
    SubsetSize(Inside(times, from, MINUTE, true), Inside(times, now - MINUTE, MINUTE, true));
  }

  /** The limit that was in force at the last alert of the rule admitted in the window, or none. */
  ghost function RateInForce(attempts: seq<Attempt>, n: nat, rule: string, from: real): int
    requires n <= |attempts|
    decreases n
  {
    if n == 0 then 0
    else if attempts[n - 1].key.rule == rule && VerdictAt(attempts, n - 1).Admitted?
            && from <= attempts[n - 1].rateAt <= from + MINUTE then attempts[n - 1].rate
    else RateInForce(attempts, n - 1, rule, from)
  }

  lemma NothingLater(attempts: seq<Attempt>, n: nat, rule: string)
    requires Timed(attempts) && n < |attempts|
    ensures forall t <- Admissions(attempts[..n], rule) :: t <= attempts[n].rateAt
  {
    hide Admissions, Evaluated, Limiter;
    var _ := LimiterAt(attempts, n, rule);
  }

  /** An admitted alert and those before it in any window that contains it are within its limit. */
  lemma WindowAtAdmission(attempts: seq<Attempt>, n: nat, from: real)
    requires Timed(attempts) && n < |attempts| && VerdictAt(attempts, n).Admitted?
    requires from <= attempts[n].rateAt <= from + MINUTE
    ensures |Inside(Admissions(attempts[..n + 1], attempts[n].key.rule), from, MINUTE, true)| <= attempts[n].rate
  {
    hide Inside, Admissions, Evaluated, VerdictOf, Timed;
    var a := attempts[n];
    var all := Admissions(attempts[..n], a.key.rule);
    NothingLater(attempts, n, a.key.rule);
    LimitedExactlyWhen(attempts, n);
    MinuteHoldsMore(all, a.rateAt, from);
    OneMoreAttempt(attempts, n, a.key.rule);
    OneMoreInside(all, a.rateAt, from);
  }

  /**
   * No 60-second window, closed at both ends, holds more admitted alerts of a rule than the limit in
   * force at the last of them.
   */
  lemma {:induction false} WindowRateHolds(attempts: seq<Attempt>, n: nat, rule: string, from: real)
    requires Timed(attempts) && n <= |attempts|
    ensures |Inside(Admissions(attempts[..n], rule), from, 60.0, true)| <= RateInForce(attempts, n, rule, from)
    decreases n
  {
    hide Timed, Inside, VerdictOf, Evaluated;
    if n == 0 {
      assert attempts[..0] == [];
      NothingInside(from);
    } else {
      hide Admissions;
      WindowRateHolds(attempts, n - 1, rule, from);
      OneMoreAttempt(attempts, n - 1, rule);
      var a, all := attempts[n - 1], Admissions(attempts[..n - 1], rule);
      if a.key.rule == rule && VerdictAt(attempts, n - 1).Admitted? {
        if from <= a.rateAt <= from + MINUTE {
          WindowAtAdmission(attempts, n - 1, from);
        } else {
          OneMoreInside(all, a.rateAt, from);
        }
      } else {
        assert all + [] == all;
      }
    }
  }

  lemma NothingInside(from: real)
    ensures |Inside([], from, MINUTE, true)| == 0
  {
    assert Inside([], from, MINUTE, true) == {};
  }

  lemma {:induction false} ConstantRateInForce(attempts: seq<Attempt>, n: nat, rule: string, rate: int, from: real)
    requires Timed(attempts) && ConstantRate(attempts, rule, rate) && n <= |attempts|
    ensures RateInForce(attempts, n, rule, from) <= if rate > 0 then rate else 0
    decreases n
  {
    hide Timed, VerdictOf, Evaluated;
    if n > 0 {
      ConstantRateInForce(attempts, n - 1, rule, rate, from);
      assert attempts[n - 1] in attempts;
    }
  }

  /** With a limit that does not change, no window holds more than that. */
  lemma RateLimitHolds(attempts: seq<Attempt>, rule: string, rate: int, from: real)
    requires Timed(attempts) && ConstantRate(attempts, rule, rate)
    ensures |Inside(Admissions(attempts, rule), from, 60.0, true)| <= if rate > 0 then rate else 0
  {
    WindowRateHolds(attempts, |attempts|, rule, from);
    ConstantRateInForce(attempts, |attempts|, rule, rate, from);
    assert attempts[..|attempts|] == attempts;
  }

  // ---- Deduplication ----

  lemma {:induction false} SeenIsMarked(attempts: seq<Attempt>)
    ensures Evaluated(NO_ALERTS, attempts).seen == Evaluated(NO_ALERTS, attempts).seenAt.Keys
  {
    if attempts != [] {
      SeenIsMarked(attempts[..|attempts| - 1]);
    }
  }

  lemma EvaluatedNext(attempts: seq<Attempt>, n: nat)
    requires n < |attempts|
    ensures Evaluated(NO_ALERTS, attempts[..n + 1]) == AfterAttempt(Evaluated(NO_ALERTS, attempts[..n]), attempts[n])
  {
    hide AfterAttempt;
    assert attempts[..n + 1][..n] == attempts[..n];
  }

  /** A mark stays until it is more than an hour old. */
  lemma {:induction false} MarkStays(attempts: seq<Attempt>, i: nat, n: nat)
    requires Timed(attempts) && i < n <= |attempts| && !VerdictAt(attempts, i).Duplicate?
    ensures var g := Evaluated(NO_ALERTS, attempts[..n]);
            (attempts[i].key in g.seenAt && g.seenAt[attempts[i].key] >= attempts[i].markAt)
            || attempts[n - 1].pruneAt > attempts[i].markAt + HOUR
  {
    hide Evaluated, AfterAttempt, VerdictOf;
    EvaluatedNext(attempts, n - 1);
    var g, a := Evaluated(NO_ALERTS, attempts[..n - 1]), attempts[n - 1];
    if n > i + 1 {
      MarkStays(attempts, i, n - 1);
      assert attempts[i].markAt <= attempts[i].rateAt <= a.pruneAt <= a.markAt;
      assert attempts[n - 2].pruneAt <= attempts[n - 2].rateAt <= a.pruneAt;
      MarkKept(g, a, attempts[i].key, attempts[i].markAt);
    } else {
      MarkLeft(g, a);
    }
  }

  /** An attempt drops a mark only when it is more than an hour old, and replaces it by a later one. */
  lemma MarkKept(g: Gate, a: Attempt, key: Key, markAt: real)
    requires key in g.seenAt && g.seenAt[key] >= markAt ==> a.markAt >= markAt
    ensures key in g.seenAt && g.seenAt[key] >= markAt ==>
              || (key in AfterAttempt(g, a).seenAt && AfterAttempt(g, a).seenAt[key] >= markAt)
              || a.pruneAt > markAt + HOUR
  {
    hide Purge, Limiter;
  }

  /** An attempt that is no duplicate leaves its mark. */
  lemma MarkLeft(g: Gate, a: Attempt)
    requires !VerdictOf(g, a).Duplicate?
    ensures a.key in AfterAttempt(g, a).seenAt && AfterAttempt(g, a).seenAt[a.key] == a.markAt
  {
    hide Purge, Limiter;
  }

  /** Every mark was left by an earlier attempt that was no duplicate. */
  lemma {:induction false} MarkHasAPass(attempts: seq<Attempt>, n: nat, key: Key) returns (i: nat)
    requires n <= |attempts| && key in Evaluated(NO_ALERTS, attempts[..n]).seenAt
    ensures i < n && attempts[i].key == key && !VerdictAt(attempts, i).Duplicate?
    ensures Evaluated(NO_ALERTS, attempts[..n]).seenAt[key] == attempts[i].markAt
    decreases n
  {
    assert n > 0 by {
      assert attempts[..0] == [];
    }
    assert attempts[..n][..n - 1] == attempts[..n - 1];
    if attempts[n - 1].key == key && !VerdictAt(attempts, n - 1).Duplicate? {
      i := n - 1;
    } else {
      i := MarkHasAPass(attempts, n - 1, key);
    }
  }

  /** Attempt `i` passed the duplicate check with the key of attempt `j`, at most an hour before `j`. */
  ghost predicate PassedWithinTheHour(attempts: seq<Attempt>, i: nat, j: nat)
    requires i < j < |attempts|
  {
    && attempts[i].key == attempts[j].key && !VerdictAt(attempts, i).Duplicate?
    && attempts[j].pruneAt - attempts[i].markAt <= 3600.0
  }

  /** The exact rule: a duplicate is an alert whose key passed within the last hour, admitted or not. */
  lemma DuplicateExactlyWhen(attempts: seq<Attempt>, j: nat)
    requires Timed(attempts) && j < |attempts|
    ensures VerdictAt(attempts, j).Duplicate? <==> exists i :: 0 <= i < j && PassedWithinTheHour(attempts, i, j)
  {
    SeenIsMarked(attempts[..j]);
    if VerdictAt(attempts, j).Duplicate? {
      var i := MarkHasAPass(attempts, j, attempts[j].key);
      assert PassedWithinTheHour(attempts, i, j);
    }
    if i :| 0 <= i < j && PassedWithinTheHour(attempts, i, j) {
      MarkStays(attempts, i, j);
      assert attempts[j - 1].pruneAt <= attempts[j - 1].rateAt <= attempts[j].pruneAt;
    }
  }

  /** Two passes of one key are more than an hour apart. */
  lemma PassesAreAnHourApart(attempts: seq<Attempt>, i: nat, j: nat)
    requires Timed(attempts) && i < j < |attempts| && attempts[i].key == attempts[j].key
    requires !VerdictAt(attempts, i).Duplicate? && !VerdictAt(attempts, j).Duplicate?
    ensures attempts[j].pruneAt - attempts[i].markAt > 3600.0
  {
    DuplicateExactlyWhen(attempts, j);
    assert !PassedWithinTheHour(attempts, i, j);
  }

  /**
   * The mark precedes the rate check, so an alert refused for its rate is a duplicate for an hour.
   * If it did not pass in between, it is one exactly for an hour.
   */
  lemma LimitedAlertsAreNotRetried(attempts: seq<Attempt>, i: nat, j: nat)
    requires Timed(attempts) && i < j < |attempts| && attempts[i].key == attempts[j].key
    requires VerdictAt(attempts, i).Limited?
    ensures attempts[j].pruneAt - attempts[i].markAt <= 3600.0 ==> VerdictAt(attempts, j).Duplicate?
    ensures (forall k :: i < k < j && attempts[k].key == attempts[j].key ==> VerdictAt(attempts, k).Duplicate?) ==>
              (VerdictAt(attempts, j).Duplicate? <==> attempts[j].pruneAt - attempts[i].markAt <= 3600.0)
  {
    DuplicateExactlyWhen(attempts, j);
    if attempts[j].pruneAt - attempts[i].markAt <= HOUR {
      assert PassedWithinTheHour(attempts, i, j);
    }
  }

  /** One alert a minute: the second alert is refused at once and is lost two minutes later. */
  function LosingRun(): seq<Attempt> {
    [Attempt(Key("first", "rule"), 1, 0.0, 0.0, 0.0), Attempt(Key("second", "rule"), 1, 1.0, 1.0, 1.0),
     Attempt(Key("second", "rule"), 1, 120.0, 120.0, 120.0)]
  }

  /** The state after each of the first two alerts. */
  lemma LosingStates()
    ensures var a, b, run := Key("first", "rule"), Key("second", "rule"), LosingRun();
            && a != b && Evaluated(NO_ALERTS, run[..0]) == NO_ALERTS
            && Evaluated(NO_ALERTS, run[..1]) == Gate({a}, map[a := 0.0], map["rule" := [0.0]])
            && Evaluated(NO_ALERTS, run[..2]) == Gate({a, b}, map[a := 0.0, b := 1.0], map["rule" := [0.0]])
            && VerdictAt(run, 0).Admitted? && VerdictAt(run, 1).Limited?
  {
    var a, b, run := Key("first", "rule"), Key("second", "rule"), LosingRun();
    assert run[..0] == [] && run[..1][..0] == [] && run[..2][..1] == run[..1];
    assert a.opportunity[0] != b.opportunity[0];
    var one := Gate({a}, map[a := 0.0], map["rule" := [0.0]]);
    assert Purge([], -60.0) == [] && [] + [0.0] == [0.0];
    assert Evaluated(NO_ALERTS, run[..1]) == one;
    assert Pruned(one, 1.0) == one;
    assert Purge([0.0], 1.0 - MINUTE) == [0.0];
  }

  /** The lost alert is a duplicate although a new one would have been admitted in its place. */
  lemma LimitedAlertIsLost()
    ensures var run := LosingRun();
            && Timed(run) && VerdictAt(run, 0).Admitted? && VerdictAt(run, 1).Limited? && VerdictAt(run, 2).Duplicate?
            && VerdictOf(Evaluated(NO_ALERTS, run[..2]), run[2].(key := Key("third", "rule"))).Admitted?
  {
    var a, b, c := Key("first", "rule"), Key("second", "rule"), Key("third", "rule");
    LosingStates();
    assert |"third"| != |"second"| && "third"[0] != "first"[0];
    hide Evaluated, AfterAttempt;
    var two := Gate({a, b}, map[a := 0.0, b := 1.0], map["rule" := [0.0]]);
    assert Pruned(two, 120.0) == two;
    assert [0.0][1..] == [] && Purge([0.0], 120.0 - MINUTE) == [];
  }
}

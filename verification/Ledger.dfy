/**
 * The swarm budget ledger (server/swarm/budget.py).
 *
 * Every operation runs under the ledger's lock and suspends nowhere inside it, so operations are
 * atomic. Identifiers stand for the uuid of a reservation; costs are exact reals.
 */
module Ledger {
  import opened Wrappers

  type Id = nat

  datatype Limits = Limits(maxCalls: int, maxTokens: int, maxCost: real, maxSeconds: real)

  /** The bounds the request model enforces. */
  predicate LegalLimits(limits: Limits) {
    && 1 <= limits.maxCalls <= 64 && 1 <= limits.maxTokens <= 2000000
    && 0.0 <= limits.maxCost <= 10000.0 && 0.0 < limits.maxSeconds <= 3600.0
  }

  datatype Reservation = Reservation(tokens: int, cost: real)

  datatype Dimension = Seconds | Calls | Tokens | CostUsd | ProviderOverage

  datatype LedgerError =
    | NegativeReservation
    | BudgetExceeded(dimension: Dimension)
    | NegativeUsage
    | MissingReservation
    | UsageAboveReservation

  /** The ledger's fields as one value. */
  datatype Books = Books(calls: int, tokens: int, cost: real, reservations: map<Id, Reservation>,
                         truncated: Option<Dimension>)

  const EMPTY := Books(0, 0, 0.0, map[], None)

  datatype Held = Held(tokens: int, cost: real)

  /** Everything currently reserved. */
  ghost function Reserved(m: map<Id, Reservation>): Held {
    if m == map[] then Held(0, 0.0)
    else
      var k :| k in m;
      var rest := Reserved(m - {k});
      Held(m[k].tokens + rest.tokens, m[k].cost + rest.cost)
  }

  lemma {:induction false} ReservedWithout(m: map<Id, Reservation>, k: Id)
    requires k in m
    ensures Reserved(m).tokens == m[k].tokens + Reserved(m - {k}).tokens
    ensures Reserved(m).cost == m[k].cost + Reserved(m - {k}).cost
    decreases |m|
  {
    var p :| p in m && Reserved(m) == Held(m[p].tokens + Reserved(m - {p}).tokens, m[p].cost + Reserved(m - {p}).cost);
    if p != k {
      ReservedWithout(m - {p}, k);
      ReservedWithout(m - {k}, p);
      assert m - {p} - {k} == m - {k} - {p};
    }
  }

  lemma ReservedWith(m: map<Id, Reservation>, k: Id, r: Reservation)
    requires k !in m
    ensures Reserved(m[k := r]).tokens == r.tokens + Reserved(m).tokens
    ensures Reserved(m[k := r]).cost == r.cost + Reserved(m).cost
    ensures |m[k := r]| == |m| + 1
  {
    ReservedWithout(m[k := r], k);
    assert m[k := r] - {k} == m;
  }

  function MinInt(a: int, b: int): int {
    if a <= b then a else b
  }

  function MinReal(a: real, b: real): real {
    if a <= b then a else b
  }

  function FirstOf(current: Option<Dimension>, dimension: Dimension): Option<Dimension> {
    if current.Some? then current else Some(dimension)
  }

  // ---- What each operation does ----

  /** The dimension on which a request is refused, checked in the ledger's order. */
  ghost function Refusal(b: Books, limits: Limits, elapsed: real, tokens: int, cost: real): Option<Dimension> {
    if elapsed >= limits.maxSeconds then Some(Seconds)
    else if b.calls + |b.reservations| + 1 > limits.maxCalls then Some(Calls)
    else if b.tokens + Reserved(b.reservations).tokens + tokens > limits.maxTokens then Some(Tokens)
    else if b.cost + Reserved(b.reservations).cost + cost > limits.maxCost then Some(CostUsd)
    else None
  }

  ghost function ReserveResult(b: Books, limits: Limits, elapsed: real, id: Id, tokens: int, cost: real)
    : Result<Id, LedgerError>
  {
    if tokens < 0 || cost < 0.0 then Failure(NegativeReservation)
    else match Refusal(b, limits, elapsed, tokens, cost)
      case Some(dimension) => Failure(BudgetExceeded(dimension))
      case None => Success(id)
  }

  ghost function AfterReserve(b: Books, limits: Limits, elapsed: real, id: Id, tokens: int, cost: real): Books {
    match ReserveResult(b, limits, elapsed, id, tokens, cost)
    case Success(_) => b.(reservations := b.reservations[id := Reservation(tokens, cost)])
    case Failure(BudgetExceeded(dimension)) => b.(truncated := FirstOf(b.truncated, dimension))
    case Failure(_) => b
  }

  function CommitError(b: Books, id: Id, tokens: int, cost: real): Option<LedgerError> {
    if tokens < 0 || cost < 0.0 then Some(NegativeUsage)
    else if id !in b.reservations then Some(MissingReservation)
    else if tokens > b.reservations[id].tokens || cost > b.reservations[id].cost then Some(UsageAboveReservation)
    else None
  }

  function AfterCommit(b: Books, id: Id, tokens: int, cost: real): Books {
    match CommitError(b, id, tokens, cost)
    case Some(NegativeUsage) => b
    case Some(MissingReservation) => b
    case error =>
      Books(b.calls + 1,
            b.tokens + MinInt(tokens, b.reservations[id].tokens),
            b.cost + MinReal(cost, b.reservations[id].cost),
            b.reservations - {id},
            if error.Some? then FirstOf(b.truncated, ProviderOverage) else b.truncated)
  }

  function AfterCancel(b: Books, id: Id): Books {
    b.(reservations := b.reservations - {id})
  }

  function AfterAbort(b: Books, id: Id): Books {
    if id in b.reservations then b.(calls := b.calls + 1, reservations := b.reservations - {id}) else b
  }

  class BudgetLedger {
    const limits: Limits
    const startedAt: real
    var calls: int
    var tokens: int
    var cost: real
    var reservations: map<Id, Reservation>
    var truncatedDimension: Option<Dimension>

    function Value(): Books
      reads this
    {
      Books(calls, tokens, cost, reservations, truncatedDimension)
    }

    function Elapsed(now: real): real {
      if now - startedAt < 0.0 then 0.0 else now - startedAt
    }

    constructor (limits: Limits, now: real)
      ensures this.limits == limits && startedAt == now && Value() == EMPTY
    {
      this.limits, startedAt := limits, now;
      calls, tokens, cost, reservations, truncatedDimension := 0, 0, 0.0, map[], None;
    }

    method SumReserved() returns (heldTokens: int, heldCost: real)
      ensures Held(heldTokens, heldCost) == Reserved(reservations)
    {
      heldTokens, heldCost := 0, 0.0;
      var rest := reservations;
      while rest != map[]
        invariant heldTokens + Reserved(rest).tokens == Reserved(reservations).tokens
        invariant heldCost + Reserved(rest).cost == Reserved(reservations).cost
        decreases |rest|
      {
        var k :| k in rest;
        ReservedWithout(rest, k);
        heldTokens, heldCost := heldTokens + rest[k].tokens, heldCost + rest[k].cost;
        rest := rest - {k};
      }
    }

    method Reserve(now: real, id: Id, amount: int, price: real) returns (r: Result<Id, LedgerError>)
      requires id !in reservations
      modifies this
      ensures r == ReserveResult(old(Value()), limits, Elapsed(now), id, amount, price)
      ensures limits.maxSeconds > 0.0 ==>
                (r == Failure(BudgetExceeded(Seconds)) <==>
                   amount >= 0 && price >= 0.0 && now - startedAt >= limits.maxSeconds)
      ensures Value() == AfterReserve(old(Value()), limits, Elapsed(now), id, amount, price)
    {
      if amount < 0 || price < 0.0 {
        return Failure(NegativeReservation);
      }
      var heldTokens, heldCost := SumReserved();
      var dimension: Option<Dimension> := None;
      if Elapsed(now) >= limits.maxSeconds {
        dimension := Some(Seconds);
      } else if calls + |reservations| + 1 > limits.maxCalls {
        dimension := Some(Calls);
      } else if tokens + heldTokens + amount > limits.maxTokens {
        dimension := Some(Tokens);
      } else if cost + heldCost + price > limits.maxCost {
        dimension := Some(CostUsd);
      }
      if dimension.Some? {
        MarkTruncated(dimension.value);
        return Failure(BudgetExceeded(dimension.value));
      }
      reservations := reservations[id := Reservation(amount, price)];
      return Success(id);
    }

    method Commit(id: Id, actualTokens: int, actualCost: real) returns (error: Option<LedgerError>)
      modifies this
      ensures error == CommitError(old(Value()), id, actualTokens, actualCost)
      ensures Value() == AfterCommit(old(Value()), id, actualTokens, actualCost)
    {
      if actualTokens < 0 || actualCost < 0.0 {
        return Some(NegativeUsage);
      }
      if id !in reservations {
        return Some(MissingReservation);
      }
      var active := reservations[id];
      reservations := reservations - {id};
      if actualTokens > active.tokens || actualCost > active.cost {
        MarkTruncated(ProviderOverage);
        calls := calls + 1;
        tokens := tokens + MinInt(actualTokens, active.tokens);
        cost := cost + MinReal(actualCost, active.cost);
        return Some(UsageAboveReservation);
      }
      calls := calls + 1;
      tokens := tokens + actualTokens;
      cost := cost + actualCost;
      return None;
    }

    method Cancel(id: Id)
      modifies this`reservations
      ensures Value() == AfterCancel(old(Value()), id)
    {
      reservations := reservations - {id};
    }

    method AbortCall(id: Id)
      modifies this`reservations, this`calls
      ensures Value() == AfterAbort(old(Value()), id)
    {
      if id in reservations {
        reservations := reservations - {id};
        calls := calls + 1;
      }
    }

    method MarkTruncated(dimension: Dimension)
      modifies this`truncatedDimension
      ensures truncatedDimension == FirstOf(old(truncatedDimension), dimension)
    {
      if truncatedDimension.None? {
        truncatedDimension := Some(dimension);
      }
    }

    /** The names of the budgets an assertion would report as overspent, in the source's order. */
    method AssertWithinLimits() returns (overspent: Option<Dimension>)
      ensures overspent.None? <==> calls <= limits.maxCalls && tokens <= limits.maxTokens && cost <= limits.maxCost
      ensures overspent == Some(Calls) <==> calls > limits.maxCalls
      ensures overspent == Some(Tokens) <==> calls <= limits.maxCalls && tokens > limits.maxTokens
      ensures overspent == Some(CostUsd) <==>
                calls <= limits.maxCalls && tokens <= limits.maxTokens && cost > limits.maxCost
      ensures overspent.Some? ==> overspent.value.Calls? || overspent.value.Tokens? || overspent.value.CostUsd?
    {
      if calls > limits.maxCalls {
        return Some(Calls);
      }
      if tokens > limits.maxTokens {
        return Some(Tokens);
      }
      if cost > limits.maxCost {
        return Some(CostUsd);
      }
      return None;
    }
  }

  // ---- Runs of arbitrary operations ----

  datatype Op =
    | Reserving(elapsed: real, id: Id, tokens: int, cost: real)
    | Committing(id: Id, actualTokens: int, actualCost: real)
    | Cancelling(id: Id)
    | Aborting(id: Id)
    | Marking(dimension: Dimension)

  ghost function Perform(b: Books, limits: Limits, op: Op): Books {
    match op
    case Reserving(elapsed, id, tokens, cost) => AfterReserve(b, limits, elapsed, id, tokens, cost)
    case Committing(id, tokens, cost) => AfterCommit(b, id, tokens, cost)
    case Cancelling(id) => AfterCancel(b, id)
    case Aborting(id) => AfterAbort(b, id)
    case Marking(dimension) => b.(truncated := FirstOf(b.truncated, dimension))
  }

  /** Every identifier is fresh when it is reserved. */
  ghost predicate FreshIds(ops: seq<Op>, limits: Limits) {
    forall i :: 0 <= i < |ops| && ops[i].Reserving? ==> ops[i].id !in PerformAll(ops[..i], limits).reservations
  }

  ghost function PerformAll(ops: seq<Op>, limits: Limits): Books {
    if ops == [] then EMPTY
    else Perform(PerformAll(ops[..|ops| - 1], limits), limits, ops[|ops| - 1])
  }

  /** Used plus reserved stays inside every limit. */
  ghost predicate WithinLimits(b: Books, limits: Limits) {
    && 0 <= b.calls && 0 <= b.tokens && 0.0 <= b.cost
    && b.calls + |b.reservations| <= limits.maxCalls
    && b.tokens + Reserved(b.reservations).tokens <= limits.maxTokens
    && b.cost + Reserved(b.reservations).cost <= limits.maxCost
    && forall k <- b.reservations :: b.reservations[k].tokens >= 0 && b.reservations[k].cost >= 0.0
  }

  lemma {:induction false} ReservedNonnegative(m: map<Id, Reservation>)
    requires forall k <- m :: m[k].tokens >= 0 && m[k].cost >= 0.0
    ensures Reserved(m).tokens >= 0 && Reserved(m).cost >= 0.0
    decreases |m|
  {
    if m != map[] {
      var k :| k in m && Reserved(m)
                           == Held(m[k].tokens + Reserved(m - {k}).tokens, m[k].cost + Reserved(m - {k}).cost);
      ReservedNonnegative(m - {k});
    }
  }

  lemma ReserveStaysWithin(b: Books, limits: Limits, elapsed: real, id: Id, tokens: int, cost: real)
    requires WithinLimits(b, limits) && id !in b.reservations
    ensures WithinLimits(AfterReserve(b, limits, elapsed, id, tokens, cost), limits)
  {
    ReservedWith(b.reservations, id, Reservation(tokens, cost));
    hide Reserved;
  }

  lemma CloseStaysWithin(b: Books, limits: Limits, id: Id, tokens: int, cost: real)
    requires WithinLimits(b, limits)
    ensures WithinLimits(AfterCommit(b, id, tokens, cost), limits)
    ensures WithinLimits(AfterCancel(b, id), limits)
    ensures WithinLimits(AfterAbort(b, id), limits)
  {
    if id in b.reservations {
      ReservedWithout(b.reservations, id);
    } else {
      assert b.reservations - {id} == b.reservations;
    }
    hide Reserved;
  }

  lemma StepStaysWithin(b: Books, limits: Limits, op: Op)
    requires WithinLimits(b, limits)
    requires op.Reserving? ==> op.id !in b.reservations
    ensures WithinLimits(Perform(b, limits, op), limits)
  {
    hide Reserved, AfterReserve, AfterCommit, AfterCancel, AfterAbort;
    match op {
      case Reserving(elapsed, id, tokens, cost) => ReserveStaysWithin(b, limits, elapsed, id, tokens, cost);
      case Committing(id, tokens, cost) => CloseStaysWithin(b, limits, id, tokens, cost);
      case Cancelling(id) => CloseStaysWithin(b, limits, id, 0, 0.0);
      case Aborting(id) => CloseStaysWithin(b, limits, id, 0, 0.0);
      case Marking(dimension) =>
    }
  }

  /**
   * Ledger safety: whatever operations arrive in whatever order, with whatever amounts, nothing
   * is overspent, so the final assertion of a swarm cannot fail.
   */
  lemma {:induction false} NeverOverspent(ops: seq<Op>, limits: Limits)
    requires LegalLimits(limits) && FreshIds(ops, limits)
    ensures WithinLimits(PerformAll(ops, limits), limits)
    ensures var b := PerformAll(ops, limits);
            b.calls <= limits.maxCalls && b.tokens <= limits.maxTokens && b.cost <= limits.maxCost
  {
    if ops != [] {
      var front := ops[..|ops| - 1];
      forall i | 0 <= i < |front| && front[i].Reserving?
        ensures front[i].id !in PerformAll(front[..i], limits).reservations
      {
        assert front[..i] == ops[..i];
      }
      NeverOverspent(front, limits);
      StepStaysWithin(PerformAll(front, limits), limits, ops[|ops| - 1]);
    }
    ReservedNonnegative(PerformAll(ops, limits).reservations);
  }

  // ---- Every grant is closed once ----

  ghost function Granted(ops: seq<Op>, limits: Limits): nat {
    if ops == [] then 0
    else
      var front, last := ops[..|ops| - 1], ops[|ops| - 1];
      Granted(front, limits)
      + (if last.Reserving?
            && ReserveResult(PerformAll(front, limits), limits, last.elapsed, last.id, last.tokens, last.cost).Success?
         then 1 else 0)
  }

  ghost function Withdrawn(ops: seq<Op>, limits: Limits): nat {
    if ops == [] then 0
    else
      var front, last := ops[..|ops| - 1], ops[|ops| - 1];
      Withdrawn(front, limits)
      + (if last.Cancelling? && last.id in PerformAll(front, limits).reservations then 1 else 0)
  }

  /** Conservation: every granted reservation is open, withdrawn, or charged as exactly one call. */
  lemma {:induction false} GrantsAreConserved(ops: seq<Op>, limits: Limits)
    requires FreshIds(ops, limits)
    ensures var b := PerformAll(ops, limits);
            b.calls + |b.reservations| + Withdrawn(ops, limits) == Granted(ops, limits)
  {
    if ops != [] {
      var front, last := ops[..|ops| - 1], ops[|ops| - 1];
      forall i | 0 <= i < |front| && front[i].Reserving?
        ensures front[i].id !in PerformAll(front[..i], limits).reservations
      {
        assert front[..i] == ops[..i];
      }
      GrantsAreConserved(front, limits);
      var m := PerformAll(front, limits).reservations;
      if last.Reserving? {
        ReservedWith(m, last.id, Reservation(last.tokens, last.cost));
      } else if !last.Marking? {
        if last.id in m {
          assert m.Keys == (m - {last.id}).Keys + {last.id};
          assert |m.Keys| == |(m - {last.id}).Keys| + 1;
        } else {
          assert m - {last.id} == m;
        }
      }
    }
  }

  // ---- Tokens and dollars are conserved ----

  /** What an operation adds to the reservations. */
  ghost function GrantedBy(b: Books, limits: Limits, op: Op): Held {
    if op.Reserving? && ReserveResult(b, limits, op.elapsed, op.id, op.tokens, op.cost).Success? then
          Held(op.tokens, op.cost)
    else Held(0, 0.0)
  }

  /** What an operation gives back unused: all that is withdrawn or aborted, or the part not spent. */
  ghost function ReturnedBy(b: Books, op: Op): Held {
    if op.Reserving? || op.Marking? || op.id !in b.reservations then Held(0, 0.0)
    else
      var r := b.reservations[op.id];
      if op.Cancelling? || op.Aborting? then Held(r.tokens, r.cost)
      else if op.actualTokens < 0 || op.actualCost < 0.0 then Held(0, 0.0)
      else Held(if op.actualTokens <= r.tokens then r.tokens - op.actualTokens else 0,
                if op.actualCost <= r.cost then r.cost - op.actualCost else 0.0)
  }

  ghost function Flow(ops: seq<Op>, limits: Limits): (Held, Held) {
    if ops == [] then (Held(0, 0.0), Held(0, 0.0))
    else
      var b, last := PerformAll(ops[..|ops| - 1], limits), ops[|ops| - 1];
      var (granted, returned) := Flow(ops[..|ops| - 1], limits);
      (Held(granted.tokens + GrantedBy(b, limits, last).tokens, granted.cost + GrantedBy(b, limits, last).cost),
       Held(returned.tokens + ReturnedBy(b, last).tokens, returned.cost + ReturnedBy(b, last).cost))
  }

  lemma StepConserves(b: Books, limits: Limits, op: Op)
    requires op.Reserving? ==> op.id !in b.reservations
    ensures var after, granted, returned := Perform(b, limits, op), GrantedBy(b, limits, op), ReturnedBy(b, op);
            && after.tokens + Reserved(after.reservations).tokens + returned.tokens
               == b.tokens + Reserved(b.reservations).tokens + granted.tokens
            && after.cost + Reserved(after.reservations).cost + returned.cost
               == b.cost + Reserved(b.reservations).cost + granted.cost
  {
    if op.Reserving? {
      ReservedWith(b.reservations, op.id, Reservation(op.tokens, op.cost));
    } else if !op.Marking? {
      if op.id in b.reservations {
        ReservedWithout(b.reservations, op.id);
      } else {
        assert b.reservations - {op.id} == b.reservations;
      }
    }
  }

  /** Conservation: everything granted is spent, still held, or was returned. */
  lemma {:induction false} SpendingIsConserved(ops: seq<Op>, limits: Limits)
    requires FreshIds(ops, limits)
    ensures var b := PerformAll(ops, limits);
            var (granted, returned) := Flow(ops, limits);
            && b.tokens + Reserved(b.reservations).tokens + returned.tokens == granted.tokens
            && b.cost + Reserved(b.reservations).cost + returned.cost == granted.cost
  {
    if ops != [] {
      var front, last := ops[..|ops| - 1], ops[|ops| - 1];
      forall i | 0 <= i < |front| && front[i].Reserving?
        ensures front[i].id !in PerformAll(front[..i], limits).reservations
      {
        assert front[..i] == ops[..i];
      }
      SpendingIsConserved(front, limits);
      StepConserves(PerformAll(front, limits), limits, last);
    }
  }

  /** What a commit does in a run: the report is charged if it is covered, otherwise what was reserved of it. */
  lemma CommitSettles(ops: seq<Op>, limits: Limits, id: Id, tokens: int, cost: real)
    ensures var b, after := PerformAll(ops, limits), PerformAll(ops + [Committing(id, tokens, cost)], limits);
            match CommitError(b, id, tokens, cost)
            case None =>
              && tokens >= 0 && cost >= 0.0 && id in b.reservations
              && tokens <= b.reservations[id].tokens && cost <= b.reservations[id].cost
              && after == Books(b.calls + 1, b.tokens + tokens, b.cost + cost, b.reservations - {id}, b.truncated)
            case Some(UsageAboveReservation) =>
              && tokens >= 0 && cost >= 0.0 && id in b.reservations
              && (tokens > b.reservations[id].tokens || cost > b.reservations[id].cost)
              && after.calls == b.calls + 1 && after.reservations == b.reservations - {id}
              && after.tokens - b.tokens <= tokens && after.tokens - b.tokens <= b.reservations[id].tokens
              && (after.tokens - b.tokens == tokens || after.tokens - b.tokens == b.reservations[id].tokens)
              && after.cost - b.cost <= cost && after.cost - b.cost <= b.reservations[id].cost
              && (after.cost - b.cost == cost || after.cost - b.cost == b.reservations[id].cost)
              && after.truncated == (if b.truncated.Some? then b.truncated else Some(ProviderOverage))
            case Some(MissingReservation) => tokens >= 0 && cost >= 0.0 && id !in b.reservations && after == b
            case Some(NegativeUsage) => (tokens < 0 || cost < 0.0) && after == b
            case _ => false
  {
    assert (ops + [Committing(id, tokens, cost)])[..|ops|] == ops;
    hide Reserved;
  }

  /** A request is granted exactly when time is left and every budget holds it beside what is used and reserved. */
  lemma GrantedExactlyWhen(ops: seq<Op>, limits: Limits, elapsed: real, id: Id, tokens: int, cost: real)
    ensures var b, after := PerformAll(ops, limits), PerformAll(ops + [Reserving(elapsed, id, tokens, cost)], limits);
            && (ReserveResult(b, limits, elapsed, id, tokens, cost).Success? <==>
                  && tokens >= 0 && cost >= 0.0 && elapsed < limits.maxSeconds
                  && b.calls + |b.reservations| < limits.maxCalls
                  && b.tokens + Reserved(b.reservations).tokens + tokens <= limits.maxTokens
                  && b.cost + Reserved(b.reservations).cost + cost <= limits.maxCost)
            && after.reservations
               == (if ReserveResult(b, limits, elapsed, id, tokens, cost).Success?
                   then b.reservations[id := Reservation(tokens, cost)] else b.reservations)
            && after.calls == b.calls && after.tokens == b.tokens && after.cost == b.cost
  {
    assert (ops + [Reserving(elapsed, id, tokens, cost)])[..|ops|] == ops;
    hide Reserved;
  }

  // ---- What a truncation names ----

  /** What an operation runs into: a budget that a request exceeds, usage above a reservation, a mark. */
  ghost function TroubleOf(b: Books, limits: Limits, op: Op): Option<Dimension> {
    var held := Reserved(b.reservations);
    match op
    case Reserving(elapsed, _, tokens, cost) =>
      if tokens < 0 || cost < 0.0 then None
      else if elapsed >= limits.maxSeconds then Some(Seconds)
      else if b.calls + |b.reservations| >= limits.maxCalls then Some(Calls)
      else if b.tokens + held.tokens + tokens > limits.maxTokens then Some(Tokens)
      else if b.cost + held.cost + cost > limits.maxCost then Some(CostUsd)
      else None
    case Committing(id, tokens, cost) =>
      if tokens >= 0 && cost >= 0.0 && id in b.reservations
         && (tokens > b.reservations[id].tokens || cost > b.reservations[id].cost)
      then Some(ProviderOverage) else None
    case Marking(dimension) => Some(dimension)
    case _ => None
  }

  ghost function Trouble(ops: seq<Op>, limits: Limits, i: nat): Option<Dimension>
    requires i < |ops|
  {
    TroubleOf(PerformAll(ops[..i], limits), limits, ops[i])
  }

  lemma TroubleTruncates(b: Books, limits: Limits, op: Op)
    ensures Perform(b, limits, op).truncated == if b.truncated.Some? then b.truncated else TroubleOf(b, limits, op)
  {
    hide Reserved;
    if op.Reserving? {
      hide AfterCommit, AfterCancel, AfterAbort;
    } else {
      hide AfterReserve;
    }
  }

  lemma LastTrouble(ops: seq<Op>, limits: Limits)
    requires ops != []
    ensures var before := PerformAll(ops[..|ops| - 1], limits).truncated;
            PerformAll(ops, limits).truncated
            == if before.Some? then before else Trouble(ops, limits, |ops| - 1)
  {
    hide TroubleOf, Perform;
    TroubleTruncates(PerformAll(ops[..|ops| - 1], limits), limits, ops[|ops| - 1]);
  }

  /** In every run the recorded truncation is the first trouble, and there is none exactly without trouble. */
  lemma {:induction false} TruncationIsFirstTrouble(ops: seq<Op>, limits: Limits)
    ensures PerformAll(ops, limits).truncated.None? <==> forall i :: 0 <= i < |ops| ==> Trouble(ops, limits, i).None?
    ensures forall i :: 0 <= i < |ops| && Trouble(ops, limits, i).Some?
                        && (forall j :: 0 <= j < i ==> Trouble(ops, limits, j).None?) ==>
              PerformAll(ops, limits).truncated == Trouble(ops, limits, i)
  {
    hide PerformAll, Trouble;
    if ops == [] {
      NothingPerformed(limits);
    } else {
      var front := ops[..|ops| - 1];
      TruncationIsFirstTrouble(front, limits);
      LastTrouble(ops, limits);
      forall i | 0 <= i < |front|
        ensures Trouble(front, limits, i) == Trouble(ops, limits, i)
      {
        SameTrouble(ops, limits, i, |front|);
      }
    }
  }

  lemma NothingPerformed(limits: Limits)
    ensures PerformAll([], limits) == EMPTY
  {
  }

  lemma SameTrouble(ops: seq<Op>, limits: Limits, i: nat, n: nat)
    requires i < n <= |ops|
    ensures Trouble(ops[..n], limits, i) == Trouble(ops, limits, i)
  {
    hide TroubleOf, PerformAll;
    assert ops[..n][..i] == ops[..i];
  }

  lemma StepKeepsTruncation(b: Books, limits: Limits, op: Op)
    ensures b.truncated.Some? ==> Perform(b, limits, op).truncated == b.truncated
  {
    hide Reserved;
  }

  /** The first truncation is the one reported. */
  lemma {:induction false} FirstTruncationWins(ops: seq<Op>, limits: Limits, n: nat)
    requires n <= |ops| && PerformAll(ops[..n], limits).truncated.Some?
    ensures PerformAll(ops, limits).truncated == PerformAll(ops[..n], limits).truncated
    decreases |ops|
  {
    if n == |ops| {
      assert ops[..n] == ops;
    } else {
      var front := ops[..|ops| - 1];
      assert front[..n] == ops[..n];
      FirstTruncationWins(front, limits, n);
      StepKeepsTruncation(PerformAll(front, limits), limits, ops[|ops| - 1]);
      hide Perform;
    }
  }
}

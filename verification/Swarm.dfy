/**
 * An orchestrated swarm on one ledger (server/swarm/orchestrator.py, worker.py).
 *
 * Each worker is a small state machine whose steps are the code between two suspension points.
 * The model lets the workers interleave freely, which includes the two waves of the source, and
 * lets any suspended worker fail or be cancelled by the deadline.
 */
module Swarm {
  import opened Wrappers
  import opened Ledger

  datatype Request = Request(limits: Limits, workers: nat)

  ghost predicate LegalRequest(r: Request, ceiling: real) {
    LegalLimits(r.limits) && 1 <= r.workers <= 8 && ceiling > 0.0
  }

  // ---- Allowances ----

  function TokenAllowance(limits: Limits): int
    requires limits.maxCalls >= 1
  {
    var share := limits.maxTokens / limits.maxCalls;
    if share < 1 then 1 else share
  }

  function CostAllowance(limits: Limits): real
    requires limits.maxCalls >= 1
  {
    limits.maxCost / limits.maxCalls as real
  }

  /** Tokens a worker may spend; the quotient is nonnegative, so truncation is the floor. */
  function EffectiveAllowance(limits: Limits, ceiling: real): int
    requires limits.maxCalls >= 1 && ceiling > 0.0
  {
    MinInt(TokenAllowance(limits), (CostAllowance(limits) / ceiling).Floor)
  }

  lemma ShareOfTokens(maxTokens: int, maxCalls: int, t: int)
    requires maxCalls >= 1
    ensures t <= maxTokens / maxCalls <==> maxCalls * t <= maxTokens
  {
    var share := maxTokens / maxCalls;
    assert maxCalls * share <= maxTokens < maxCalls * share + maxCalls;
    ProductOrder(maxCalls, t, share);
    ProductOrder(maxCalls, share + 1, t);
  }

  lemma ProductOrder(n: int, a: int, b: int)
    requires n >= 0
    ensures a <= b ==> n * a <= n * b
  {
    if a <= b {
      assert n * (b - a) >= 0;
    }
  }

  /**
   * The token allowance is the largest equal share of the token limit, or the one-token floor. All
   * calls together can afford it if and only if there is a token for each.
   */
  lemma TokenAllowanceIsLargestShare(limits: Limits, t: int)
    requires limits.maxCalls >= 1
    ensures t <= TokenAllowance(limits) <==> t <= 1 || limits.maxCalls * t <= limits.maxTokens
    ensures limits.maxCalls * TokenAllowance(limits) <= limits.maxTokens <==> limits.maxCalls <= limits.maxTokens
  {
    hide TokenAllowance;
    ShareOfTokens(limits.maxTokens, limits.maxCalls, t);
    ShareOfTokens(limits.maxTokens, limits.maxCalls, 1);
    ShareOfTokens(limits.maxTokens, limits.maxCalls, TokenAllowance(limits));
    FloorOrShare(limits);
  }

  lemma FloorOrShare(limits: Limits)
    requires limits.maxCalls >= 1
    ensures var share := limits.maxTokens / limits.maxCalls;
            TokenAllowance(limits) == if share < 1 then 1 else share
  {
  }

  /** The effective allowance is the most tokens that both allowances pay for. */
  lemma EffectiveAllowanceIsLargest(limits: Limits, ceiling: real, t: int)
    requires limits.maxCalls >= 1 && ceiling > 0.0
    ensures t <= EffectiveAllowance(limits, ceiling)
            <==> t <= TokenAllowance(limits) && t as real * ceiling <= CostAllowance(limits)
  {
    var share := CostAllowance(limits);
    FloorOfQuotient(share, ceiling, t);
  }

  lemma FloorOfQuotient(x: real, d: real, t: int)
    requires d > 0.0
    ensures t <= (x / d).Floor <==> t as real * d <= x
  {
    var q := x / d;
    assert q * d == x;
    if t as real <= q {
      assert (q - t as real) * d >= 0.0;
    } else {
      assert (t as real - q) * d > 0.0;
    }
  }

  /** The tokens and dollars every worker of a swarm asks the ledger for. */
  datatype Terms = Terms(tokens: int, cost: real)

  function TermsOf(limits: Limits, ceiling: real): Terms
    requires limits.maxCalls >= 1 && ceiling > 0.0
  {
    var allowance := EffectiveAllowance(limits, ceiling);
    Terms(allowance, allowance as real * ceiling)
  }

  /**
   * A worker asks for the most tokens, at the ceiling price each, that all calls of the swarm could
   * ask for within the cost limit, and within the token limit unless there is the floor of one.
   */
  lemma TermsAreTheLargest(limits: Limits, ceiling: real, t: int)
    requires limits.maxCalls >= 1 && ceiling > 0.0
    ensures t <= TermsOf(limits, ceiling).tokens <==>
              && (t <= 1 || limits.maxCalls * t <= limits.maxTokens)
              && limits.maxCalls as real * (t as real * ceiling) <= limits.maxCost
    ensures TermsOf(limits, ceiling).cost == TermsOf(limits, ceiling).tokens as real * ceiling
  {
    hide TokenAllowance, EffectiveAllowance;
    EffectiveAllowanceIsLargest(limits, ceiling, t);
    TokenAllowanceIsLargestShare(limits, t);
    ShareOfCost(limits.maxCost, limits.maxCalls as real, t as real * ceiling);
  }

  lemma ShareOfCost(maxCost: real, calls: real, x: real)
    requires calls > 0.0
    ensures x <= maxCost / calls <==> calls * x <= maxCost
  {
    var share := maxCost / calls;
    assert calls * share == maxCost;
    if x <= share {
      assert calls * (share - x) >= 0.0;
    } else {
      assert calls * (x - share) > 0.0;
    }
  }

  // ---- Workers ----

  /**
   * `Calling` and `Failing` hold a reservation; in `Overdrawn` the failed commit has already
   * charged and closed it, and the abort is still to come. `accounting` marks a failure raised
   * by the ledger itself, which the orchestrator records as a truncation.
   */
  datatype Phase =
    | Idle
    | Calling(id: Id)
    | Failing(id: Id, accounting: bool)
    | Overdrawn(id: Id)
    | Done(charged: bool)

  datatype State = State(books: Books, phases: seq<Phase>, issued: set<Id>)

  datatype Step =
    | FindNothing(worker: nat)
    | Begin(worker: nat, inputReserve: nat, elapsed: real, id: Id)
    | Answer(worker: nat, actualTokens: int, actualCost: real)
    | Break(worker: nat)
    | Abort(worker: nat)
    | Deadline

  function Start(r: Request): State {
    State(EMPTY, seq(r.workers, i => Idle), {})
  }

  /** What the ledger answers a worker whose prompt leaves room for output. */
  ghost function Grant(s: State, r: Request, terms: Terms, step: Step): Result<Id, LedgerError>
    requires step.Begin?
  {
    ReserveResult(s.books, r.limits, step.elapsed, step.id, terms.tokens, terms.cost)
  }

  /**
   * Which steps can happen. A prompt is at least the two braces of a JSON object, and an
   * identifier is never issued twice.
   */
  ghost predicate Enabled(s: State, step: Step) {
    match step
    case FindNothing(w) => w < |s.phases| && s.phases[w].Idle?
    case Begin(w, inputReserve, _, id) => w < |s.phases| && s.phases[w].Idle? && inputReserve >= 2 && id !in s.issued
    case Answer(w, _, _) => w < |s.phases| && s.phases[w].Calling?
    case Break(w) => w < |s.phases| && s.phases[w].Calling?
    case Abort(w) => w < |s.phases| && (s.phases[w].Failing? || s.phases[w].Overdrawn?)
    case Deadline => true
  }

  function BooksAfterAbort(b: Books, id: Id, accounting: bool): Books {
    var c := AfterAbort(b, id);
    if accounting then c.(truncated := FirstOf(c.truncated, ProviderOverage)) else c
  }

  ghost function Next(s: State, r: Request, terms: Terms, step: Step): State
    requires Enabled(s, step)
  {
    match step
    case FindNothing(w) => s.(phases := s.phases[w := Done(false)])
    case Begin(w, inputReserve, elapsed, id) =>
      if terms.tokens <= inputReserve then
        s.(books := s.books.(truncated := FirstOf(s.books.truncated, CostUsd)), phases := s.phases[w := Done(false)])
      else
        State(AfterReserve(s.books, r.limits, elapsed, id, terms.tokens, terms.cost),
              s.phases[w := if Grant(s, r, terms, step).Success? then Calling(id) else Done(false)],
              s.issued + {id})
    case Answer(w, tokens, cost) =>
      var id := s.phases[w].id;
      s.(books := AfterCommit(s.books, id, tokens, cost),
         phases := s.phases[w := match CommitError(s.books, id, tokens, cost)
                                 case None => Done(true)
                                 case Some(UsageAboveReservation) => Overdrawn(id)
                                 case Some(_) => Failing(id, true)])
    case Break(w) => s.(phases := s.phases[w := Failing(s.phases[w].id, false)])
    case Abort(w) =>
      var accounting := s.phases[w].Overdrawn? || s.phases[w].accounting;
      s.(books := BooksAfterAbort(s.books, s.phases[w].id, accounting), phases := s.phases[w := Done(true)])
    case Deadline => s.(books := s.books.(truncated := FirstOf(s.books.truncated, Seconds)))
  }

  ghost predicate Run(steps: seq<Step>, states: seq<State>, r: Request, terms: Terms) {
    && |states| == |steps| + 1 && states[0] == Start(r)
    && forall i :: 0 <= i < |steps| ==>
         Enabled(states[i], steps[i]) && states[i + 1] == Next(states[i], r, terms, steps[i])
  }

  // ---- The invariant ----

  predicate Holds(p: Phase) {
    p.Calling? || p.Failing?
  }

  predicate Settled(p: Phase) {
    p.Overdrawn? || (p.Done? && p.charged)
  }

  ghost function SettledCount(phases: seq<Phase>): nat {
    if phases == [] then 0
    else SettledCount(phases[..|phases| - 1]) + (if Settled(phases[|phases| - 1]) then 1 else 0)
  }

  ghost function HeldIds(phases: seq<Phase>): set<Id> {
    set w | 0 <= w < |phases| && Holds(phases[w]) :: phases[w].id
  }

  /** The workers' phases and the ledger tell the same story. */
  ghost predicate PhasesAgree(s: State, r: Request) {
    && |s.phases| == r.workers
    && s.books.reservations.Keys == HeldIds(s.phases) && HeldIds(s.phases) <= s.issued
    && (forall w :: 0 <= w < |s.phases| && s.phases[w].Overdrawn? ==>
          s.phases[w].id in s.issued && s.phases[w].id !in s.books.reservations)
    && (forall v, w :: 0 <= v < w < |s.phases| && Holds(s.phases[v]) && Holds(s.phases[w]) ==>
         s.phases[v].id != s.phases[w].id)
    && s.books.calls == SettledCount(s.phases)
  }

  ghost function Times(n: int, x: real): real {
    if n <= 0 then 0.0 else x + Times(n - 1, x)
  }

  ghost function TimesInt(n: int, x: int): int {
    if n <= 0 then 0 else x + TimesInt(n - 1, x)
  }

  /** No call, open or charged, is worth more than its share. */
  ghost predicate Priced(b: Books, share: Terms) {
    && b.tokens + Reserved(b.reservations).tokens <= TimesInt(b.calls + |b.reservations|, share.tokens)
    && b.cost + Reserved(b.reservations).cost <= Times(b.calls + |b.reservations|, share.cost)
  }

  ghost predicate Inv(s: State, r: Request, share: Terms) {
    PhasesAgree(s, r) && WithinLimits(s.books, r.limits) && Priced(s.books, share)
  }

  /** Requests that can be made at all ask for no more than a share. */
  ghost predicate WithinShare(terms: Terms, share: Terms) {
    terms.tokens > 2 ==> 0 <= terms.tokens <= share.tokens && 0.0 <= terms.cost <= share.cost
  }

  lemma {:induction false} SettledUpdate(phases: seq<Phase>, w: nat, p: Phase)
    requires w < |phases|
    ensures SettledCount(phases[w := p])
            == SettledCount(phases) - (if Settled(phases[w]) then 1 else 0) + (if Settled(p) then 1 else 0)
  {
    var front := phases[..|phases| - 1];
    if w == |phases| - 1 {
      assert phases[w := p][..w] == front;
    } else {
      assert phases[w := p][..|phases| - 1] == front[w := p];
      SettledUpdate(front, w, p);
    }
  }

  lemma {:induction false} AllIdle(phases: seq<Phase>)
    requires forall p <- phases :: p.Idle?
    ensures SettledCount(phases) == 0 && HeldIds(phases) == {}
  {
    if phases != [] {
      AllIdle(phases[..|phases| - 1]);
      assert phases[|phases| - 1] in phases;
    }
  }

  /** One call's part of the token and cost limits. */
  ghost function ShareOf(limits: Limits): Terms
    requires limits.maxCalls >= 1
  {
    Terms(limits.maxTokens / limits.maxCalls, CostAllowance(limits))
  }

  lemma TermsAreWithinShare(limits: Limits, ceiling: real)
    requires LegalLimits(limits) && ceiling > 0.0
    ensures WithinShare(TermsOf(limits, ceiling), ShareOf(limits))
  {
    var allowance := EffectiveAllowance(limits, ceiling);
    var affordable := CostAllowance(limits) / ceiling;
    assert allowance as real <= affordable;
    assert (affordable - allowance as real) * ceiling >= 0.0;
    assert affordable * ceiling == CostAllowance(limits);
  }

  lemma {:induction false} TimesIsProduct(n: int, x: real, k: int)
    ensures n >= 0 ==> Times(n, x) == n as real * x
    ensures n >= 0 ==> TimesInt(n, k) == n * k
  {
    if n > 0 {
      TimesIsProduct(n - 1, x, k);
    }
  }

  lemma TokenSharesFit(maxTokens: int, maxCalls: int, n: int)
    requires maxCalls >= 1 && maxTokens >= 0 && 0 <= n <= maxCalls
    ensures n * (maxTokens / maxCalls) <= maxTokens
  {
    var share := maxTokens / maxCalls;
    ShareOfTokens(maxTokens, maxCalls, share);
    ShareOfTokens(maxTokens, maxCalls, 0);
    ProductOrder(share, n, maxCalls);
  }

  lemma CostSharesFit(maxCost: real, maxCalls: real, n: real)
    requires maxCalls >= 1.0 && maxCost >= 0.0 && 0.0 <= n <= maxCalls
    ensures n * (maxCost / maxCalls) <= maxCost
  {
    var share := maxCost / maxCalls;
    assert maxCalls * share == maxCost;
    assert (maxCalls - n) * share >= 0.0;
  }

  /** Up to `maxCalls` shares fit into the limits. */
  lemma SharesFit(limits: Limits, n: int)
    requires LegalLimits(limits) && 0 <= n <= limits.maxCalls
    ensures TimesInt(n, ShareOf(limits).tokens) <= limits.maxTokens
    ensures Times(n, ShareOf(limits).cost) <= limits.maxCost
  {
    var share := ShareOf(limits);
    TimesIsProduct(n, share.cost, share.tokens);
    TokenSharesFit(limits.maxTokens, limits.maxCalls, n);
    CostSharesFit(limits.maxCost, limits.maxCalls as real, n as real);
  }

  lemma CloseOne(b: Books, id: Id)
    requires id in b.reservations
    ensures var m := b.reservations;
            && |m - {id}| == |m| - 1
            && Reserved(m).tokens == m[id].tokens + Reserved(m - {id}).tokens
            && Reserved(m).cost == m[id].cost + Reserved(m - {id}).cost
  {
    var m := b.reservations;
    ReservedWithout(m, id);
    assert m.Keys == (m - {id}).Keys + {id};
    assert |m.Keys| == |(m - {id}).Keys| + 1;
  }

  lemma CloseStaysPriced(b: Books, limits: Limits, id: Id, tokens: int, cost: real, share: Terms)
    requires WithinLimits(b, limits) && Priced(b, share)
    ensures Priced(AfterCommit(b, id, tokens, cost), share)
    ensures Priced(AfterAbort(b, id), share)
  {
    if id in b.reservations {
      CloseOne(b, id);
    }
  }

  lemma ReserveStaysPriced(b: Books, limits: Limits, elapsed: real, id: Id, terms: Terms, share: Terms)
    requires id !in b.reservations && Priced(b, share) && 0 <= b.calls
    requires terms.tokens <= share.tokens && terms.cost <= share.cost
    ensures Priced(AfterReserve(b, limits, elapsed, id, terms.tokens, terms.cost), share)
  {
    hide Refusal, Priced;
    PricedWith(b, id, terms, share);
    PricedAnyway(b, share);
  }

  /** One more reservation of no more than a share. */
  lemma PricedWith(b: Books, id: Id, terms: Terms, share: Terms)
    requires id !in b.reservations && Priced(b, share) && 0 <= b.calls
    requires terms.tokens <= share.tokens && terms.cost <= share.cost
    ensures Priced(b.(reservations := b.reservations[id := Reservation(terms.tokens, terms.cost)]), share)
  {
    ReservedWith(b.reservations, id, Reservation(terms.tokens, terms.cost));
    hide Reserved;
  }

  lemma PricedAnyway(b: Books, share: Terms)
    requires Priced(b, share)
    ensures forall truncated :: Priced(b.(truncated := truncated), share)
  {
    hide Reserved, Times, TimesInt;
  }

  lemma IdsAfter(s: State, r: Request, w: nat, p: Phase)
    requires PhasesAgree(s, r) && w < |s.phases| && Holds(s.phases[w])
    requires Holds(p) ==> p.id == s.phases[w].id
    ensures HeldIds(s.phases[w := p]) == if Holds(p) then HeldIds(s.phases) else HeldIds(s.phases) - {s.phases[w].id}
  {
    var after := s.phases[w := p];
    forall id
      ensures id in HeldIds(after) <==> id in HeldIds(s.phases) && (Holds(p) || id != s.phases[w].id)
    {
      if id in HeldIds(after) {
        var v :| 0 <= v < |after| && Holds(after[v]) && after[v].id == id;
        assert Holds(s.phases[v]) && s.phases[v].id == id;
      }
      if id in HeldIds(s.phases) {
        var v :| 0 <= v < |after| && Holds(s.phases[v]) && s.phases[v].id == id;
        assert v != w ==> after[v] == s.phases[v];
        assert v == w && Holds(p) ==> Holds(after[v]) && after[v].id == id;
      }
    }
  }

  /** A commit moves its worker to the phase that matches what happened to its reservation. */
  lemma AnswerAgrees(s: State, r: Request, terms: Terms, step: Step)
    requires PhasesAgree(s, r) && Enabled(s, step) && step.Answer?
    ensures PhasesAgree(Next(s, r, terms, step), r)
  {
    var w := step.worker;
    var p := Next(s, r, terms, step).phases[w];
    assert s.phases[w].id in HeldIds(s.phases);
    SettledUpdate(s.phases, w, p);
    IdsAfter(s, r, w, p);
  }

  lemma AnswerKeepsInv(s: State, r: Request, terms: Terms, step: Step, share: Terms)
    requires Inv(s, r, share) && WithinShare(terms, share) && Enabled(s, step) && step.Answer?
    ensures Inv(Next(s, r, terms, step), r, share)
  {
    var id := s.phases[step.worker].id;
    AnswerAgrees(s, r, terms, step);
    StepStaysWithin(s.books, r.limits, Committing(id, step.actualTokens, step.actualCost));
    CloseStaysPriced(s.books, r.limits, id, step.actualTokens, step.actualCost, share);
  }

  lemma AbortAgrees(s: State, r: Request, terms: Terms, step: Step)
    requires PhasesAgree(s, r) && Enabled(s, step) && step.Abort?
    ensures PhasesAgree(Next(s, r, terms, step), r)
  {
    var w := step.worker;
    SettledUpdate(s.phases, w, Done(true));
    if s.phases[w].Failing? {
      assert s.phases[w].id in HeldIds(s.phases);
      IdsAfter(s, r, w, Done(true));
    } else {
      SameIds(s, w, Done(true));
    }
  }

  lemma AbortKeepsMoney(b: Books, limits: Limits, id: Id, accounting: bool, share: Terms)
    requires WithinLimits(b, limits) && Priced(b, share)
    ensures WithinLimits(BooksAfterAbort(b, id, accounting), limits)
    ensures Priced(BooksAfterAbort(b, id, accounting), share)
  {
    StepStaysWithin(b, limits, Aborting(id));
    CloseStaysPriced(b, limits, id, 0, 0.0, share);
  }

  lemma AbortKeepsInv(s: State, r: Request, terms: Terms, step: Step, share: Terms)
    requires Inv(s, r, share) && Enabled(s, step) && step.Abort?
    ensures Inv(Next(s, r, terms, step), r, share)
  {
    AbortAgrees(s, r, terms, step);
    var p := s.phases[step.worker];
    AbortKeepsMoney(s.books, r.limits, p.id, p.Overdrawn? || p.accounting, share);
  }

  lemma SameIds(s: State, w: nat, p: Phase)
    requires w < |s.phases| && !Holds(s.phases[w]) && !Holds(p)
    ensures HeldIds(s.phases[w := p]) == HeldIds(s.phases)
  {
    var after := s.phases[w := p];
    forall id
      ensures id in HeldIds(after) <==> id in HeldIds(s.phases)
    {
      if id in HeldIds(after) {
        var v :| 0 <= v < |after| && Holds(after[v]) && after[v].id == id;
        assert Holds(s.phases[v]) && s.phases[v].id == id;
      }
      if id in HeldIds(s.phases) {
        var v :| 0 <= v < |after| && Holds(s.phases[v]) && s.phases[v].id == id;
        assert Holds(after[v]) && after[v].id == id;
      }
    }
  }

  lemma NewId(s: State, w: nat, id: Id)
    requires w < |s.phases| && !Holds(s.phases[w])
    ensures HeldIds(s.phases[w := Calling(id)]) == HeldIds(s.phases) + {id}
  {
    var after := s.phases[w := Calling(id)];
    forall k
      ensures k in HeldIds(after) <==> k in HeldIds(s.phases) || k == id
    {
      if k in HeldIds(after) {
        var v :| 0 <= v < |after| && Holds(after[v]) && after[v].id == k;
        assert v != w ==> Holds(s.phases[v]) && s.phases[v].id == k;
      }
      if k in HeldIds(s.phases) {
        var v :| 0 <= v < |after| && Holds(s.phases[v]) && s.phases[v].id == k;
        assert Holds(after[v]) && after[v].id == k;
      }
      assert Holds(after[w]) && after[w].id == id;
    }
  }

  /** Which identifiers are reserved after a request, whatever is asked for. */
  lemma ReservedIds(b: Books, limits: Limits, elapsed: real, id: Id, terms: Terms)
    ensures var after := AfterReserve(b, limits, elapsed, id, terms.tokens, terms.cost);
            && after.calls == b.calls
            && after.reservations.Keys
               == b.reservations.Keys
                  + (if ReserveResult(b, limits, elapsed, id, terms.tokens, terms.cost).Success? then {id} else {})
  {
    hide Refusal;
  }

  lemma BeginAgrees(s: State, r: Request, terms: Terms, step: Step)
    requires PhasesAgree(s, r) && Enabled(s, step) && step.Begin?
    ensures PhasesAgree(Next(s, r, terms, step), r)
  {
    var w, id := step.worker, step.id;
    ReservedIds(s.books, r.limits, step.elapsed, id, terms);
    hide AfterReserve, ReserveResult, SettledCount, HeldIds;
    SettledUpdate(s.phases, w, Calling(id));
    NewId(s, w, id);
    SettledUpdate(s.phases, w, Done(false));
    SameIds(s, w, Done(false));
  }

  /** What a request that leaves room for output does to the books. */
  lemma BooksAfterBegin(s: State, r: Request, terms: Terms, step: Step)
    requires Enabled(s, step) && step.Begin?
    ensures Next(s, r, terms, step).books
            == if terms.tokens <= step.inputReserve then s.books.(truncated := FirstOf(s.books.truncated, CostUsd))
               else AfterReserve(s.books, r.limits, step.elapsed, step.id, terms.tokens, terms.cost)
  {
    hide AfterReserve, ReserveResult;
  }

  /** Marking a truncation moves no money. */
  lemma TruncationIsFree(b: Books, limits: Limits, share: Terms, truncated: Option<Dimension>)
    requires WithinLimits(b, limits) && Priced(b, share)
    ensures WithinLimits(b.(truncated := truncated), limits) && Priced(b.(truncated := truncated), share)
  {
    hide Reserved, TimesInt, Times;
  }

  lemma BeginKeepsInv(s: State, r: Request, terms: Terms, step: Step, share: Terms)
    requires Inv(s, r, share) && WithinShare(terms, share) && Enabled(s, step) && step.Begin?
    ensures Inv(Next(s, r, terms, step), r, share)
  {
    BeginAgrees(s, r, terms, step);
    BooksAfterBegin(s, r, terms, step);
    IssuedCoversReserved(s, r);
    hide Reserved, AfterReserve, Next, WithinLimits, Priced, PhasesAgree;
    if terms.tokens > step.inputReserve {
      StepStaysWithin(s.books, r.limits, Reserving(step.elapsed, step.id, terms.tokens, terms.cost));
      CallsAreNonnegative(s.books, r.limits);
      ReserveStaysPriced(s.books, r.limits, step.elapsed, step.id, terms, share);
    } else {
      TruncationIsFree(s.books, r.limits, share, FirstOf(s.books.truncated, CostUsd));
    }
  }

  lemma CallsAreNonnegative(b: Books, limits: Limits)
    requires WithinLimits(b, limits)
    ensures 0 <= b.calls
  {
  }

  lemma IssuedCoversReserved(s: State, r: Request)
    requires PhasesAgree(s, r)
    ensures forall id :: id !in s.issued ==> id !in s.books.reservations
  {
    hide HeldIds;
  }

  /** Steps that leave reservations and charges alone. */
  lemma QuietStepKeepsInv(s: State, r: Request, terms: Terms, step: Step, share: Terms)
    requires Inv(s, r, share) && Enabled(s, step) && (step.FindNothing? || step.Break? || step.Deadline?)
    ensures Inv(Next(s, r, terms, step), r, share)
  {
    TruncationIsFree(s.books, r.limits, share, FirstOf(s.books.truncated, Seconds));
    hide WithinLimits, Priced, PhasesAgree;
    if step.FindNothing? {
      PhaseStepAgrees(s, r, step.worker, Done(false));
    } else if step.Break? {
      BreakAgrees(s, r, step.worker);
    } else {
      SameWorkAgrees(s, Next(s, r, terms, step), r);
    }
  }

  lemma PhaseStepAgrees(s: State, r: Request, w: nat, p: Phase)
    requires PhasesAgree(s, r) && w < |s.phases| && s.phases[w].Idle? && p == Done(false)
    ensures PhasesAgree(s.(phases := s.phases[w := p]), r)
  {
    hide HeldIds, SettledCount;
    SettledUpdate(s.phases, w, p);
    SameIds(s, w, p);
  }

  lemma BreakAgrees(s: State, r: Request, w: nat)
    requires PhasesAgree(s, r) && w < |s.phases| && s.phases[w].Calling?
    ensures PhasesAgree(s.(phases := s.phases[w := Failing(s.phases[w].id, false)]), r)
  {
    hide HeldIds, SettledCount;
    var p := Failing(s.phases[w].id, false);
    SettledUpdate(s.phases, w, p);
    IdsAfter(s, r, w, p);
  }

  lemma SameWorkAgrees(s: State, t: State, r: Request)
    requires PhasesAgree(s, r) && t.phases == s.phases && t.issued == s.issued
    requires t.books.reservations == s.books.reservations && t.books.calls == s.books.calls
    ensures PhasesAgree(t, r)
  {
  }

  lemma StepKeepsInv(s: State, r: Request, terms: Terms, step: Step, share: Terms)
    requires Inv(s, r, share) && WithinShare(terms, share) && Enabled(s, step)
    ensures Inv(Next(s, r, terms, step), r, share)
  {
    hide Inv, Enabled, Next;
    if step.Begin? {
      BeginKeepsInv(s, r, terms, step, share);
    } else if step.Answer? {
      AnswerKeepsInv(s, r, terms, step, share);
    } else if step.Abort? {
      AbortKeepsInv(s, r, terms, step, share);
    } else {
      QuietStepKeepsInv(s, r, terms, step, share);
    }
  }

  lemma {:induction false} RunKeepsInv(steps: seq<Step>, states: seq<State>, r: Request, ceiling: real, n: nat)
    requires LegalRequest(r, ceiling) && Run(steps, states, r, TermsOf(r.limits, ceiling)) && n < |states|
    ensures Inv(states[n], r, ShareOf(r.limits))
  {
    if n == 0 {
      AllIdle(Start(r).phases);
    } else {
      RunKeepsInv(steps, states, r, ceiling, n - 1);
      TermsAreWithinShare(r.limits, ceiling);
      StepKeepsInv(states[n - 1], r, TermsOf(r.limits, ceiling), steps[n - 1], ShareOf(r.limits));
    }
  }

  // ---- Main results ----

  /**
   * In every interleaving, when a worker reaches the ledger its request is refused for time or
   * calls or not at all: the token and cost checks cannot fail.
   */
  lemma RefusedOnlyForTimeOrCalls(steps: seq<Step>, states: seq<State>, r: Request, ceiling: real, n: nat)
    requires LegalRequest(r, ceiling) && Run(steps, states, r, TermsOf(r.limits, ceiling))
    requires n < |steps| && steps[n].Begin? && TermsOf(r.limits, ceiling).tokens > steps[n].inputReserve
    ensures var s := states[n];
            Grant(s, r, TermsOf(r.limits, ceiling), steps[n])
            == if steps[n].elapsed >= r.limits.maxSeconds then Failure(BudgetExceeded(Seconds))
               else if s.books.calls + |s.books.reservations| >= r.limits.maxCalls then Failure(BudgetExceeded(Calls))
               else Success(steps[n].id)
  {
    hide PhasesAgree, WithinLimits, Priced, Refusal, ShareOf, TermsOf, Next, Start;
    RunKeepsInv(steps, states, r, ceiling, n);
    TermsAreWithinShare(r.limits, ceiling);
    ShareIsGranted(states[n].books, r.limits, steps[n].elapsed, TermsOf(r.limits, ceiling));
  }

  /** One more share always fits, so a request of no more than that meets only the first two checks. */
  lemma ShareIsGranted(b: Books, limits: Limits, elapsed: real, terms: Terms)
    requires LegalLimits(limits) && WithinLimits(b, limits) && Priced(b, ShareOf(limits))
    requires terms.tokens <= ShareOf(limits).tokens && terms.cost <= ShareOf(limits).cost
    ensures Refusal(b, limits, elapsed, terms.tokens, terms.cost)
            == if elapsed >= limits.maxSeconds then Some(Seconds)
               else if b.calls + |b.reservations| >= limits.maxCalls then Some(Calls)
               else None
  {
    var count := b.calls + |b.reservations|;
    if count < limits.maxCalls {
      CallsAreNonnegative(b, limits);
      SharesFit(limits, count + 1);
      hide Reserved, WithinLimits, ShareOf;
    }
  }

  /** `n` calls, one after the other, each granted `terms` and spending all of it. */
  function CallsInTurn(n: nat, terms: Terms): seq<Op> {
    if n == 0 then []
    else CallsInTurn(n - 1, terms)
         + [Reserving(0.0, n, terms.tokens, terms.cost), Committing(n, terms.tokens, terms.cost)]
  }

  /** The ledger after one more such call. */
  lemma OneMoreCall(limits: Limits, n: nat, cost: real, spent: real)
    requires LegalLimits(limits) && n < limits.maxCalls && n < limits.maxTokens
    requires cost >= 0.0 && spent + cost <= limits.maxCost
    ensures var b := Books(n, n, spent, map[], None);
            Perform(Perform(b, limits, Reserving(0.0, n + 1, 1, cost)), limits, Committing(n + 1, 1, cost))
            == Books(n + 1, n + 1, spent + cost, map[], None)
  {
    var b := Books(n, n, spent, map[], None);
    assert Refusal(b, limits, 0.0, 1, cost).None?;
    var held := AfterReserve(b, limits, 0.0, n + 1, 1, cost);
    assert held.reservations == map[n + 1 := Reservation(1, cost)];
    assert held.reservations - {n + 1} == map[];
  }

  lemma OneMoreTurn(ops: seq<Op>, limits: Limits, n: nat, cost: real, spent: real)
    requires LegalLimits(limits) && n < limits.maxCalls && n < limits.maxTokens
    requires cost >= 0.0 && spent + cost <= limits.maxCost
    requires FreshIds(ops, limits) && PerformAll(ops, limits) == Books(n, n, spent, map[], None)
    ensures var more := ops + [Reserving(0.0, n + 1, 1, cost), Committing(n + 1, 1, cost)];
            FreshIds(more, limits) && PerformAll(more, limits) == Books(n + 1, n + 1, spent + cost, map[], None)
  {
    hide Perform, PerformAll, FreshIds, LegalLimits;
    TwoMoreOps(ops, Reserving(0.0, n + 1, 1, cost), Committing(n + 1, 1, cost), limits);
    OneMoreCall(limits, n, cost, spent);
  }

  /** With fewer tokens than calls, as many one-token calls as there are tokens spend all of them. */
  lemma {:induction false} CallsSpendAllTokens(limits: Limits, n: nat, cost: real)
    requires LegalLimits(limits) && n <= limits.maxTokens < limits.maxCalls
    requires 0.0 <= cost <= CostAllowance(limits)
    ensures FreshIds(CallsInTurn(n, Terms(1, cost)), limits)
    ensures PerformAll(CallsInTurn(n, Terms(1, cost)), limits) == Books(n, n, Times(n, cost), map[], None)
  {
    hide Perform, FreshIds;
    if n == 0 {
      NoCalls(limits, Terms(1, cost));
    } else {
      CallsSpendAllTokens(limits, n - 1, cost);
      CostOfCalls(limits, n, cost);
      hide PerformAll, Times;
      OneMoreTurn(CallsInTurn(n - 1, Terms(1, cost)), limits, n - 1, cost, Times(n - 1, cost));
    }
  }

  lemma NoCalls(limits: Limits, terms: Terms)
    ensures FreshIds(CallsInTurn(0, terms), limits) && PerformAll(CallsInTurn(0, terms), limits) == EMPTY
  {
  }

  lemma TwoMoreOps(ops: seq<Op>, reserve: Op, commit: Op, limits: Limits)
    requires FreshIds(ops, limits) && reserve.Reserving? && commit.Committing?
    requires reserve.id !in PerformAll(ops, limits).reservations
    ensures FreshIds(ops + [reserve, commit], limits)
    ensures PerformAll(ops + [reserve, commit], limits)
            == Perform(Perform(PerformAll(ops, limits), limits, reserve), limits, commit)
  {
    hide Perform;
    var all := ops + [reserve, commit];
    assert all[..|ops|] == ops && all[..|ops| + 1] == ops + [reserve] && all == (ops + [reserve]) + [commit];
    assert (ops + [reserve])[..|ops|] == ops && all[..|all| - 1] == ops + [reserve];
    forall i | 0 <= i < |all| && all[i].Reserving?
      ensures all[i].id !in PerformAll(all[..i], limits).reservations
    {
      if i < |ops| {
        assert all[..i] == ops[..i];
      }
    }
  }

  lemma CostOfCalls(limits: Limits, n: nat, cost: real)
    requires LegalLimits(limits) && 0 < n <= limits.maxCalls && 0.0 <= cost <= CostAllowance(limits)
    ensures Times(n, cost) == Times(n - 1, cost) + cost <= limits.maxCost
  {
    TimesIsProduct(n, cost, 0);
    CostSharesFit(limits.maxCost, limits.maxCalls as real, n as real);
    assert n as real * (CostAllowance(limits) - cost) >= 0.0;
  }

  /** What the ledger answers after `n` one-token calls. */
  lemma RefusalAfterCalls(limits: Limits, n: nat, cost: real)
    requires LegalLimits(limits) && n <= limits.maxTokens < limits.maxCalls
    requires 0.0 <= cost <= CostAllowance(limits)
    ensures Refusal(PerformAll(CallsInTurn(n, Terms(1, cost)), limits), limits, 0.0, 1, cost)
            == if n < limits.maxTokens then None else Some(Tokens)
  {
    CallsSpendAllTokens(limits, n, cost);
    CostOfCalls(limits, n + 1, cost);
    hide PerformAll, CallsInTurn, Times, CostAllowance;
  }

  /**
   * The prompt bound is what keeps the token check from failing. With fewer tokens than calls, and a
   * price a worker can pay, workers with an empty prompt would be granted the one-token floor one
   * after the other, and one of `workers` be refused for tokens if and only if there are fewer tokens
   * than workers. A prompt of two bytes stops each of them before it reaches the ledger.
   */
  lemma EmptyPromptWouldBeRefusedOnTokens(limits: Limits, ceiling: real, workers: nat, inputReserve: nat)
    requires LegalLimits(limits) && ceiling > 0.0 && limits.maxTokens < limits.maxCalls
    requires EffectiveAllowance(limits, ceiling) > 0
    ensures var terms := TermsOf(limits, ceiling);
            && (limits.maxTokens < workers
                <==> exists n :: 0 <= n < workers && n <= limits.maxTokens && RefusedOnTokens(limits, terms, n))
            && (inputReserve >= 2 ==> terms.tokens <= inputReserve)
  {
    var terms := TermsOf(limits, ceiling);
    ShareOfTokens(limits.maxTokens, limits.maxCalls, 1);
    FloorOrShare(limits);
    assert terms.tokens == 1;
    EffectiveAllowanceIsLargest(limits, ceiling, 1);
    forall n: nat | n <= limits.maxTokens
      ensures RefusedOnTokens(limits, terms, n) <==> n == limits.maxTokens
    {
      CallsSpendAllTokens(limits, n, terms.cost);
      RefusalAfterCalls(limits, n, terms.cost);
    }
    var all: nat := limits.maxTokens;
    assert RefusedOnTokens(limits, terms, all);
  }

  /** After `n` workers were granted and spent `terms`, the next request for them is refused on tokens. */
  ghost predicate RefusedOnTokens(limits: Limits, terms: Terms, n: nat) {
    var ops := CallsInTurn(n, terms);
    FreshIds(ops, limits) && Refusal(PerformAll(ops, limits), limits, 0.0, terms.tokens, terms.cost) == Some(Tokens)
  }

  /**
   * Once every worker has finished, nothing is left reserved, the calls charged are exactly the
   * workers that were granted a reservation, and no budget is overspent.
   */
  lemma FinishedSwarmIsBalanced(steps: seq<Step>, states: seq<State>, r: Request, ceiling: real, n: nat)
    requires LegalRequest(r, ceiling) && Run(steps, states, r, TermsOf(r.limits, ceiling)) && n < |states|
    ensures var b := states[n].books;
            b.calls <= r.limits.maxCalls && b.tokens <= r.limits.maxTokens && b.cost <= r.limits.maxCost
    ensures (forall p <- states[n].phases :: p.Done?) ==>
              states[n].books.reservations == map[] && states[n].books.calls == SettledCount(states[n].phases)
  {
    RunKeepsInv(steps, states, r, ceiling, n);
    var s := states[n];
    ReservedNonnegative(s.books.reservations);
    if forall p <- s.phases :: p.Done? {
      assert forall w :: 0 <= w < |s.phases| ==> s.phases[w] in s.phases;
      assert HeldIds(s.phases) == {};
    }
  }

  // ---- What a swarm is truncated for ----

  /** Every open reservation is worth what its worker asked for. */
  ghost predicate AtTerms(b: Books, terms: Terms) {
    forall k <- b.reservations :: b.reservations[k] == Reservation(terms.tokens, terms.cost)
  }

  lemma {:induction false} ReservedAtTerms(steps: seq<Step>, states: seq<State>, r: Request, terms: Terms, n: nat)
    requires Run(steps, states, r, terms) && n < |states|
    ensures AtTerms(states[n].books, terms)
  {
    if n > 0 {
      ReservedAtTerms(steps, states, r, terms, n - 1);
      hide Run, Reserved;
      RunStep(steps, states, r, terms, n - 1);
      var s, step := states[n - 1], steps[n - 1];
      assert step.Begin? ==> AtTerms(Next(s, r, terms, step).books, terms);
    }
  }

  lemma RunStep(steps: seq<Step>, states: seq<State>, r: Request, terms: Terms, n: nat)
    requires Run(steps, states, r, terms) && n + 1 < |states|
    ensures n < |steps| && Enabled(states[n], steps[n]) && states[n + 1] == Next(states[n], r, terms, steps[n])
  {
    hide Enabled, Next;
  }

  /**
   * What a worker's answer does in a run. A report within its terms is charged exactly, one above
   * them charges what was asked for at most and sends the worker to the abort, a negative one charges nothing yet.
   */
  lemma AnswersAreSettled(steps: seq<Step>, states: seq<State>, r: Request, ceiling: real, n: nat)
    requires LegalRequest(r, ceiling) && Run(steps, states, r, TermsOf(r.limits, ceiling))
    requires n < |steps| && steps[n].Answer?
    ensures var s, t, Answer(w, tokens, cost) := states[n], states[n + 1], steps[n];
            var terms, b := TermsOf(r.limits, ceiling), s.books;
            && w < |s.phases| && s.phases[w].Calling? && var id := s.phases[w].id;
            if tokens < 0 || cost < 0.0 then t == s.(phases := s.phases[w := Failing(id, true)])
            else if tokens <= terms.tokens && cost <= terms.cost then
              t == s.(books := Books(b.calls + 1, b.tokens + tokens, b.cost + cost, b.reservations - {id}, b.truncated),
                      phases := s.phases[w := Done(true)])
            else
              t == s.(books := Books(b.calls + 1,
                                     b.tokens + (if tokens <= terms.tokens then tokens else terms.tokens),
                                     b.cost + (if cost <= terms.cost then cost else terms.cost),
                                     b.reservations - {id},
                                     if b.truncated.Some? then b.truncated else Some(ProviderOverage)),
                      phases := s.phases[w := Overdrawn(id)])
  {
    var s, w := states[n], steps[n].worker;
    RunStep(steps, states, r, TermsOf(r.limits, ceiling), n);
    ReservedAtTerms(steps, states, r, TermsOf(r.limits, ceiling), n);
    RunKeepsInv(steps, states, r, ceiling, n);
    CallerIsReserved(s, r, w);
    hide Run, TermsOf, WithinLimits, Priced, PhasesAgree, Reserved;
  }

  lemma CallerIsReserved(s: State, r: Request, w: nat)
    requires PhasesAgree(s, r) && w < |s.phases| && s.phases[w].Calling?
    ensures s.phases[w].id in s.books.reservations
  {
    assert Holds(s.phases[w]);
  }

  /** What a step runs into that the swarm's packet has to admit. */
  ghost function TroubleOf(s: State, r: Request, terms: Terms, step: Step): Option<Dimension>
    requires Enabled(s, step)
  {
    match step
    case Begin(_, inputReserve, elapsed, _) =>
      if terms.tokens <= inputReserve then Some(CostUsd)
      else if elapsed >= r.limits.maxSeconds then Some(Seconds)
      else if s.books.calls + |s.books.reservations| >= r.limits.maxCalls then Some(Calls)
      else None
    case Answer(_, tokens, cost) =>
      if tokens >= 0 && cost >= 0.0 && (tokens > terms.tokens || cost > terms.cost) then Some(ProviderOverage) else None
    case Abort(w) =>
      if s.phases[w].Overdrawn? || s.phases[w] == Failing(s.phases[w].id, true) then Some(ProviderOverage) else None
    case Deadline => Some(Seconds)
    case _ => None
  }

  lemma StepTruncates(steps: seq<Step>, states: seq<State>, r: Request, ceiling: real, n: nat)
    requires LegalRequest(r, ceiling) && Run(steps, states, r, TermsOf(r.limits, ceiling)) && n < |steps|
    ensures var before := states[n].books.truncated;
            states[n + 1].books.truncated
            == if before.Some? then before else TroubleOf(states[n], r, TermsOf(r.limits, ceiling), steps[n])
  {
    var s, step, terms := states[n], steps[n], TermsOf(r.limits, ceiling);
    RunStep(steps, states, r, terms, n);
    if step.Answer? {
      AnswersAreSettled(steps, states, r, ceiling, n);
    } else if step.Begin? && terms.tokens > step.inputReserve {
      RefusedOnlyForTimeOrCalls(steps, states, r, ceiling, n);
    }
    hide Run, TermsOf, Refusal, CommitError;
  }

  /** In every run the dimension reported is that of the first trouble, and there is none exactly without trouble. */
  lemma {:induction false} TruncatedForTheFirstTrouble(steps: seq<Step>, states: seq<State>, r: Request, ceiling: real,
                                                       n: nat)
    requires LegalRequest(r, ceiling) && Run(steps, states, r, TermsOf(r.limits, ceiling)) && n < |states|
    ensures var terms := TermsOf(r.limits, ceiling);
            && (states[n].books.truncated.None? <==>
                  forall i :: 0 <= i < n ==> TroubleOf(states[i], r, terms, steps[i]).None?)
            && forall i :: 0 <= i < n && TroubleOf(states[i], r, terms, steps[i]).Some?
                           && (forall j :: 0 <= j < i ==> TroubleOf(states[j], r, terms, steps[j]).None?) ==>
                 states[n].books.truncated == TroubleOf(states[i], r, terms, steps[i])
  {
    hide TermsOf, TroubleOf, Enabled, Next;
    if n > 0 {
      TruncatedForTheFirstTrouble(steps, states, r, ceiling, n - 1);
      StepTruncates(steps, states, r, ceiling, n - 1);
    }
  }

  /** A worker holding the reservation `id`, or already charged for it. */
  ghost predicate Bound(p: Phase, id: Id) {
    match p
    case Idle => false
    case Done(charged) => charged
    case _ => p.id == id
  }

  lemma StepKeepsBound(s: State, r: Request, terms: Terms, step: Step, w: nat, id: Id)
    requires Enabled(s, step) && w < |s.phases| && Bound(s.phases[w], id)
    ensures w < |Next(s, r, terms, step).phases| && Bound(Next(s, r, terms, step).phases[w], id)
  {
    hide ReserveResult, AfterReserve, AfterCommit, BooksAfterAbort;
  }

  /** A worker that was granted a reservation has been charged by the time it is done. */
  lemma {:induction false} GrantedWorkersAreCharged(steps: seq<Step>, states: seq<State>, r: Request, terms: Terms,
                                                    i: nat, n: nat)
    requires Run(steps, states, r, terms) && i < n < |states|
    requires steps[i].Begin? && terms.tokens > steps[i].inputReserve && Grant(states[i], r, terms, steps[i]).Success?
    ensures steps[i].worker < |states[n].phases| && Bound(states[n].phases[steps[i].worker], steps[i].id)
  {
    if n > i + 1 {
      GrantedWorkersAreCharged(steps, states, r, terms, i, n - 1);
      hide Next, Enabled;
      StepKeepsBound(states[n - 1], r, terms, steps[n - 1], steps[i].worker, steps[i].id);
    }
  }
}

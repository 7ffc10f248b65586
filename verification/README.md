# AetherDash core, modelled and proved in Dafny

AetherDash is a trading terminal. This project models the parts of it where a wrong step costs money
or loses data, in the form the source has them (loops as loops, stateful objects as classes, pure
components as functions), and proves what those parts are for. `dafny verify dfyconfig.toml` checks
everything.

| modules | component | main results |
|---|---|---|
| `Book`, `FillModel`, `FillTheorems` | order books and the book walk | price discipline, conservation, greedy optimality, exact refusals |
| `MarketImpact`, `Edge` | cost of market orders, edge decomposition | splitting an order costs nothing, the average price only worsens, slippage is monotone, a larger order never looks better, what every component is worth and exactly when it panics |
| `Breaker`, `BreakerRuns`, `Retry` | circuit breaker, guarded producer, retries | exact rolling window, justified openings and the exact opening rule, exactly how each state is left whatever outcomes arrive late, probe discipline |
| `Ledger`, `Swarm` | budget ledger and the workers that use it | nothing is overspent, conservation, refusals only for time or calls in every interleaving, the truncation reported is the first trouble |
| `Scheduler`, `Fleet` | ingestion scheduler as interleaved steps | no item before a cursor is ever skipped, restarts included; exact in-flight set, no full-queue failure, exactly when a failure is recorded, failures counted since the last success |
| `Audit`, `AuditTheorems` | hash-linked audit chain | the head hash pins the history, exactly when the preimage is ambiguous, what incremental checks miss |
| `CanonicalJson`, `CanonicalJsonTheorems` | canonical key order | one representative per equivalence class, both directions |
| `JsonText`, `SwarmStream`, `SwarmStreamTheorems` | NDJSON stream of a swarm | chunking never matters, exactly-one-packet contract, round trip from emitter to reader |
| `Consumer`, `ConsumerTheorems` | Kafka consumer with deferred offsets | at-least-once over all runs, finished messages never come again, exactly when a consumer may be called again after a failed or dropped call, any number of times |
| `Rolling`, `Alerts`, `Approvals` | rolling-window limiters | bounds on every window of a run, exactly when each limiter and the duplicate check refuse, exactly when an approval is accepted |
| `Backtest` | threshold backtester | accumulators equal the sums over the round trips, greedy trips, rounding bounds, exact overflow condition |

`Wrappers` and `Powers` hold `Option`, `Result` and powers of two.

## How the source is read

- A `Decimal` is an exact real. Leaving its representable range is the explicit overflow outcome of the
  checked operations of the book walk and the panic outcome of the unchecked ones of the slippage
  estimate and the decomposition.
- Clocks are explicit arguments, two readings where the code reads twice. Whole runs are sequences of
  events with nondecreasing readings.
- Code between two suspension points is one step. The ledger and the approval store suspend nowhere
  inside their locks, so each of their operations is atomic. The scheduler is cut at every `await`, and
  cancellation or failure may strike at each of them, and the process may restart with only its state
  store and delivered items kept; the swarm's workers interleave freely, which
  includes the two waves of the orchestrator.
- SHA-256 is an arbitrary function; where a result needs it not to collide, the hypothesis names the
  texts of the two chains compared and nothing else.
- Identifiers and approval references drawn at random are fresh. Retry jitter is any value in range.
- Ingestion cursors are positions in a source's log and an adapter returns the consecutive slice that
  starts at the cursor it is given.
- The client's `JSON.parse` is a parameter that must invert the serialiser on the records emitted.
  `JsonText.Loads`, a reader of the compact text the server writes, is proved to do so. It is not a
  general JSON reader: it takes no white space and checks numbers only for their characters.

## Where the code does not do what is said about it

In each case the model follows the code.

- `walk.rs` says bids serve buys and asks serve sells; the code walks asks for buys and bids for sells.
- `FillError::InsufficientDepth` is constructed but can never be returned (`FillTheorems.WalkRefusals`).
- "5 consecutive failures in a 30-second window" does not always open the breaker, because the failure
  window is fixed to its first failure (`BreakerRuns.StreakRuleFails`). `BreakerRuns.OpensExactlyWhen`
  is the exact rule.
- A half-open breaker whose probe never reports an outcome refuses requests for ever. A run from a
  fresh breaker gets there (`BreakerRuns.ProbeCanBeLost`), and the state lasts exactly until the next
  outcome (`BreakerRuns.OutcomeReleasesHalfOpen`).
- The one-token floor on a swarm's allowance is more than a share exactly when there are fewer tokens
  than calls (`Swarm.TokenAllowanceIsLargestShare`). With empty prompts, workers that take the floor one
  after the other would then be refused for tokens exactly when there are fewer tokens than workers
  (`Swarm.EmptyPromptWouldBeRefusedOnTokens`); a prompt has at least two bytes, so it is safe.
- Backoff is capped at an hour, so a source polled less often than hourly is retried sooner after a
  failure than after a success. From 1024 consecutive failures on it does not exist: converting the
  power of two to a float raises an error inside the exception handler, and the error ends the poll or
  the worker's job (`Fleet.FailureCanGoUnrecorded` is a run that gets there).
- A failed fetch or job is not always recorded. Its handler can be cancelled at its own awaits, as by the
  half-second limit on a job (`Fleet.CancelledFailureGoesUnrecorded`), or end in the overflow above;
  `Fleet.FailureIsRecordedExactlyWhen` is the exact rule.
- `payload_hash` is not part of the hashed preimage, and `verify_incremental` recomputes no hash and
  ignores the anchor's hash (`AuditTheorems.PayloadHashesAreUnprotected`, `IncrementalMissesRewrites`).
  Events cut off the end are noticed by neither check (`IncrementalMissesTruncation`).
- An alert refused by the rate limit has already been marked as seen and is dropped for an hour
  (`Alerts.LimitedAlertIsLost` is a run in which a new alert would have been admitted in its place).
  `Alerts.DuplicateExactlyWhen` is the exact rule.
- A consumer whose `process` failed keeps the failed message's offset pending. Calling it again without
  a restart loses that message (`ConsumerTheorems.ContinuingAfterAFailedProcessLoses`), and so it does
  when the caller drops the call while `process` or a quarantine is pending. After other failures it may
  be called again any number of times. `ConsumerTheorems.CallingAgainLosesExactly` is the exact rule for
  every moment a call can fail or be dropped, and `ConsumerTheorems.AtLeastOnce` says that a run which
  keeps to it loses nothing.

## Model

| member | source | states |
|---|---|---|
| Book.NewBook | crates/aether-core/src/quote.rs:70-89 | checking adjacent pairs accepts a book exactly when both sides are strictly ordered over all pairs; a bad bid side is reported before a bad ask side |
| FillModel.WalkVisible | crates/aether-fillmodel/src/walk.rs:85-155 | the greedy loop computes the recursive walk: limit stop, passive stop after one fill, bad levels, overflow at each checked operation |
| FillModel.FillPastDepth | crates/aether-fillmodel/src/walk.rs:157-218 | what is left after the visible depth becomes one fill at the multiplied (buy) or divided (sell) last price, or a limit violation, or an overflow |
| FillModel.WalkBook | crates/aether-fillmodel/src/walk.rs:57-232 | the whole walk with every refusal in the source's order equals the specification the theorems below are about |
| FillTheorems.WalkDiscipline | crates/aether-fillmodel/src/walk.rs:85-232 | buys take asks and sells take bids, fills never exceed the request, every fill including the extrapolated one is at most the limit of a buy and at least that of a sell and carries the exact fee, prices only worsen, every level before the last touched is consumed entirely, and a CrossToDepth order falls short only if its next price violates the limit |
| FillTheorems.WalkRefusals | crates/aether-fillmodel/src/walk.rs:219-229 | a limit violation is returned exactly when the best level of a valid order is above the limit of a buy or below that of a sell, with both prices; InsufficientDepth is never returned |
| FillTheorems.EarlyRefusals | crates/aether-fillmodel/src/walk.rs:57-109 | the refusals before any fill and their order (multiplier, fee rate, currency, market, size, liquidity), a bad best level, and a limit order without a limit exactly when the best level is good |
| FillTheorems.DefaultBuys | crates/aether-fillmodel/src/walk.rs:57-232 | three units bought in a book of two asks at the default configuration: both asks, then 1.05 times the last, or nothing more under a limit of 104 |
| FillTheorems.DefaultSells | crates/aether-fillmodel/src/walk.rs:57-232 | three units sold into two bids: both bids, then the last divided by 1.05, or nothing more under a limit of 97 |
| FillTheorems.GreedyOptimal | crates/aether-fillmodel/src/walk.rs:89-155 | no other allocation of the same visible quantity over the levels is cheaper to buy or better paid to sell |
| MarketImpact.CrossingWalk | crates/aether-fillmodel/src/walk.rs:85-218 | a crossing market order succeeds if and only if it meets only positive levels and representable numbers, and then trades its whole size at the independently defined market cost |
| MarketImpact.SplitOrder | crates/aether-fillmodel/src/walk.rs:85-218 | compositionality: an order of s1+s2 has the total notional and fee of s1 followed by s2 on the residual book, which is itself a valid book; levels that the order does not reach may be anything |
| MarketImpact.ResidualBelowDepth | crates/aether-fillmodel/src/walk.rs:89-155 | an order leaves a level for the next one if and only if it is below the total visible depth |
| MarketImpact.AverageWorsens | crates/aether-fillmodel/src/walk.rs:89-218 | for every ordered book, a smaller order succeeds whenever a larger one does, and its average price is no worse, within and past the visible depth |
| Edge.SlippageMonotone | crates/aether-decompose/src/components.rs:43-86 | slippage is nonnegative and nondecreasing in size on both sides, including past the depth and for books with bad levels the order does not reach, and being able to estimate a size makes every smaller one estimable |
| Edge.SlippageIsWorth | crates/aether-decompose/src/components.rs:43-86 | on any ordered book the estimate is the distance of the average fill price from the best ask of a buy or the best bid of a sell, as a fraction of that price |
| Edge.LargerNeverBetter | crates/aether-decompose/src/decompose.rs:37-54 | replacing the slippage by that of a larger order never yields a higher net edge |
| Edge.SumLawHolds | crates/aether-decompose/src/decompose.rs:119-147 | a decomposition in which no operation panics obeys the sum law, replacing the slippage (a negative one by zero) re-establishes it even on an unbalanced record, touches nothing else, and the last replacement wins |
| Edge.DecompositionIsExact | crates/aether-decompose/src/decompose.rs:119-147 | in the order of the source's operations, unless a result or partial sum leaves the representable range and panics, every component and the net edge have their exact values |
| Edge.PanicsExactlyWhen | crates/aether-decompose/src/decompose.rs:119-147 | a decomposition panics if and only if a component, a partial sum of the costs from the left or the net edge leaves the range of 96-bit decimals |
| Edge.ComponentsAreWorth | crates/aether-decompose/src/components.rs:15-139 | what each component of a decomposition is worth in terms of the inputs: two legs of the fee rate up to all of the notional, a daily funding rate, gwei, the bridge fee across chains, half a percent per depth beyond the depth, one percent at twice the age limit, gross times k for what confidence lacks |
| Edge.CostsNeverHelp | crates/aether-decompose/src/decompose.rs:119-147 | with rates and amounts that are costs, the net edge of a decomposition that does not panic is at most the gross spread |
| Edge.GrossSpreadDirection | crates/aether-decompose/src/components.rs:15-34 | a probability gap counts only when selling beats buying, a currency gap is symmetric and relative to the mid price |
| Edge.HaircutIsMonotone | crates/aether-decompose/src/components.rs:113-123 | zero exactly up to the depth, never falling with size |
| Edge.StalenessIsMonotone | crates/aether-decompose/src/components.rs:126-133 | zero exactly up to the limit, never falling with age, capped at one percent from twice the limit on |
| Edge.ConfidenceLowersPenalty | crates/aether-decompose/src/components.rs:136-139 | never rises with confidence, nothing at full confidence, gross times k at none |
| Breaker.CircuitBreaker.constructor | crates/aether-bus/src/retry.rs:90-99 | a fresh breaker is closed with an empty window |
| Breaker.CircuitBreaker.PushOutcome | crates/aether-bus/src/retry.rs:172-179 | trimming from the front and appending, for any prior contents |
| Breaker.CircuitBreaker.ErrorRate | crates/aether-bus/src/retry.rs:184-192 | counts errors over the window; needs five entries and a strict majority |
| Breaker.CircuitBreaker.Success | crates/aether-bus/src/retry.rs:108-126 | the whole new state in each of the three states |
| Breaker.CircuitBreaker.Failure | crates/aether-bus/src/retry.rs:132-169 | the whole new state, with the two clock readings kept apart |
| Breaker.CircuitBreaker.AllowRequest | crates/aether-bus/src/retry.rs:196-221 | the answer and the single probe it may hand out |
| Breaker.BreakerProducer.BeginSend | crates/aether-bus/src/producer.rs:213-223 | a missing partition key is refused without touching the breaker; otherwise the breaker decides |
| Breaker.BreakerProducer.EndSend | crates/aether-bus/src/producer.rs:225-237 | every completed send records its outcome, whatever happened to the breaker meanwhile |
| BreakerRuns.WindowIsExact | crates/aether-bus/src/retry.rs:172-179 | after each record of any run the window is exactly the run's outcomes of the last 30 seconds |
| BreakerRuns.OpeningIsJustified | crates/aether-bus/src/retry.rs:132-192 | Closed turns Open only at a failure, and then the last five outcomes failed within 30 seconds or at least five outcomes in the window fail by strict majority |
| BreakerRuns.OpensExactlyWhen | crates/aether-bus/src/retry.rs:145-168 | in any run, a failure opens a closed breaker if and only if, over the outcomes of the run, a strict majority of the last 30 seconds failed or it is at least the fifth failure since the last success in a window fixed to its first failure |
| BreakerRuns.CountersFollowOutcomes | crates/aether-bus/src/retry.rs:108-157 | the failure count and window start of a closed breaker are a function of the run's outcomes alone |
| BreakerRuns.StreakRuleFails | crates/aether-bus/src/retry.rs:129-157 | a run whose last five outcomes failed within 30 seconds and whose breaker is still closed |
| BreakerRuns.ProbeDiscipline | crates/aether-bus/src/retry.rs:108-221 | from an opening until the next Closed, the first admission is at least 15 s later and admissions are at least 15 s apart, in whatever order earlier outcomes arrive |
| BreakerRuns.MovesExactly | crates/aether-bus/src/retry.rs:108-221 | every move of a breaker in every run: Closed is left at a failure only, Open only by a request 15 s or more after the opening, half-open by the next outcome, and exactly which requests pass |
| BreakerRuns.OpenUntilAsked | crates/aether-bus/src/retry.rs:119-210 | however many late outcomes arrive, an open breaker stays open with the same opening time and admits nothing until a request comes 15 s after the opening |
| BreakerRuns.LostProbeBlocksForever | crates/aether-bus/src/retry.rs:194-221 | a half-open breaker that hears no outcome keeps its state and admits nothing for the rest of the run |
| BreakerRuns.OutcomeReleasesHalfOpen | crates/aether-bus/src/retry.rs:108-221 | after any requests a half-open breaker stays half-open if and only if the next event is no outcome; a success admits again at once, a failure exactly from 15 s on |
| BreakerRuns.ProbeCanBeLost | crates/aether-bus/src/retry.rs:132-221 | a run from a fresh breaker (five failures, 15 s, one request) after which no request is admitted as long as no outcome comes |
| Retry.SendWithRetry | crates/aether-bus/src/retry.rs:243-288 | stops at the first success or final error, reports exhaustion only after the last transient failure, and waits exactly the delays drawn between sends |
| Retry.DelayCapGrows | crates/aether-bus/src/retry.rs:35-45 | the delay cap never falls from one attempt to the next and never passes the maximum |
| Retry.DelayCapDoubles | crates/aether-bus/src/retry.rs:33-36 | the first cap is the base delay, each of the next thirty-one doubles it, and the maximum cuts it off |
| Retry.WaitsBounded | crates/aether-bus/src/retry.rs:258-262 | total waiting is at most the number of waits times the maximum delay |
| Retry.WaitsAddUp | crates/aether-bus/src/retry.rs:258-262 | the waiting counted is the sum of the waits |
| Ledger.BudgetLedger.constructor | server/swarm/budget.py:45-59 | a new ledger has used and reserved nothing |
| Ledger.BudgetLedger.SumReserved | server/swarm/budget.py:71-74 | the loop over open reservations computes their total whatever the iteration order |
| Ledger.BudgetLedger.Reserve | server/swarm/budget.py:67-89 | grants or refuses on the first exceeded dimension in the ledger's order, and the whole new state |
| Ledger.BudgetLedger.Commit | server/swarm/budget.py:91-118 | charges actual usage, or on provider overage closes the reservation, charges it capped and fails |
| Ledger.BudgetLedger.Cancel | server/swarm/budget.py:120-122 | withdraws a reservation without charge |
| Ledger.BudgetLedger.AbortCall | server/swarm/budget.py:124-129 | charges one call for an open reservation and nothing for a closed one |
| Ledger.BudgetLedger.MarkTruncated | server/swarm/budget.py:131-133 | keeps an earlier truncation |
| Ledger.BudgetLedger.AssertWithinLimits | server/swarm/budget.py:144-151 | raises exactly when some budget is overspent, naming the first one |
| Ledger.NeverOverspent | server/swarm/budget.py:67-151 | after any operations in any order, used plus reserved stays inside every limit |
| Ledger.GrantsAreConserved | server/swarm/budget.py:67-129 | every granted reservation is open, withdrawn, or charged as exactly one call, abort after a failed commit included |
| Ledger.SpendingIsConserved | server/swarm/budget.py:67-129 | tokens and dollars granted equal those spent, still held and returned |
| Ledger.FirstTruncationWins | server/swarm/budget.py:84-86 | the truncation reported at the end is the first one |
| Ledger.CommitSettles | server/swarm/budget.py:91-118 | in any run a commit without error charges one call and exactly the tokens and cost reported, one above its reservation fails, charges what was reserved of it and is recorded as overage, and a negative or homeless one changes nothing |
| Ledger.GrantedExactlyWhen | server/swarm/budget.py:67-89 | in any run a request is granted if and only if time is left and each budget holds it beside what is used and reserved |
| Ledger.TruncationIsFirstTrouble | server/swarm/budget.py:75-133 | in any run the truncation recorded is the first budget a request exceeded (in the order seconds, calls, tokens, cost), the first overage or the first mark, whichever came first, and there is none exactly without any |
| Swarm.TokenAllowanceIsLargestShare | server/swarm/orchestrator.py:82-83 | the allowance is the largest t that is one or that every call may spend, and all calls can afford it if and only if there are at least as many tokens as calls |
| Swarm.EffectiveAllowanceIsLargest | server/swarm/worker.py:115-116 | the effective allowance is the most tokens that both allowances pay for |
| Swarm.TermsAreTheLargest | server/swarm/worker.py:115-124 | a worker asks for the most tokens that every call could ask for within the cost limit and, above the floor of one, within the token limit, each at the ceiling price |
| Swarm.RefusedOnlyForTimeOrCalls | server/swarm/worker.py:112-124 | in every interleaving a worker that reaches the ledger is refused exactly for elapsed time or for calls, never for tokens or cost |
| Swarm.EmptyPromptWouldBeRefusedOnTokens | server/swarm/orchestrator.py:82-83 | over ledger operations, for all limits with fewer tokens than calls and a price a worker can pay: of workers with empty prompts that take and spend the one-token floor in turn, one is refused for tokens if and only if there are fewer tokens than workers; a two-byte prompt never reaches the ledger |
| Swarm.FinishedSwarmIsBalanced | server/swarm/orchestrator.py:134-146 | no budget is overspent at any moment, and when all workers are done nothing is reserved and the calls charged are the workers that were granted one |
| Swarm.GrantedWorkersAreCharged | server/swarm/worker.py:121-146 | from its grant on, a worker holds its reservation or has been charged for it, through failures, cancellation and abort after a failed commit |
| Swarm.AnswersAreSettled | server/swarm/worker.py:134-146 | in every interleaving a report within the worker's terms is charged exactly and finishes it, one above them charges the terms at most and is recorded as overage, and a negative one leaves the books to the abort |
| Swarm.TruncatedForTheFirstTrouble | server/swarm/orchestrator.py:106-143 | in every interleaving the dimension reported is that of the first trouble: a prompt without room, a refusal for time or calls, usage above the terms, a failed accounting, the deadline |
| Scheduler.MemoryStateStore.constructor | server/ingest/state.py:34-36 | an empty store |
| Scheduler.MemoryStateStore.Register | server/ingest/state.py:38-42 | known sources keep their state, new ones start without a cursor |
| Scheduler.MemoryStateStore.MarkSuccess | server/ingest/state.py:47-55 | moves the cursor and clears the failures of one source only |
| Scheduler.MemoryStateStore.MarkFailure | server/ingest/state.py:57-64 | counts a failure and leaves the cursor where it was |
| Scheduler.MemoryStateStore.RecordDowngrade | server/ingest/state.py:66-67 | appends the decision |
| Scheduler.FleetScheduler.constructor | server/ingest/scheduler.py:43-59 | nothing queued, nothing in flight |
| Scheduler.FleetScheduler.Register | server/ingest/scheduler.py:61-82 | an adapter of another rung is accepted only with a matching downgrade to lower compliance, which is recorded |
| Scheduler.Scan | server/ingest/scheduler.py:88-92 | the next candidate is the first source not in flight while the queue has room, and none only if there is none |
| Scheduler.FleetScheduler.NextCandidate | server/ingest/scheduler.py:88-92 | the polling loop up to its next suspension finds that candidate |
| Scheduler.FleetScheduler.Enqueue | server/ingest/scheduler.py:111-113 | queueing and marking in flight happen together, or the queue was full |
| Scheduler.FleetScheduler.Take | server/ingest/scheduler.py:117-117 | first in, first out; the source stays in flight |
| Scheduler.FleetScheduler.Release | server/ingest/scheduler.py:149-151 | only the job's own source leaves the in-flight set |
| Scheduler.BackoffBounds | server/ingest/scheduler.py:102-109 | backoff exists if and only if there are fewer than 1024 failures; then it is positive, never falls as failures add up, is at most an hour, and is at least the interval if and only if the interval is at most an hour |
| Scheduler.BackoffDoubles | server/ingest/scheduler.py:103-106 | the first wait is the interval, and each further failure doubles it up to an hour |
| Fleet.IngestionNeverSkips | server/ingest/scheduler.py:84-158 | in every interleaving with failure and cancellation at any await and restarts at any moment, every item before a stored cursor was accepted by the store; an item naming another source is never passed |
| Fleet.NothingIsInvented | server/ingest/scheduler.py:119-133 | in every interleaving everything accepted by the store is the log's item of its source at its position |
| Fleet.CursorsOnlyAdvance | server/ingest/scheduler.py:116-151 | a cursor moves only at the success mark of its source's job, forward by exactly that job's items |
| Fleet.CapacityIsRespected | server/ingest/scheduler.py:86-151 | the in-flight set equals the sources queued or processed, one job per source, and the put after a fetch always finds room |
| Fleet.JobsRunInOrder | server/ingest/scheduler.py:111-117 | in every interleaving the batches queued since the last restart are those taken by workers, in order, followed by those still queued |
| Fleet.FetchesOnlyWhenDue | server/ingest/scheduler.py:88-101 | no step but the state store's answer starts a fetch, and then only for an enabled, due source that is not disabled and not in flight, from its stored cursor |
| Fleet.PollGoesOn | server/ingest/scheduler.py:88-114 | in every interleaving a poll that is done with one source asks for the first of the others that is not in flight, and rests only when the queue is full or all of them are |
| Fleet.FetchesExactlyWhenDue | server/ingest/scheduler.py:91-101 | with the state at hand, a fetch starts if and only if its source is enabled, not disabled and due, and then with that state and for a source not in flight |
| Fleet.SnapshotIsCurrent | server/ingest/scheduler.py:94-109 | while a fetch is pending or its failure is handled, the state read before it is still what the store holds |
| Fleet.FailureIsRecordedExactlyWhen | server/ingest/scheduler.py:102-158 | whatever ends the handling of a failed fetch or job, the failure is recorded, for its source alone, if and only if the handler reaches its end with fewer than 1024 recorded; cancellation, a poll broken off, a restart and the overflow leave the store as it was |
| Fleet.FailuresAreAStreak | server/ingest/state.py:47-64 | in every run the failure count of a source is the number of failures recorded since its last success mark |
| Fleet.StoreFollowsSteps | server/ingest/scheduler.py:100-148 | the whole stored state of a source after any step of any run: a success stores the job's cursor, health and the next run one interval later, a failure its error and the next run after an interval doubled for each failure of the streak, up to an hour; nothing else changes it |
| Fleet.FailuresStayBounded | server/ingest/scheduler.py:102-147 | no run records more than 1024 failures in a row |
| Fleet.FailureCanGoUnrecorded | server/ingest/scheduler.py:102-110 | a run of 1024 recorded failures whose next handler reaches its end and stores nothing |
| Fleet.CancelledFailureGoesUnrecorded | server/ingest/scheduler.py:139-158 | for any enabled source whose first item names another one, a run in which the job's failure is cancelled in its handler and nothing is stored |
| Audit.AuditChain.constructor | crates/aether-audit/src/chain.rs:62-77 | a chain of one correctly hashed genesis event |
| Audit.AuditChain.Append | crates/aether-audit/src/chain.rs:80-107 | extends a verified chain to a verified chain by exactly the described event, or refuses when sealed |
| Audit.AuditChain.Verify | crates/aether-audit/src/chain.rs:110-126 | accepts exactly the linked chains and otherwise reports the first broken link |
| Audit.VerifyFull | crates/aether-audit/src/verifier.rs:28-37 | succeeds exactly on linked chains and reports what was covered, or the first broken link |
| Audit.VerifyIncremental | crates/aether-audit/src/verifier.rs:40-76 | succeeds exactly when the links after the last anchor hold without their hashes; otherwise the first broken one is reported; no anchor is an error |
| AuditTheorems.PreimageSplits | crates/aether-audit/src/chain.rs:141-151 | equal preimages have equal seq, previous hash and timestamp, and the same text of words |
| AuditTheorems.LinksMean | crates/aether-audit/src/chain.rs:110-157 | a link holds if and only if number, previous hash and the hash of the joined fields match, and which error a broken one gives |
| AuditTheorems.DecimalReadsBack | crates/aether-audit/src/chain.rs:141-151 | the text of a number is its decimal notation without leading zeros |
| AuditTheorems.HexReadsBack | crates/aether-audit/src/chain.rs:141-151 | the text of a hash holds two hexadecimal digits for each byte, the higher first |
| AuditTheorems.PreimageInjective | crates/aether-audit/src/chain.rs:141-157 | with no bar in actor or action the preimage determines all six hashed fields |
| AuditTheorems.AmbiguousExactlyWithBars | crates/aether-audit/src/chain.rs:141-151 | another event shares the preimage if and only if a bar occurs in actor, action or subject |
| AuditTheorems.HeadPinsHistory | crates/aether-audit/src/chain.rs:110-157 | two verified lists of equal length and last hash agree on every hashed field of every non-genesis event |
| AuditTheorems.HeadPinsWholeChain | crates/aether-audit/src/chain.rs:62-157 | for chains built by appending, the head hash alone fixes the length and everything hashed |
| AuditTheorems.PayloadHashesAreUnprotected | crates/aether-audit/src/chain.rs:141-157 | replacing any payload hash leaves verification unchanged |
| AuditTheorems.IncrementalAgainstFull | crates/aether-audit/src/verifier.rs:39-76 | full verification is incremental verification plus the older links plus every newer hash |
| AuditTheorems.IncrementalMissesRewrites | crates/aether-audit/src/verifier.rs:55-68 | a rewritten subject after the anchor passes the incremental check and fails the full one |
| AuditTheorems.IncrementalMissesTruncation | crates/aether-audit/src/verifier.rs:28-76 | a linked chain cut at any point passes both checks, and any chain cut back to its anchor or before passes the incremental one |
| CanonicalJson.SortJsonKeys | crates/aether-core/src/json.rs:34-56 | the collect, sort, clear and reinsert loop computes the recursive normal form |
| CanonicalJson.NewJsonObject | crates/aether-core/src/json.rs:9-16 | objects are normalised, everything else is refused |
| CanonicalJsonTheorems.CanonicalFormIsUnique | crates/aether-core/src/json.rs:32-56 | two values have the same normal form if and only if they are equal up to key order at every depth |
| CanonicalJsonTheorems.NormaliseIsEquivalent | crates/aether-core/src/json.rs:32-56 | normalising reorders keys and nothing else, and keeps keys distinct |
| CanonicalJsonTheorems.NormaliseIsIdempotent | crates/aether-core/src/json.rs:32-56 | normalising twice is normalising once |
| CanonicalJsonTheorems.LookupsArePreserved | crates/aether-core/src/json.rs:32-56 | every key answers with its normalised value, missing keys stay missing, array positions stay |
| CanonicalJsonTheorems.LessMeans | crates/aether-core/src/json.rs:45-45 | keys compare by dictionary order: a proper prefix or a smaller character at the first difference |
| CanonicalJsonTheorems.NormalisedKeysAscend | crates/aether-core/src/json.rs:32-56 | in a normalised value the keys of every object at every depth ascend in that order |
| JsonText.JsonRoundTrip | server/mcp/app.py:327-327 | every value survives being written as compact text and read by the project's reader of that text, strings outside the basic plane included |
| JsonText.DumpsPrintable | server/mcp/app.py:327-327 | written records hold printable ASCII only, so no raw newline |
| JsonText.EscapesMean | server/mcp/app.py:327-327 | how every character is written: seven by a letter, printable ASCII as it is, the rest as the UTF-16 code units it stands for |
| JsonText.ValuesAreCompact | server/mcp/app.py:327-327 | the words, the quotes and the empty brackets, and a text as its characters in order |
| JsonText.ArraysAreCompact | server/mcp/app.py:327-327 | an array is its items in order with a comma and no white space between them |
| JsonText.ObjectsAreCompact | server/mcp/app.py:327-327 | an object is its entries in order, a colon in each and a comma between them, without white space |
| SwarmStream.RunSwarm | server/mcp/app.py:295-322 | the task puts every progress record in order, then exactly one terminal record (packet, no evidence, internal error), none only if cancelled, and always the sentinel last |
| SwarmStream.StreamSwarm | server/mcp/app.py:287-332 | for every schedule of the two tasks the body has yielded exactly the records taken so far, whole and in order, and it finishes exactly when the sentinel is taken |
| SwarmStream.StreamFinishes | server/mcp/app.py:321-327 | once everything has been put, enough turns of the body take all of it, the sentinel included |
| SwarmStream.ConsumeLines | client/src/lib/mcp.ts:121-150 | lines are consumed in order and an exception leaves the rest unread |
| SwarmStream.LaunchSwarm | client/src/lib/mcp.ts:114-158 | every chunking of a text gives the outcome of splitting the whole text by newline |
| SwarmStreamTheorems.SucceedsExactlyWhen | client/src/lib/mcp.ts:121-157 | success if and only if every line is blank, progress or packet and there is exactly one packet, a proposal; then packet and events are returned in order |
| SwarmStreamTheorems.RejectedByFirstLine | client/src/lib/mcp.ts:121-157 | the first line that cannot be taken decides the rejection, by its own error or as a duplicate packet, after the events of the lines before it |
| SwarmStreamTheorems.LineMeans | client/src/lib/mcp.ts:121-143 | for every record, exactly when a line is progress or packet and with which value, when it is a server error and with which message, and when it is invalid |
| SwarmStreamTheorems.LineWithoutRecord | client/src/lib/mcp.ts:121-123 | a line is skipped if and only if it is white space, and is a syntax error if and only if anything else cannot be parsed |
| SwarmStreamTheorems.SplitIsUnjoin | client/src/lib/mcp.ts:148-149 | splitting cuts a text at every newline and nowhere else |
| SwarmStreamTheorems.StreamRoundTrip | client/src/lib/mcp.ts:114-158 | for every chunking of what the server emits the client reports the emitted events and the emitted packet or error, and succeeds exactly on a proposal packet |
| SwarmStreamTheorems.ReferenceRoundTrip | server/mcp/app.py:287-332 | the same with the reference reader and no hypothesis about parsing |
| Consumer.KafkaConsumer.constructor | crates/aether-bus/src/consumer.rs:88-109 | a new consumer starts at the committed offsets with nothing pending |
| Consumer.KafkaConsumer.CommitSync | crates/aether-bus/src/consumer.rs:131-135 | commits what is stored; a reported failure may or may not have been applied |
| Consumer.KafkaConsumer.Acknowledge | crates/aether-bus/src/consumer.rs:146-175 | stores pending offsets up to the first failure and clears them only when all are stored |
| Consumer.KafkaConsumer.Consume | crates/aether-bus/src/consumer.rs:203-276 | for every script of polls, exactly which calls are made in which order and what is returned; they are a path of the state machine, yield at most one envelope and stop at the first failed quarantine |
| Consumer.KafkaConsumer.HandleMalformed | crates/aether-bus/src/consumer.rs:232-261 | quarantine, then store, then commit, stopping at the first failure with that failure's error |
| Consumer.KafkaConsumer.HandleValid | crates/aether-bus/src/consumer.rs:376-386 | process, acknowledge everything pending, commit, stopping at the first failure; a failed process leaves its offset pending |
| Consumer.KafkaConsumer.ProcessAndCommit | crates/aether-bus/src/consumer.rs:365-389 | exactly the calls process, ack, commit after a valid message, with the error each failure returns; the whole call is a path of the state machine that ends idle on success and failed on error |
| ConsumerTheorems.AtLeastOnce | crates/aether-bus/src/consumer.rs:203-389 | in every run that calls a consumer again only after harmless failures, and restarts it after others, no committed offset passes a message neither processed nor quarantined |
| ConsumerTheorems.RestartingIsCareful | crates/aether-bus/src/consumer.rs:365-389 | a run that restarts after every failed or dropped call is such a run |
| ConsumerTheorems.RestartRedelivers | crates/aether-bus/src/consumer.rs:365-389 | in such a run, after a restart every incomplete message is still ahead |
| ConsumerTheorems.FinishedIsNotRepeated | crates/aether-bus/src/consumer.rs:232-386 | in any run, careful or not, a message processed or quarantined to the end moves the committed offset of its partition to exactly one past it, and no restart delivers it again |
| ConsumerTheorems.ErrorsNameTheCall | crates/aether-bus/src/consumer.rs:240-386 | the error returned is that of the last call made, and without an error the message in hand was finished |
| ConsumerTheorems.ConsumeReturns | crates/aether-bus/src/consumer.rs:203-276 | receive errors, timeouts and quarantined messages never end a call; the first valid message or failed quarantine decides what it returns |
| ConsumerTheorems.CallingAgainLosesExactly | crates/aether-bus/src/consumer.rs:365-389 | after any such run, however often it called again: a call that fails, or is dropped at one of its awaits, leaves a consumer that can lose a message by being called again if and only if `process` was left undone on an incomplete message and something is still to come, or quarantine was and something is still to come from that partition |
| ConsumerTheorems.ContinuingAfterAFailedProcessLoses | crates/aether-bus/src/consumer.rs:376-386 | a concrete run in which the next successful call commits past the failed message |
| Alerts.AlertRules.constructor | server/alerts/rules.py:11-16 | nothing seen, no limiter |
| Alerts.AlertRules.PruneDedup | server/alerts/rules.py:68-75 | exactly the marks older than an hour go, from the set and from the map |
| Alerts.AlertRules.CheckDedup | server/alerts/rules.py:54-65 | duplicate exactly if still marked after pruning; otherwise marks it |
| Alerts.AlertRules.CheckRateLimit | server/alerts/rules.py:78-92 | purges the front, refuses at the limit, otherwise records the admission |
| Alerts.AlertRules.TryAlert | server/alerts/rules.py:151-159 | one rule's duplicate check and rate check in turn, the state after them and the verdict |
| Alerts.AlertRules.Evaluate | server/alerts/rules.py:126-164 | the loop admits exactly the attempts that are neither duplicate nor limited, in order |
| Alerts.RateLimitHolds | server/alerts/rules.py:78-92 | with a limit that does not change, no closed 60-second window of any run holds more admitted alerts of the rule |
| Alerts.WindowRateHolds | server/alerts/rules.py:78-92 | without assuming a constant limit: no closed 60-second window of any run holds more admitted alerts of a rule than the limit in force at the last of them |
| Alerts.LimitedExactlyWhen | server/alerts/rules.py:78-92 | in any run, an alert that is no duplicate is refused if and only if its rule already admitted its limit in the minute that ends now |
| Alerts.AdmittedInOrder | server/alerts/rules.py:126-164 | the admitted keys come in the order of the attempts, each judged in the state the attempts before it left |
| Alerts.DuplicateExactlyWhen | server/alerts/rules.py:54-75 | in any run, an alert is a duplicate if and only if its key passed the duplicate check within the last hour, whether admitted or refused for its rate |
| Alerts.PassesAreAnHourApart | server/alerts/rules.py:54-75 | two dedup passes of one key are more than an hour apart |
| Alerts.LimitedAlertsAreNotRetried | server/alerts/rules.py:151-159 | an alert refused for its rate is a duplicate within the hour, and exactly within the hour if it did not pass in between |
| Alerts.LimitedAlertIsLost | server/alerts/rules.py:151-159 | a concrete run: refused for its rate, the same alert is a duplicate two minutes later, when a new one would be admitted |
| Approvals.MemoryApprovalStore.constructor | server/alerts/approvals.py:96-100 | no records, no attempts |
| Approvals.MemoryApprovalStore.Create | server/alerts/approvals.py:102-148 | refuses the fourth approval of an hour and a second live one, otherwise stores a pending record |
| Approvals.MemoryApprovalStore.Consume | server/alerts/approvals.py:150-195 | accepts exactly a pending, unexpired reference bound to actor and channel with an allowed decision, and logs one attempt either way |
| Approvals.MemoryApprovalStore.MarkFailed | server/alerts/approvals.py:197-202 | marks exactly one record with that identifier, or changes nothing if there is none |
| Approvals.IdentifiersStayDistinct | server/alerts/approvals.py:136-136 | when drawn identifiers are fresh, no two records of a run share one |
| Approvals.AcceptedAtMostOnce | server/alerts/approvals.py:150-202 | each reference is accepted at most once in a run |
| Approvals.AcceptedExactlyWhen | server/alerts/approvals.py:102-202 | in any run a use of a reference is accepted if and only if the reference was created in the run for this actor and channel, has not run out, nor been accepted or marked as failed, and the decision is a rejection or an approval that needs no step-up |
| Approvals.UseIsRecorded | server/alerts/approvals.py:167-195 | what a use does to the records of a run: an acceptance stores the decision and its time, an expired reference is marked for its owner, everything else stays |
| Approvals.AttemptTells | server/alerts/approvals.py:158-194 | the log entry of every use: the record, the decision or the first reason against it |
| Approvals.AcceptanceIsBound | server/alerts/approvals.py:102-195 | an accepted reference was created earlier in the run for that actor and channel, has not outlived its time, and needs no step-up if approved |
| Approvals.AtMostThreePerHour | server/alerts/approvals.py:111-122 | no half-open hour holds more than three approvals created for an actor |
| Approvals.RateLimitedExactlyWhen | server/alerts/approvals.py:111-122 | in any run, a creation is refused for its rate if and only if the actor had three approvals created in the last hour |
| Approvals.OneLiveApproval | server/alerts/approvals.py:123-133 | two references for the same actor, action and target are never acceptable at the same time |
| Approvals.DuplicateExactlyWhen | server/alerts/approvals.py:123-133 | in any run a creation that the rate allows is refused if and only if an approval for the same actor, action and target is outstanding |
| Backtest.ValidateStrategy | crates/aether-agents/src/backtest.rs:133-142 | accepts exactly the sound strategies |
| Backtest.CloseTrip | crates/aether-agents/src/backtest.rs:66-84 | succeeds exactly when each checked addition is in range, and then adds one trip to each accumulator |
| Backtest.Turn | crates/aether-agents/src/backtest.rs:61-88 | one tick keeps the accumulators equal to the sums over the trips closed so far |
| Backtest.ScanTicks | crates/aether-agents/src/backtest.rs:55-89 | the loop keeps that equality to the end, or the period cannot fit the number type |
| Backtest.Settle | crates/aether-agents/src/backtest.rs:90-129 | the forced exit and the net result, failing exactly when the totals do not fit |
| Backtest.Run | crates/aether-agents/src/backtest.rs:40-130 | the report or the first error of the independently specified outcome |
| Backtest.DecodeOne | crates/aether-agents/src/backtest.rs:46-150 | one event is a tick of positive price, an error, or no tick |
| Backtest.DecodeJoins | crates/aether-agents/src/backtest.rs:46-51 | ticks keep the order of their events and the first error decides |
| Backtest.TripsAreGreedy | crates/aether-agents/src/backtest.rs:61-88 | a trip buys at the first price at or below the lower threshold and sells at the first later price at or above the upper one, and the next begins with the tick after that |
| Backtest.ErrorsInOrder | crates/aether-agents/src/backtest.rs:45-53 | an unsound strategy exactly by its thresholds and rates, then no ticks exactly without tick events, and never an arithmetic error before an undecodable tick |
| Backtest.OverflowsExactlyWhen | crates/aether-agents/src/backtest.rs:66-116 | the arithmetic error if and only if gains, fees or slippage exceed 64 bits or the net result falls below them |
| Backtest.BpsBounds | crates/aether-agents/src/backtest.rs:152-155 | the cost is at least the exact quotient and exceeds it by less than one minor unit |
| Backtest.RoundingBounds | crates/aether-agents/src/backtest.rs:69-84 | summed costs are at least the exact cost and exceed it by at most two minor units per round trip |
| Backtest.ReportMeans | crates/aether-agents/src/backtest.rs:55-129 | a successful report sums its round trips and covers the period from first to last tick; each unforced one gains at least sell_above minus buy_below, only the last can be forced |

## Left out

- Rounding of `Decimal` beyond 28 digits; all arithmetic on prices and costs is exact.
- `Ledger`, `Swarm`: the elapsed time of the ledger is a real, not a float.
- Counter widths other than the backtester's money: the failure counter, `next_seq` and event counts are unbounded.
- The subtraction `now - 30 s` on an instant taken within 30 seconds of boot.
- PostgreSQL, Redis, MinIO, HTTP and gRPC, and the internals of Kafka; subscription errors, rebalances and changes of assignment.
- What workers find, say and cite; the scratchpad, packet building and exceptions of the progress callback.
- The bodies of `launch`, `research`, `poll_due` and `process_one` as single methods: other tasks run between their suspension points, so they are cut there into the steps of `Swarm` and `Fleet`. The uninterrupted parts that update an object are methods in `Ledger` and `Scheduler`.
- The two waves of a swarm as an ordering: workers may interleave more freely than the source allows.
- The live `SourceState` object shared by the in-memory store and the poller is a copy, which stays equal (`Fleet.SnapshotIsCurrent`).
- `Fleet`: a poll loop or worker that an escaping error ends may start again; the source does so only in a new process. Other than in backoff, clock readings and intervals are reals, not floats.
- The count returned by `poll_due` and `process_one`.
- Alert filters on kind, edge, confidence, venue and market, and the reason text: `Alerts` starts from the rules that matched.
- `CanonicalJson.SortJsonKeys`: returns the new value instead of updating through an exclusive reference, which no other reference can observe.
- `Consumer`: one call at a time on a consumer; concurrent calls would acknowledge each other's pending offsets.
- `Consumer.KafkaConsumer.Consume`: the ten-second limit of the polling loop is the length of the script of polls.
- The substring tests by which a producer error counts as transient are the caller's verdict in `Retry.SendWithRetry`.
- `canonical_hash` and `capture_hash` of a backtest, and decoding of tick bytes.
- JsonText.JsonRoundTrip: the reader is the project's own and takes the server's compact text only, because `JSON.parse` belongs to the client's runtime.
- Swarm.EmptyPromptWouldBeRefusedOnTokens: speaks of ledger operations in turn and not of a run of the swarm, because no prompt of the source is empty.
- `SwarmStream`: a JSON number that is not zero but too small for a double, which JavaScript takes for zero.
- `JSON.parse` itself, the byte decoder, and the client's handling of responses that are not OK, including the confirmation reference.
- Quote snapshots and origins of an order, and the parts of a fill's venue reference other than its depth-exhausted mark.
- The anchor store, `apply_mismatch_config`, topic names, authorisation tables, user interface and cryptography.

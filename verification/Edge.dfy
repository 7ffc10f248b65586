/**
 * Edge decomposition (crates/aether-decompose/src/components.rs, decompose.rs) on top of the
 * book walk: the slippage estimate, the sum law, and how size moves the net edge.
 */
module Edge {
  import opened Wrappers
  import opened Book
  import opened FillModel
  import opened FillTheorems
  import opened MarketImpact

  function Abs(x: real): real {
    if x < 0.0 then -x else x
  }

  function Max(a: real, b: real): real {
    if a >= b then a else b
  }

  function Clamp(x: real, low: real, high: real): real {
    if x < low then low else if x > high then high else x
  }

  // ---- Slippage ----

  function EstimateIntent(book: OrderBook, size: real, side: Side): Intent {
    Intent("estimate", book.market, side, Market, None, size, true)
  }

  /**
   * Average fill price of a market order against the best level, as a fraction of the latter.
   * Sums and quotients use unchecked operators, so leaving the representable range panics.
   */
  function SlippageEst(book: OrderBook, size: real, side: Side): Result<real, FillError> {
    match Walk(book, EstimateIntent(book, size, side), DEFAULT_CONFIG)
    case Failure(error) => Failure(error)
    case Success(fills) =>
      var totalNotional, totalSize := TotalNotional(fills), TotalSize(fills);
      var levels := Levels(book, side);
      if !Representable(totalNotional) then Failure(ArithmeticPanic("notional sum"))
      else if totalSize <= 0.0 then Failure(InvalidInput("fill size must be positive"))
      else if levels == [] then Failure(NoLiquidity(book.market, side))
      else if levels[0].price == 0.0 then Failure(ArithmeticPanic("division by zero"))
      else
        var slippage := (totalNotional / totalSize - levels[0].price) / levels[0].price;
        if !Representable(slippage) then Failure(ArithmeticPanic("slippage quotient")) else Success(Abs(slippage))
  }

  /** A fill price that is `worse` against `best`: the direction makes the absolute value exact. */
  ghost function Shortfall(side: Side, best: real, average: real): real {
    if IsBuy(side) then average - best else best - average
  }

  lemma QuotientOrder(a: real, b: real, d: real)
    requires 0.0 <= a <= b && d > 0.0
    ensures 0.0 <= a / d <= b / d
  {
    var x, y := a / d, b / d;
    assert a == x * d && b == y * d;
    SignOfFactor(x, d);
    assert (y - x) * d == b - a;
    SignOfFactor(y - x, d);
  }

  /** In the direction that prices worsen, the relative difference is the relative shortfall. */
  lemma Relative(side: Side, best: real, average: real)
    requires best > 0.0 && Worsens(side, best, average)
    ensures Shortfall(side, best, average) / best >= 0.0
    ensures Abs((average - best) / best) == Shortfall(side, best, average) / best
  {
    QuotientOrder(0.0, Shortfall(side, best, average), best);
    assert (average - best) / best == -((best - average) / best);
  }

  lemma SlippageValue(book: OrderBook, size: real, side: Side, average: real)
    requires var walk := Walk(book, EstimateIntent(book, size, side), DEFAULT_CONFIG);
             && walk.Success? && TotalSize(walk.value) == size > 0.0
             && average == TotalNotional(walk.value) / size
             && Representable(TotalNotional(walk.value))
    requires Levels(book, side) != [] && Levels(book, side)[0].price > 0.0
    requires Worsens(side, Levels(book, side)[0].price, average)
    ensures var best := Levels(book, side)[0].price;
            var value := Shortfall(side, best, average) / best;
            && value >= 0.0
            && SlippageEst(book, size, side)
               == if value <= DECIMAL_MAX then Success(value) else Failure(ArithmeticPanic("slippage quotient"))
  {
    var best := Levels(book, side)[0].price;
    Relative(side, best, average);
    hide Walk, Levels, TotalSize, TotalNotional;
  }

  /**
   * Slippage is nonnegative and nondecreasing in the order size on either side, including sizes
   * past the visible depth, and a size that can be estimated makes every smaller one estimable.
   */
  lemma SlippageMonotone(book: OrderBook, side: Side, smaller: real, larger: real)
    requires Valid(book) && 0.0 < smaller <= larger
    requires SlippageEst(book, larger, side).Success?
    ensures SlippageEst(book, smaller, side).Success?
    ensures 0.0 <= SlippageEst(book, smaller, side).value <= SlippageEst(book, larger, side).value
  {
    hide Mul;
    var intent := EstimateIntent(book, larger, side);
    var best := Levels(book, side)[0].price;
    AverageWorsens(book, intent, DEFAULT_CONFIG, smaller);
    assert intent.(size := smaller) == EstimateIntent(book, smaller, side);
    var a1 := TotalNotional(Walk(book, EstimateIntent(book, smaller, side), DEFAULT_CONFIG).value) / smaller;
    var a2 := TotalNotional(Walk(book, intent, DEFAULT_CONFIG).value) / larger;
    assert Worsens(side, best, a2);
    SlippageValue(book, smaller, side, a1);
    SlippageValue(book, larger, side, a2);
    QuotientOrder(Shortfall(side, best, a1), Shortfall(side, best, a2), best);
  }

  /** The estimate is how far the average price is from the best one, as a fraction of the latter. */
  lemma SlippageIsWorth(book: OrderBook, side: Side, size: real)
    requires Valid(book) && size > 0.0 && SlippageEst(book, size, side).Success?
    ensures Walk(book, EstimateIntent(book, size, side), DEFAULT_CONFIG).Success?
    ensures if side.Buy? || side.BuyNo? then book.asks != [] && book.asks[0].price > 0.0
            else book.bids != [] && book.bids[0].price > 0.0
    ensures var average := TotalNotional(Walk(book, EstimateIntent(book, size, side), DEFAULT_CONFIG).value) / size;
            SlippageEst(book, size, side).value
            == if side.Buy? || side.BuyNo? then (average - book.asks[0].price) / book.asks[0].price
               else (book.bids[0].price - average) / book.bids[0].price
  {
    hide Mul, VisibleWalk;
    var intent := EstimateIntent(book, size, side);
    AverageWorsens(book, intent, DEFAULT_CONFIG, size);
    assert intent.(size := size) == intent;
    hide Walk, Validate, TotalSize, TotalNotional;
    SlippageValue(book, size, side, TotalNotional(Walk(book, intent, DEFAULT_CONFIG).value) / size);
  }

  // ---- Components ----

  function GrossSpread(buyPrice: real, sellPrice: real, kind: string): real {
    if buyPrice <= 0.0 || sellPrice <= 0.0 then 0.0
    else if kind == "probability" then Max(sellPrice - buyPrice, 0.0)
    else
      var mid := (buyPrice + sellPrice) / 2.0;
      if mid <= 0.0 then 0.0 else Abs((sellPrice - buyPrice) / mid)
  }

  function Fees(notional: real, feeBps: real): real {
    Max(notional, 0.0) * Clamp(feeBps, 0.0, 1.0) * 2.0
  }

  function FundingCost(fundingRate: real, holdHours: real): real {
    fundingRate * holdHours / 24.0
  }

  function GasCost(gasUnits: nat, gasPriceGwei: nat): real {
    gasUnits as real * gasPriceGwei as real / 1000000000.0
  }

  function BridgeCost(bridgeFeeBps: real, notional: real, isCrossChain: bool): real {
    if isCrossChain then notional * bridgeFeeBps else 0.0
  }

  function SettlementMismatchDiscount(gross: real, discountFactor: real): real {
    gross * discountFactor
  }

  function LiquidityHaircut(size: real, avgDepth: real): real {
    if avgDepth <= 0.0 then 0.0
    else if size / avgDepth <= 1.0 then 0.0
    else (size / avgDepth - 1.0) * 0.005
  }

  function StalenessPenalty(maxQuoteAgeMs: int, tickStaleMs: int): real {
    if tickStaleMs <= 0 || maxQuoteAgeMs <= tickStaleMs then 0.0
    else
      var excess := (maxQuoteAgeMs - tickStaleMs) as real / tickStaleMs as real;
      Min(excess, 1.0) * 0.01
  }

  function ConfidencePenalty(grossSpread: real, confidence: real, k: real): real {
    (1.0 - Clamp(confidence, 0.0, 1.0)) * Max(grossSpread, 0.0) * Max(k, 0.0)
  }

  function NetEdge(gross: real, costs: seq<real>): real {
    gross - Total(costs)
  }

  function Total(costs: seq<real>): real {
    if costs == [] then 0.0 else costs[0] + Total(costs[1..])
  }

  // ---- Decomposition ----

  datatype EdgeDecomposition = EdgeDecomposition(
    grossSpread: real, fees: real, slippageEst: real, fundingCost: real, gasCost: real, bridgeCost: real,
    settlementMismatchDiscount: real, liquidityHaircut: real, stalenessPenalty: real,
    confidencePenalty: real, netEdge: real)

  datatype Context = Context(
    buyPrice: real, sellPrice: real, priceKind: string, notional: real, feeBps: real,
    feeAmount: Option<real>, isCrossChain: bool, bridgeFeeBps: real, mismatchDiscount: real,
    fundingRate: real, holdHours: real, maxQuoteAgeMs: int, tickStaleMs: int, confidence: real,
    confidenceK: real, requiresGas: bool, gasUnits: nat, gasPriceGwei: nat, avgDepth: real)

  function Decompose(ctx: Context): EdgeDecomposition {
    var gross := GrossSpread(ctx.buyPrice, ctx.sellPrice, ctx.priceKind);
    var fee := if ctx.feeAmount.Some? then ctx.feeAmount.value else Fees(ctx.notional, ctx.feeBps);
    var funding := FundingCost(ctx.fundingRate, ctx.holdHours);
    var gas := if ctx.requiresGas then GasCost(ctx.gasUnits, ctx.gasPriceGwei) else 0.0;
    var bridge := BridgeCost(ctx.bridgeFeeBps, ctx.notional, ctx.isCrossChain);
    var mismatch := SettlementMismatchDiscount(gross, ctx.mismatchDiscount);
    var liquidity := LiquidityHaircut(ctx.notional, ctx.avgDepth);
    var staleness := StalenessPenalty(ctx.maxQuoteAgeMs, ctx.tickStaleMs);
    var confidence := ConfidencePenalty(gross, ctx.confidence, ctx.confidenceK);
    var net := NetEdge(gross, [fee, 0.0, funding, gas, bridge, mismatch, liquidity, staleness, confidence]);
    EdgeDecomposition(gross, fee, 0.0, funding, gas, bridge, mismatch, liquidity, staleness, confidence, net)
  }

  function WithSlippage(ed: EdgeDecomposition, slippageEst: real): EdgeDecomposition {
    var slippage := Max(slippageEst, 0.0);
    ed.(slippageEst := slippage,
        netEdge := NetEdge(ed.grossSpread,
                           [ed.fees, slippage, ed.fundingCost, ed.gasCost, ed.bridgeCost,
                            ed.settlementMismatchDiscount, ed.liquidityHaircut, ed.stalenessPenalty,
                            ed.confidencePenalty]))
  }

  /** The sum law of SPEC-012. */
  ghost predicate SumLaw(ed: EdgeDecomposition) {
    ed.netEdge + ed.fees + ed.slippageEst + ed.fundingCost + ed.gasCost + ed.bridgeCost
    + ed.settlementMismatchDiscount + ed.liquidityHaircut + ed.stalenessPenalty + ed.confidencePenalty
    == ed.grossSpread
  }

  lemma {:induction false} TotalAppend(xs: seq<real>, x: real)
    ensures Total(xs + [x]) == Total(xs) + x
  {
    if xs == [] {
      assert Total([x]) == x + Total([x][1..]);
    } else {
      assert (xs + [x])[1..] == xs[1..] + [x];
      TotalAppend(xs[1..], x);
    }
  }

  lemma TotalOfNine(a: real, b: real, c: real, d: real, e: real, f: real, g: real, h: real, i: real)
    ensures Total([a, b, c, d, e, f, g, h, i]) == a + b + c + d + e + f + g + h + i
  {
    TotalAppend([], a);
    TotalAppend([a], b);
    TotalAppend([a, b], c);
    TotalAppend([a, b, c], d);
    TotalAppend([a, b, c, d], e);
    TotalAppend([a, b, c, d, e], f);
    TotalAppend([a, b, c, d, e, f], g);
    TotalAppend([a, b, c, d, e, f, g], h);
    TotalAppend([a, b, c, d, e, f, g, h], i);
    assert [] + [a] == [a] && [a] + [b] == [a, b] && [a, b] + [c] == [a, b, c];
    assert [a, b, c] + [d] == [a, b, c, d] && [a, b, c, d] + [e] == [a, b, c, d, e];
    assert [a, b, c, d, e] + [f] == [a, b, c, d, e, f] && [a, b, c, d, e, f] + [g] == [a, b, c, d, e, f, g];
    assert [a, b, c, d, e, f, g] + [h] == [a, b, c, d, e, f, g, h];
    assert [a, b, c, d, e, f, g, h] + [i] == [a, b, c, d, e, f, g, h, i];
  }

  lemma Rebalanced(ed: EdgeDecomposition, slippage: real)
    ensures SumLaw(WithSlippage(ed, slippage))
    ensures SumLaw(ed) && ed.slippageEst >= 0.0 ==> WithSlippage(ed, ed.slippageEst) == ed
  {
    TotalOfNine(ed.fees, Max(slippage, 0.0), ed.fundingCost, ed.gasCost, ed.bridgeCost,
                ed.settlementMismatchDiscount, ed.liquidityHaircut, ed.stalenessPenalty, ed.confidencePenalty);
    TotalOfNine(ed.fees, ed.slippageEst, ed.fundingCost, ed.gasCost, ed.bridgeCost,
                ed.settlementMismatchDiscount, ed.liquidityHaircut, ed.stalenessPenalty, ed.confidencePenalty);
  }

  // ---- Unchecked arithmetic ----

  /** The plain operators panic when the result leaves the representable range. */
  function Unchecked(x: real): Result<real, FillError> {
    if Representable(x) then Success(x) else Failure(ArithmeticPanic("decimal overflow"))
  }

  function GrossSpreadOutcome(buyPrice: real, sellPrice: real, kind: string): Result<real, FillError> {
    if buyPrice <= 0.0 || sellPrice <= 0.0 then Success(0.0)
    else if kind == "probability" then
      var gap :- Unchecked(sellPrice - buyPrice);
      Success(Max(gap, 0.0))
    else
      var sum :- Unchecked(buyPrice + sellPrice);
      if sum / 2.0 <= 0.0 then Success(0.0)
      else
        var gap :- Unchecked(sellPrice - buyPrice);
        var ratio :- Unchecked(gap / (sum / 2.0));
        Success(Abs(ratio))
  }

  function FeesOutcome(notional: real, feeBps: real): Result<real, FillError> {
    var leg :- Unchecked(Max(notional, 0.0) * Clamp(feeBps, 0.0, 1.0));
    Unchecked(leg * 2.0)
  }

  function FundingOutcome(fundingRate: real, holdHours: real): Result<real, FillError> {
    var product :- Unchecked(fundingRate * holdHours);
    Success(product / 24.0)
  }

  function GasOutcome(gasUnits: nat, gasPriceGwei: nat): Result<real, FillError> {
    var product :- Unchecked(gasUnits as real * gasPriceGwei as real);
    Success(product / 1000000000.0)
  }

  function BridgeOutcome(bridgeFeeBps: real, notional: real, isCrossChain: bool): Result<real, FillError> {
    if isCrossChain then Unchecked(notional * bridgeFeeBps) else Success(0.0)
  }

  function HaircutOutcome(size: real, avgDepth: real): Result<real, FillError> {
    if avgDepth <= 0.0 then Success(0.0)
    else
      var ratio :- Unchecked(size / avgDepth);
      Success(if ratio <= 1.0 then 0.0 else (ratio - 1.0) * 0.005)
  }

  function ConfidenceOutcome(grossSpread: real, confidence: real, k: real): Result<real, FillError> {
    var product :- Unchecked((1.0 - Clamp(confidence, 0.0, 1.0)) * Max(grossSpread, 0.0));
    Unchecked(product * Max(k, 0.0))
  }

  /** Summing from the left, every partial sum has to be representable. */
  function TotalOutcome(costs: seq<real>): Result<real, FillError> {
    if costs == [] then Success(0.0)
    else
      var front :- TotalOutcome(costs[..|costs| - 1]);
      Unchecked(front + costs[|costs| - 1])
  }

  function NetEdgeOutcome(gross: real, costs: seq<real>): Result<real, FillError> {
    var total :- TotalOutcome(costs);
    Unchecked(gross - total)
  }

  /** What `decompose` does: the decomposition, unless an operation panics. */
  function DecomposeOutcome(ctx: Context): Result<EdgeDecomposition, FillError> {
    var gross :- GrossSpreadOutcome(ctx.buyPrice, ctx.sellPrice, ctx.priceKind);
    var fee :- if ctx.feeAmount.Some? then Success(ctx.feeAmount.value) else FeesOutcome(ctx.notional, ctx.feeBps);
    var funding :- FundingOutcome(ctx.fundingRate, ctx.holdHours);
    var gas :- if ctx.requiresGas then GasOutcome(ctx.gasUnits, ctx.gasPriceGwei) else Success(0.0);
    var bridge :- BridgeOutcome(ctx.bridgeFeeBps, ctx.notional, ctx.isCrossChain);
    var mismatch :- Unchecked(SettlementMismatchDiscount(gross, ctx.mismatchDiscount));
    var liquidity :- HaircutOutcome(ctx.notional, ctx.avgDepth);
    var staleness := StalenessPenalty(ctx.maxQuoteAgeMs, ctx.tickStaleMs);
    var confidence :- ConfidenceOutcome(gross, ctx.confidence, ctx.confidenceK);
    var net :- NetEdgeOutcome(gross, [fee, 0.0, funding, gas, bridge, mismatch, liquidity, staleness, confidence]);
    Success(EdgeDecomposition(gross, fee, 0.0, funding, gas, bridge, mismatch, liquidity, staleness, confidence, net))
  }

  function WithSlippageOutcome(ed: EdgeDecomposition, slippageEst: real): Result<EdgeDecomposition, FillError> {
    var w := WithSlippage(ed, slippageEst);
    var net :- NetEdgeOutcome(ed.grossSpread,
                              [ed.fees, w.slippageEst, ed.fundingCost, ed.gasCost, ed.bridgeCost,
                               ed.settlementMismatchDiscount, ed.liquidityHaircut, ed.stalenessPenalty,
                               ed.confidencePenalty]);
    Success(w.(netEdge := net))
  }

  lemma {:induction false} TotalOutcomeIsTotal(costs: seq<real>)
    ensures TotalOutcome(costs).Success? ==> TotalOutcome(costs).value == Total(costs)
  {
    if costs != [] {
      var front := costs[..|costs| - 1];
      TotalOutcomeIsTotal(front);
      TotalAppend(front, costs[|costs| - 1]);
      assert front + [costs[|costs| - 1]] == costs;
    }
  }

  lemma NetEdgeOutcomeIsNetEdge(gross: real, costs: seq<real>)
    ensures NetEdgeOutcome(gross, costs).Success? ==> NetEdgeOutcome(gross, costs).value == NetEdge(gross, costs)
  {
    TotalOutcomeIsTotal(costs);
  }

  /** The operation panicked or computed `x`. */
  predicate Yields(r: Result<real, FillError>, x: real) {
    r.Success? ==> r.value == x
  }

  lemma ComponentsAreExact(ctx: Context, gross: real)
    ensures Yields(GrossSpreadOutcome(ctx.buyPrice, ctx.sellPrice, ctx.priceKind),
                   GrossSpread(ctx.buyPrice, ctx.sellPrice, ctx.priceKind))
    ensures Yields(FeesOutcome(ctx.notional, ctx.feeBps), Fees(ctx.notional, ctx.feeBps))
    ensures Yields(FundingOutcome(ctx.fundingRate, ctx.holdHours), FundingCost(ctx.fundingRate, ctx.holdHours))
    ensures Yields(GasOutcome(ctx.gasUnits, ctx.gasPriceGwei), GasCost(ctx.gasUnits, ctx.gasPriceGwei))
    ensures Yields(BridgeOutcome(ctx.bridgeFeeBps, ctx.notional, ctx.isCrossChain),
                   BridgeCost(ctx.bridgeFeeBps, ctx.notional, ctx.isCrossChain))
    ensures Yields(HaircutOutcome(ctx.notional, ctx.avgDepth), LiquidityHaircut(ctx.notional, ctx.avgDepth))
    ensures Yields(ConfidenceOutcome(gross, ctx.confidence, ctx.confidenceK),
                   ConfidencePenalty(gross, ctx.confidence, ctx.confidenceK))
  {
  }

  /** A computation that does not panic yields the exact decomposition. */
  lemma DecompositionIsExact(ctx: Context)
    ensures DecomposeOutcome(ctx).Success? ==> DecomposeOutcome(ctx).value == Decompose(ctx)
  {
    hide GrossSpreadOutcome, GrossSpread, FeesOutcome, Fees, FundingOutcome, FundingCost, GasOutcome, GasCost,
         BridgeOutcome, BridgeCost, HaircutOutcome, LiquidityHaircut, ConfidenceOutcome, ConfidencePenalty,
         StalenessPenalty, SettlementMismatchDiscount, NetEdge, NetEdgeOutcome, Representable;
    var d := Decompose(ctx);
    ComponentsAreExact(ctx, d.grossSpread);
    NetEdgeOutcomeIsNetEdge(d.grossSpread,
                            [d.fees, 0.0, d.fundingCost, d.gasCost, d.bridgeCost, d.settlementMismatchDiscount,
                             d.liquidityHaircut, d.stalenessPenalty, d.confidencePenalty]);
  }

  lemma ReplacementIsExact(ed: EdgeDecomposition, slippage: real)
    ensures WithSlippageOutcome(ed, slippage).Success? ==>
              WithSlippageOutcome(ed, slippage).value == WithSlippage(ed, slippage)
  {
    var w := WithSlippage(ed, slippage);
    NetEdgeOutcomeIsNetEdge(ed.grossSpread,
                            [ed.fees, w.slippageEst, ed.fundingCost, ed.gasCost, ed.bridgeCost,
                             ed.settlementMismatchDiscount, ed.liquidityHaircut, ed.stalenessPenalty,
                             ed.confidencePenalty]);
    hide NetEdge, NetEdgeOutcome;
  }

  /**
   * A decomposition that does not panic balances, and replacing its slippage rebalances even a stale
   * record. Replacing it by itself changes nothing, and the last replacement wins.
   */
  lemma SumLawHolds(ctx: Context, stale: EdgeDecomposition, first: real, second: real)
    ensures var r := DecomposeOutcome(ctx); r.Success? ==> SumLaw(r.value) && r.value.slippageEst == 0.0
    ensures var r := WithSlippageOutcome(stale, first);
            r.Success? ==>
              && SumLaw(r.value) && r.value.slippageEst == (if first > 0.0 then first else 0.0)
              && r.value.(slippageEst := stale.slippageEst, netEdge := stale.netEdge) == stale
    ensures var r := WithSlippageOutcome(stale, first);
            r.Success? ==> WithSlippageOutcome(r.value, second) == WithSlippageOutcome(stale, second)
    ensures SumLaw(stale) && stale.slippageEst >= 0.0 ==> WithSlippage(stale, stale.slippageEst) == stale
  {
    DecompositionIsExact(ctx);
    ReplacementIsExact(stale, first);
    hide DecomposeOutcome, NetEdgeOutcome;
    DecomposeBalances(ctx);
    Rebalanced(stale, first);
  }

  lemma DecomposeBalances(ctx: Context)
    ensures SumLaw(Decompose(ctx)) && Decompose(ctx).slippageEst == 0.0
  {
    var d := Decompose(ctx);
    TotalOfNine(d.fees, 0.0, d.fundingCost, d.gasCost, d.bridgeCost, d.settlementMismatchDiscount,
                d.liquidityHaircut, d.stalenessPenalty, d.confidencePenalty);
  }

  // ---- When it panics ----

  lemma {:induction false} TotalPanicsExactly(costs: seq<real>)
    ensures TotalOutcome(costs).Success? <==>
              forall n :: 1 <= n <= |costs| ==> Representable(Total(costs[..n]))
  {
    if costs != [] {
      var front := costs[..|costs| - 1];
      TotalPanicsExactly(front);
      TotalOutcomeIsTotal(front);
      TotalAppend(front, costs[|costs| - 1]);
      assert front + [costs[|costs| - 1]] == costs == costs[..|costs|];
      assert forall n :: 1 <= n <= |front| ==> front[..n] == costs[..n];
    }
  }

  /** The components of a decomposition can all be computed. */
  ghost predicate Computable(ctx: Context) {
    var buy, sell := ctx.buyPrice, ctx.sellPrice;
    var gross := GrossSpread(buy, sell, ctx.priceKind);
    && (buy > 0.0 && sell > 0.0 ==> Representable(sell - buy))
    && (buy > 0.0 && sell > 0.0 && ctx.priceKind != "probability" ==> Representable(buy + sell) && Representable(gross))
    && (ctx.feeAmount.None? ==>
          Representable(Fees(ctx.notional, ctx.feeBps) / 2.0) && Representable(Fees(ctx.notional, ctx.feeBps)))
    && Representable(Mul(ctx.fundingRate, ctx.holdHours))
    && (ctx.requiresGas ==> Representable(Mul(ctx.gasUnits as real, ctx.gasPriceGwei as real)))
    && (ctx.isCrossChain ==> Representable(Mul(ctx.notional, ctx.bridgeFeeBps)))
    && Representable(SettlementMismatchDiscount(gross, ctx.mismatchDiscount))
    && (ctx.avgDepth > 0.0 ==> Representable(ctx.notional / ctx.avgDepth))
    && Representable(ConfidencePenalty(gross, ctx.confidence, 1.0))
    && Representable(ConfidencePenalty(gross, ctx.confidence, ctx.confidenceK))
  }

  lemma GrossPanicsExactly(buyPrice: real, sellPrice: real, kind: string)
    ensures GrossSpreadOutcome(buyPrice, sellPrice, kind).Success? <==>
              buyPrice > 0.0 && sellPrice > 0.0 ==>
                && Representable(sellPrice - buyPrice)
                && (kind != "probability" ==>
                      Representable(buyPrice + sellPrice) && Representable(GrossSpread(buyPrice, sellPrice, kind)))
  {
  }

  lemma FeesPanicExactly(notional: real, feeBps: real)
    ensures FeesOutcome(notional, feeBps).Success? <==>
              Representable(Fees(notional, feeBps) / 2.0) && Representable(Fees(notional, feeBps))
  {
    var leg := Max(notional, 0.0) * Clamp(feeBps, 0.0, 1.0);
    assert leg * 2.0 / 2.0 == leg;
  }

  lemma RatesPanicExactly(ctx: Context)
    ensures FundingOutcome(ctx.fundingRate, ctx.holdHours).Success? <==>
              Representable(Mul(ctx.fundingRate, ctx.holdHours))
    ensures GasOutcome(ctx.gasUnits, ctx.gasPriceGwei).Success? <==>
              Representable(Mul(ctx.gasUnits as real, ctx.gasPriceGwei as real))
    ensures BridgeOutcome(ctx.bridgeFeeBps, ctx.notional, ctx.isCrossChain).Success? <==>
              (ctx.isCrossChain ==> Representable(Mul(ctx.notional, ctx.bridgeFeeBps)))
    ensures HaircutOutcome(ctx.notional, ctx.avgDepth).Success? <==>
              (ctx.avgDepth > 0.0 ==> Representable(ctx.notional / ctx.avgDepth))
  {
  }

  lemma ConfidencePanicsExactly(gross: real, confidence: real, k: real)
    ensures ConfidenceOutcome(gross, confidence, k).Success? <==>
              Representable(ConfidencePenalty(gross, confidence, 1.0))
              && Representable(ConfidencePenalty(gross, confidence, k))
  {
    var product := (1.0 - Clamp(confidence, 0.0, 1.0)) * Max(gross, 0.0);
    assert product * 1.0 == product;
    hide Representable;
  }

  /** Panics: a component leaves the range, or a partial sum of the costs, or the net edge. */
  lemma PanicsExactlyWhen(ctx: Context)
    ensures DECIMAL_MAX + 1.0 == 4294967296.0 * 4294967296.0 * 4294967296.0
    ensures var d := Decompose(ctx);
            var costs := [d.fees, 0.0, d.fundingCost, d.gasCost, d.bridgeCost, d.settlementMismatchDiscount,
                          d.liquidityHaircut, d.stalenessPenalty, d.confidencePenalty];
            DecomposeOutcome(ctx).Success? <==>
              && Computable(ctx) && (forall n :: 1 <= n <= 9 ==> Representable(Total(costs[..n])))
              && Representable(d.netEdge)
  {
    var d := Decompose(ctx);
    var costs := [d.fees, 0.0, d.fundingCost, d.gasCost, d.bridgeCost, d.settlementMismatchDiscount,
                  d.liquidityHaircut, d.stalenessPenalty, d.confidencePenalty];
    hide GrossSpreadOutcome, GrossSpread, FeesOutcome, Fees, FundingOutcome, FundingCost, GasOutcome, GasCost,
         BridgeOutcome, BridgeCost, HaircutOutcome, LiquidityHaircut, ConfidenceOutcome, ConfidencePenalty,
         StalenessPenalty, SettlementMismatchDiscount, Representable, Mul, TotalOutcome, Total;
    ComponentsAreExact(ctx, d.grossSpread);
    GrossPanicsExactly(ctx.buyPrice, ctx.sellPrice, ctx.priceKind);
    FeesPanicExactly(ctx.notional, ctx.feeBps);
    RatesPanicExactly(ctx);
    ConfidencePanicsExactly(d.grossSpread, ctx.confidence, ctx.confidenceK);
    TotalPanicsExactly(costs);
    TotalOutcomeIsTotal(costs);
    assert NetEdgeOutcome(d.grossSpread, costs).Success? <==> TotalOutcome(costs).Success? && Representable(d.netEdge);
    var ok := DecomposeOutcome(ctx).Success?;
    assert ok ==> Computable(ctx);
    assert Computable(ctx) ==> ok == NetEdgeOutcome(d.grossSpread, costs).Success?;
  }

  // ---- What the components guarantee ----

  lemma Product(a: real, b: real)
    requires a >= 0.0 && b >= 0.0
    ensures a * b >= 0.0
  {
  }

  /** A probability gap counts only when selling beats buying; a currency gap ignores direction. */
  lemma GrossSpreadDirection(buyPrice: real, sellPrice: real, kind: string)
    ensures GrossSpread(buyPrice, sellPrice, kind) >= 0.0
    ensures kind == "probability" ==> (GrossSpread(buyPrice, sellPrice, kind) > 0.0 <==> 0.0 < buyPrice < sellPrice)
    ensures kind != "probability" ==> GrossSpread(buyPrice, sellPrice, kind) == GrossSpread(sellPrice, buyPrice, kind)
    ensures kind != "probability" && buyPrice > 0.0 && sellPrice > 0.0 ==>
              GrossSpread(buyPrice, sellPrice, kind) * ((buyPrice + sellPrice) / 2.0) == Abs(sellPrice - buyPrice)
  {
    if kind != "probability" && buyPrice > 0.0 && sellPrice > 0.0 {
      var mid := (buyPrice + sellPrice) / 2.0;
      var up, down := (sellPrice - buyPrice) / mid, (buyPrice - sellPrice) / mid;
      assert up * mid == sellPrice - buyPrice && down * mid == buyPrice - sellPrice;
      SignOfFactor(up, mid);
      SignOfFactor(down, mid);
      SignOfFactor(up + down, mid);
      assert (-(up + down)) * mid == 0.0;
      SignOfFactor(-(up + down), mid);
    }
  }

  /** Staleness starts beyond the limit, never falls with age, and is capped at one percent. */
  lemma StalenessIsMonotone(age: int, older: int, tickStaleMs: int)
    requires age <= older
    ensures 0.0 <= StalenessPenalty(age, tickStaleMs) <= StalenessPenalty(older, tickStaleMs) <= 0.01
    ensures StalenessPenalty(age, tickStaleMs) > 0.0 <==> 0 < tickStaleMs < age
    ensures tickStaleMs > 0 && age >= 2 * tickStaleMs ==> StalenessPenalty(age, tickStaleMs) == 0.01
  {
    if 0 < tickStaleMs < age {
      var limit := tickStaleMs as real;
      QuotientOrder((age - tickStaleMs) as real, (older - tickStaleMs) as real, limit);
      var excess := (age - tickStaleMs) as real / limit;
      assert excess * limit > 0.0;
      assert excess > 0.0;
      if age >= 2 * tickStaleMs {
        assert (excess - 1.0) * limit >= 0.0;
        SignOfFactor(excess - 1.0, limit);
      }
    } else if 0 < tickStaleMs < older {
      QuotientOrder(0.0, (older - tickStaleMs) as real, tickStaleMs as real);
    }
  }

  /** More confidence never costs more, full confidence costs nothing, none costs gross times k. */
  lemma ConfidenceLowersPenalty(gross: real, confidence: real, higher: real, k: real)
    requires confidence <= higher
    ensures 0.0 <= ConfidencePenalty(gross, higher, k) <= ConfidencePenalty(gross, confidence, k)
            <= ConfidencePenalty(gross, 0.0, k)
    ensures ConfidencePenalty(gross, 1.0, k) == 0.0
    ensures gross >= 0.0 && k >= 0.0 ==> ConfidencePenalty(gross, 0.0, k) == gross * k
  {
    var a, b := 1.0 - Clamp(higher, 0.0, 1.0), 1.0 - Clamp(confidence, 0.0, 1.0);
    var g, m := Max(gross, 0.0), Max(k, 0.0);
    Product(a, g);
    Product(a * g, m);
    Product(b - a, g);
    Product((b - a) * g, m);
    Product(1.0 - b, g);
    Product((1.0 - b) * g, m);
    assert b * g * m - a * g * m == (b - a) * g * m;
    assert g * m - b * g * m == (1.0 - b) * g * m;
  }

  /** The haircut starts beyond the depth and never falls with size. */
  lemma HaircutIsMonotone(size: real, larger: real, avgDepth: real)
    requires size <= larger
    ensures 0.0 <= LiquidityHaircut(size, avgDepth) <= LiquidityHaircut(larger, avgDepth)
    ensures LiquidityHaircut(size, avgDepth) > 0.0 <==> 0.0 < avgDepth < size
  {
    if avgDepth > 0.0 {
      var x, y := size / avgDepth, larger / avgDepth;
      assert x * avgDepth == size && y * avgDepth == larger;
      assert (y - x) * avgDepth == larger - size;
      SignOfFactor(y - x, avgDepth);
      assert (x - 1.0) * avgDepth == size - avgDepth;
      SignOfFactor(x - 1.0, avgDepth);
      assert (1.0 - x) * avgDepth == avgDepth - size;
      SignOfFactor(1.0 - x, avgDepth);
    }
  }

  // ---- What the components are worth ----

  lemma GrossIsWorth(buyPrice: real, sellPrice: real, kind: string)
    ensures var g := GrossSpread(buyPrice, sellPrice, kind);
            if buyPrice <= 0.0 || sellPrice <= 0.0 then g == 0.0
            else if kind == "probability" then g == if sellPrice > buyPrice then sellPrice - buyPrice else 0.0
            else g * (buyPrice + sellPrice)
                 == 2.0 * if sellPrice > buyPrice then sellPrice - buyPrice else buyPrice - sellPrice
  {
    GrossSpreadDirection(buyPrice, sellPrice, kind);
    if buyPrice > 0.0 && sellPrice > 0.0 && kind != "probability" {
      var g := GrossSpread(buyPrice, sellPrice, kind);
      hide GrossSpread;
      assert g * (buyPrice + sellPrice) == 2.0 * (g * ((buyPrice + sellPrice) / 2.0));
    }
  }

  /** The rate is a fraction of the notional, at most all of it, and there are two legs. */
  lemma FeesAreWorth(notional: real, feeBps: real)
    ensures Fees(notional, feeBps)
            == if notional <= 0.0 || feeBps <= 0.0 then 0.0
               else if feeBps >= 1.0 then notional + notional
               else notional * feeBps + notional * feeBps
  {
  }

  /** The rate is per day. */
  lemma FundingIsWorth(fundingRate: real, holdHours: real)
    ensures FundingCost(fundingRate, holdHours) * 24.0 == fundingRate * holdHours
    ensures FundingCost(fundingRate, 24.0) == fundingRate
  {
    var product := fundingRate * holdHours;
    assert (product / 24.0) * 24.0 == product;
  }

  /** A price of one gwei is a billionth per unit. */
  lemma GasIsWorth(gasUnits: nat, gasPriceGwei: nat)
    ensures GasCost(gasUnits, gasPriceGwei) * 1000000000.0 == gasUnits as real * gasPriceGwei as real
  {
    var product := gasUnits as real * gasPriceGwei as real;
    assert (product / 1000000000.0) * 1000000000.0 == product;
  }

  /** Half a percent for each time that the depth fits into what goes beyond it. */
  lemma HaircutIsWorth(size: real, avgDepth: real)
    ensures if 0.0 < avgDepth < size then LiquidityHaircut(size, avgDepth) * avgDepth == 0.005 * (size - avgDepth)
            else LiquidityHaircut(size, avgDepth) == 0.0
  {
    HaircutIsMonotone(size, size, avgDepth);
    if 0.0 < avgDepth < size {
      var ratio := size / avgDepth;
      assert ratio * avgDepth == size;
      assert (ratio - 1.0) * 0.005 * avgDepth == 0.005 * (ratio * avgDepth - avgDepth);
    }
  }

  /** One percent for a quote of twice the permitted age or more, in proportion below that. */
  lemma StalenessIsWorth(age: int, tickStaleMs: int)
    ensures var penalty := StalenessPenalty(age, tickStaleMs);
            if tickStaleMs <= 0 || age <= tickStaleMs then penalty == 0.0
            else if age >= 2 * tickStaleMs then penalty == 0.01
            else penalty * tickStaleMs as real == 0.01 * (age - tickStaleMs) as real
  {
    StalenessIsMonotone(age, age, tickStaleMs);
    if 0 < tickStaleMs < age < 2 * tickStaleMs {
      var limit := tickStaleMs as real;
      var excess := (age - tickStaleMs) as real / limit;
      assert excess * limit == (age - tickStaleMs) as real < limit;
      assert excess < 1.0 by {
        if excess >= 1.0 {
          Product(excess - 1.0, limit);
        }
      }
      assert (excess * 0.01) * limit == 0.01 * (excess * limit);
    }
  }

  lemma ConfidenceIsWorth(gross: real, confidence: real, k: real)
    ensures ConfidencePenalty(gross, confidence, k)
            == if gross <= 0.0 || k <= 0.0 || confidence >= 1.0 then 0.0
               else if confidence <= 0.0 then gross * k
               else (1.0 - confidence) * gross * k
  {
  }

  /** What each component of a decomposition is worth, in terms of the inputs. */
  lemma ComponentsAreWorth(ctx: Context)
    requires DecomposeOutcome(ctx).Success?
    ensures var d := DecomposeOutcome(ctx).value;
            && (if ctx.buyPrice <= 0.0 || ctx.sellPrice <= 0.0 then d.grossSpread == 0.0
                else if ctx.priceKind == "probability" then
                  d.grossSpread == if ctx.sellPrice > ctx.buyPrice then ctx.sellPrice - ctx.buyPrice else 0.0
                else
                  d.grossSpread * (ctx.buyPrice + ctx.sellPrice)
                  == 2.0 * if ctx.sellPrice > ctx.buyPrice then ctx.sellPrice - ctx.buyPrice
                           else ctx.buyPrice - ctx.sellPrice)
            && d.fees == (if ctx.feeAmount.Some? then ctx.feeAmount.value
                          else if ctx.notional <= 0.0 || ctx.feeBps <= 0.0 then 0.0
                          else if ctx.feeBps >= 1.0 then ctx.notional + ctx.notional
                          else ctx.notional * ctx.feeBps + ctx.notional * ctx.feeBps)
            && d.slippageEst == 0.0
            && d.fundingCost * 24.0 == ctx.fundingRate * ctx.holdHours
            && (if ctx.requiresGas then d.gasCost * 1000000000.0 == ctx.gasUnits as real * ctx.gasPriceGwei as real
                else d.gasCost == 0.0)
            && d.bridgeCost == (if ctx.isCrossChain then ctx.notional * ctx.bridgeFeeBps else 0.0)
            && d.settlementMismatchDiscount == d.grossSpread * ctx.mismatchDiscount
            && (if 0.0 < ctx.avgDepth < ctx.notional then
                  d.liquidityHaircut * ctx.avgDepth == 0.005 * (ctx.notional - ctx.avgDepth)
                else d.liquidityHaircut == 0.0)
            && (if ctx.tickStaleMs <= 0 || ctx.maxQuoteAgeMs <= ctx.tickStaleMs then d.stalenessPenalty == 0.0
                else if ctx.maxQuoteAgeMs >= 2 * ctx.tickStaleMs then d.stalenessPenalty == 0.01
                else d.stalenessPenalty * ctx.tickStaleMs as real
                     == 0.01 * (ctx.maxQuoteAgeMs - ctx.tickStaleMs) as real)
            && d.confidencePenalty
               == (if d.grossSpread <= 0.0 || ctx.confidenceK <= 0.0 || ctx.confidence >= 1.0 then 0.0
                   else if ctx.confidence <= 0.0 then d.grossSpread * ctx.confidenceK
                   else (1.0 - ctx.confidence) * d.grossSpread * ctx.confidenceK)
  {
    hide DecomposeOutcome, GrossSpread, Fees, FundingCost, GasCost, LiquidityHaircut, StalenessPenalty,
         ConfidencePenalty, NetEdge;
    DecompositionIsExact(ctx);
    GrossIsWorth(ctx.buyPrice, ctx.sellPrice, ctx.priceKind);
    FeesAreWorth(ctx.notional, ctx.feeBps);
    FundingIsWorth(ctx.fundingRate, ctx.holdHours);
    GasIsWorth(ctx.gasUnits, ctx.gasPriceGwei);
    HaircutIsWorth(ctx.notional, ctx.avgDepth);
    StalenessIsWorth(ctx.maxQuoteAgeMs, ctx.tickStaleMs);
    ConfidenceIsWorth(GrossSpread(ctx.buyPrice, ctx.sellPrice, ctx.priceKind), ctx.confidence, ctx.confidenceK);
  }

  /** Rates and amounts that cannot turn a cost into income. */
  predicate Costly(ctx: Context) {
    && ctx.notional >= 0.0 && (ctx.feeAmount.Some? ==> ctx.feeAmount.value >= 0.0)
    && ctx.bridgeFeeBps >= 0.0 && ctx.mismatchDiscount >= 0.0 && ctx.fundingRate >= 0.0 && ctx.holdHours >= 0.0
  }

  lemma FeesAreCosts(notional: real, feeBps: real)
    ensures Fees(notional, feeBps) >= 0.0
  {
    Product(Max(notional, 0.0), Clamp(feeBps, 0.0, 1.0));
  }

  lemma FundingIsACost(fundingRate: real, holdHours: real)
    requires fundingRate >= 0.0 && holdHours >= 0.0
    ensures FundingCost(fundingRate, holdHours) >= 0.0
  {
    Product(fundingRate, holdHours);
  }

  lemma GasIsACost(gasUnits: nat, gasPriceGwei: nat)
    ensures GasCost(gasUnits, gasPriceGwei) >= 0.0
  {
    Product(gasUnits as real, gasPriceGwei as real);
  }

  lemma ComponentsAreCosts(ctx: Context)
    requires Costly(ctx)
    ensures var d := Decompose(ctx);
            && d.fees >= 0.0 && d.slippageEst == 0.0 && d.fundingCost >= 0.0 && d.gasCost >= 0.0 && d.bridgeCost >= 0.0
            && d.settlementMismatchDiscount >= 0.0 && d.liquidityHaircut >= 0.0 && d.stalenessPenalty >= 0.0
            && d.confidencePenalty >= 0.0
  {
    hide Fees, FundingCost, GasCost, LiquidityHaircut, StalenessPenalty, ConfidencePenalty, GrossSpread, NetEdge;
    var gross := GrossSpread(ctx.buyPrice, ctx.sellPrice, ctx.priceKind);
    GrossSpreadDirection(ctx.buyPrice, ctx.sellPrice, ctx.priceKind);
    FeesAreCosts(ctx.notional, ctx.feeBps);
    FundingIsACost(ctx.fundingRate, ctx.holdHours);
    GasIsACost(ctx.gasUnits, ctx.gasPriceGwei);
    Product(ctx.notional, ctx.bridgeFeeBps);
    Product(gross, ctx.mismatchDiscount);
    HaircutIsMonotone(ctx.notional, ctx.notional, ctx.avgDepth);
    StalenessIsMonotone(ctx.maxQuoteAgeMs, ctx.maxQuoteAgeMs, ctx.tickStaleMs);
    ConfidenceLowersPenalty(gross, ctx.confidence, ctx.confidence, ctx.confidenceK);
  }

  /** With such inputs every component is a cost, so the net edge is at most the gross spread. */
  lemma CostsNeverHelp(ctx: Context)
    requires Costly(ctx)
    ensures var r := DecomposeOutcome(ctx); r.Success? ==> r.value.netEdge <= r.value.grossSpread
  {
    hide Decompose, DecomposeOutcome;
    DecompositionIsExact(ctx);
    DecomposeBalances(ctx);
    ComponentsAreCosts(ctx);
  }

  /** A larger order never looks better: its net edge is at most that of a smaller one. */
  lemma LargerNeverBetter(ed: EdgeDecomposition, book: OrderBook, side: Side, smaller: real, larger: real)
    requires Valid(book) && 0.0 < smaller <= larger
    requires SlippageEst(book, larger, side).Success?
    ensures SlippageEst(book, smaller, side).Success?
    ensures WithSlippage(ed, SlippageEst(book, larger, side).value).netEdge
            <= WithSlippage(ed, SlippageEst(book, smaller, side).value).netEdge
    ensures SumLaw(ed) && ed.slippageEst == 0.0 ==>
              WithSlippage(ed, SlippageEst(book, smaller, side).value).netEdge <= ed.netEdge
  {
    hide Mul;
    SlippageMonotone(book, side, smaller, larger);
    var s1, s2 := SlippageEst(book, smaller, side).value, SlippageEst(book, larger, side).value;
    Rebalanced(ed, s1);
    Rebalanced(ed, s2);
  }
}

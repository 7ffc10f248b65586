/** What every book walk guarantees: discipline, conservation and greedy optimality. */
module FillTheorems {
  import opened Wrappers
  import opened Book
  import opened FillModel

  /** `q` is no better a price than `p` for an order on `side`. */
  ghost predicate Worsens(side: Side, p: real, q: real) {
    match side
    case Buy | BuyNo => p <= q
    case Sell | SellNo => p >= q
  }

  function TotalSize(fills: seq<Fill>): real {
    if fills == [] then 0.0 else fills[0].size + TotalSize(fills[1..])
  }

  function TotalNotional(fills: seq<Fill>): real {
    if fills == [] then 0.0 else Mul(fills[0].price, fills[0].size) + TotalNotional(fills[1..])
  }

  function TotalFee(fills: seq<Fill>): real {
    if fills == [] then 0.0 else fills[0].fee + TotalFee(fills[1..])
  }

  lemma {:induction false} TotalsAppend(fills: seq<Fill>, f: Fill)
    ensures TotalSize(fills + [f]) == TotalSize(fills) + f.size
    ensures TotalNotional(fills + [f]) == TotalNotional(fills) + Mul(f.price, f.size)
    ensures TotalFee(fills + [f]) == TotalFee(fills) + f.fee
  {
    if fills == [] {
      assert (fills + [f])[1..] == [];
    } else {
      TotalsAppend(fills[1..], f);
      assert (fills + [f])[1..] == fills[1..] + [f];
    }
  }

  // ---- Discipline ----

  /** The fill carries the order's identity, the exact fee, and a price within the limit. */
  ghost predicate Honours(f: Fill, book: OrderBook, intent: Intent, config: FillConfig) {
    && f.size > 0.0 && f.price > 0.0
    && f.fee == Mul(config.feeRate, Mul(f.price, f.size))
    && f.feeCurrency == config.feeCurrency
    && f.orderId == intent.id && f.market == intent.market && f.side == intent.side
    && f.ts == book.ts && f.paper == intent.paper
    && (intent.orderType.Limit? ==>
          && intent.limitPrice.Some?
          && (f.side.Buy? || f.side.BuyNo? ==> f.price <= intent.limitPrice.value)
          && (f.side.Sell? || f.side.SellNo? ==> f.price >= intent.limitPrice.value))
  }

  /** The fills take the levels in order, each level before the last one entirely. */
  ghost predicate Consumes(fills: seq<Fill>, levels: seq<Level>) {
    && |fills| <= |levels|
    && (forall i :: 0 <= i < |fills| ==>
          !fills[i].exhausted && fills[i].price == levels[i].price && fills[i].size <= levels[i].size)
    && (forall i :: 0 <= i < |fills| - 1 ==> fills[i].size == levels[i].size)
  }

  ghost predicate Drained(fills: seq<Fill>, levels: seq<Level>) {
    && |fills| <= |levels|
    && forall i :: 0 <= i < |fills| ==> fills[i].size == levels[i].size
  }

  /** The order cannot trade at `price`: a buyer would pay more, a seller get less than the limit. */
  ghost predicate PricedOut(intent: Intent, price: real) {
    && intent.orderType.Limit? && intent.limitPrice.Some?
    && (intent.side.Buy? || intent.side.BuyNo? ==> price > intent.limitPrice.value)
    && (intent.side.Sell? || intent.side.SellNo? ==> price < intent.limitPrice.value)
  }

  lemma MadeFill(book: OrderBook, intent: Intent, config: FillConfig, price: real, size: real, exhausted: bool)
    requires MakeFill(book, intent, config, price, size, exhausted).Success?
    requires price > 0.0 && size > 0.0 && CheckLimit(intent, price) == Success(None)
    ensures var f := MakeFill(book, intent, config, price, size, exhausted).value;
            Honours(f, book, intent, config) && f.price == price && f.size == size && f.exhausted == exhausted
  {
    hide Mul;
  }

  /** The limit check fails at prices that the order cannot trade at. */
  lemma LimitChecked(intent: Intent, price: real)
    requires CheckLimit(intent, price).Success? && CheckLimit(intent, price).value.Some?
    ensures PricedOut(intent, price)
    ensures CheckLimit(intent, price).value.value == Violation(intent.limitPrice.value, price)
  {
  }

  lemma {:induction false} VisibleShape(book: OrderBook, intent: Intent, config: FillConfig,
                                        levels: seq<Level>, remaining: real, touched: bool, v: Visible)
    requires v == VisibleWalk(book, intent, config, levels, remaining, touched) && v.Walked?
    requires remaining >= 0.0
    ensures Consumes(v.fills, levels)
    ensures forall f <- v.fills :: Honours(f, book, intent, config)
    ensures v.remaining >= 0.0 && TotalSize(v.fills) + v.remaining == remaining
    ensures v.remaining > 0.0 ==> Drained(v.fills, levels)
    ensures v.violation.Some? ==>
              v.remaining > 0.0 && |v.fills| < |levels| && PricedOut(intent, levels[|v.fills|].price)
              && v.violation.value == Violation(intent.limitPrice.value, levels[|v.fills|].price)
    ensures v.violation.None? && v.remaining > 0.0 ==>
              |v.fills| == |levels| || (config.aggressiveness.PassiveAtTouch? && (touched || v.fills != []))
    ensures v.violation.None? && remaining > 0.0 && levels != [] && !touched ==> v.fills != []
    decreases |levels|
  {
    hide Mul, MakeFill, CheckLimit, Honours, Consumes, Drained, PricedOut;
    NothingConsumed(levels);
    if levels == [] || remaining <= 0.0 || (config.aggressiveness.PassiveAtTouch? && touched) {
    } else if CheckLimit(intent, levels[0].price).value.Some? {
      LimitChecked(intent, levels[0].price);
    } else {
      var size := Min(remaining, levels[0].size);
      var fill := MakeFill(book, intent, config, levels[0].price, size, false).value;
      var rest := VisibleWalk(book, intent, config, levels[1..], remaining - size, true);
      VisibleShape(book, intent, config, levels[1..], remaining - size, true, rest);
      MadeFill(book, intent, config, levels[0].price, size, false);
      assert v.fills == [fill] + rest.fills && v.fills[1..] == rest.fills;
      ConsumesMore(fill, rest.fills, levels);
      assert |rest.fills| < |levels[1..]| ==> levels[|v.fills|] == levels[1..][|rest.fills|];
    }
  }

  lemma NothingConsumed(levels: seq<Level>)
    ensures Consumes([], levels) && Drained([], levels)
  {
  }

  /** A first fill put before the fills of the remaining levels. */
  lemma ConsumesMore(f: Fill, rest: seq<Fill>, levels: seq<Level>)
    requires levels != [] && Consumes(rest, levels[1..])
    requires !f.exhausted && f.price == levels[0].price && f.size <= levels[0].size
    requires rest != [] ==> f.size == levels[0].size
    ensures Consumes([f] + rest, levels)
    ensures f.size == levels[0].size && Drained(rest, levels[1..]) ==> Drained([f] + rest, levels)
  {
    var fills := [f] + rest;
    assert forall i :: 1 <= i < |fills| ==> fills[i] == rest[i - 1] && levels[i] == levels[1..][i - 1];
  }

  /** The price an order would have to pay after `k` visible fills. */
  ghost function NextPrice(book: OrderBook, intent: Intent, config: FillConfig, k: nat): real
    requires Levels(book, intent.side) != [] && config.multiplier >= 1.0
  {
    var levels := Levels(book, intent.side);
    if k < |levels| then levels[k].price
    else match intent.side
      case Buy | BuyNo => Mul(levels[|levels| - 1].price, config.multiplier)
      case Sell | SellNo => levels[|levels| - 1].price / config.multiplier
  }

  /** The fills taken from visible levels. */
  ghost function VisibleFills(fills: seq<Fill>): seq<Fill> {
    if fills != [] && fills[|fills| - 1].exhausted then fills[..|fills| - 1] else fills
  }

  lemma MulZero(x: real)
    ensures Mul(x, 0.0) == 0.0
  {
  }

  lemma NonPositive(a: real, b: real)
    requires a <= 0.0 && b >= 0.0
    ensures Mul(a, b) <= 0.0
  {
  }

  lemma ScaledPrice(price: real, multiplier: real)
    requires price > 0.0 && multiplier >= 1.0
    ensures Mul(price, multiplier) >= price
    ensures 0.0 < price / multiplier <= price
  {
    assert Mul(price, multiplier - 1.0) >= 0.0;
    var q := price / multiplier;
    assert Mul(q, multiplier) == price;
    assert q > 0.0 by {
      if q <= 0.0 {
        NonPositive(q, multiplier);
      }
    }
    assert Mul(q, multiplier - 1.0) >= 0.0;
  }

  /** Extrapolation adds one fill of everything left, or nothing because its price is unacceptable. */
  lemma ExtrapolateShape(book: OrderBook, intent: Intent, config: FillConfig, v: Visible, w: Visible)
    requires Levels(book, intent.side) != [] && config.multiplier >= 1.0
    requires v.Walked? && v.remaining > 0.0 && v.violation.None? && config.aggressiveness.CrossToDepth?
    requires |v.fills| == |Levels(book, intent.side)| && Levels(book, intent.side)[|v.fills| - 1].price > 0.0
    requires w == Extrapolate(book, intent, config, Levels(book, intent.side)[|v.fills| - 1].price, v) && w.Walked?
    ensures w.fills == v.fills ==> PricedOut(intent, NextPrice(book, intent, config, |v.fills|))
    ensures w.fills != v.fills ==>
              |w.fills| == |v.fills| + 1 && var f := w.fills[|v.fills|];
              && w.fills == v.fills + [f] && f.exhausted && f.size == v.remaining && Honours(f, book, intent, config)
              && f.price == NextPrice(book, intent, config, |v.fills|)
  {
    ScaledPrice(Levels(book, intent.side)[|v.fills| - 1].price, config.multiplier);
    hide Mul;
  }

  /** A successful walk is its visible part, or that part and one extrapolated fill of the rest. */
  lemma WalkShape(book: OrderBook, intent: Intent, config: FillConfig, fills: seq<Fill>) returns (v: Visible)
    requires Walk(book, intent, config) == Success(fills)
    ensures v == VisibleWalk(book, intent, config, Levels(book, intent.side), intent.size, false) && v.Walked?
    ensures VisibleFills(fills) == v.fills && fills != []
    ensures intent.size > 0.0 && Levels(book, intent.side) != [] && config.multiplier >= 1.0
    ensures fills == v.fills ==>
              config.aggressiveness.CrossToDepth? && v.remaining > 0.0 ==>
                PricedOut(intent, NextPrice(book, intent, config, |fills|))
    ensures fills != v.fills ==>
              var f := fills[|fills| - 1];
              && fills == v.fills + [f] && f.exhausted && f.size == v.remaining
              && Honours(f, book, intent, config)
              && config.aggressiveness.CrossToDepth? && |v.fills| == |Levels(book, intent.side)|
              && f.price == NextPrice(book, intent, config, |v.fills|)
  {
    hide Mul, VisibleWalk, MakeFill, ExhaustionPrice, TotalSize, Honours;
    var levels := Levels(book, intent.side);
    v := VisibleWalk(book, intent, config, levels, intent.size, false);
    VisibleShape(book, intent, config, levels, intent.size, false, v);
    assert v.fills != [] ==> v.fills[|v.fills| - 1] in v.fills && !v.fills[|v.fills| - 1].exhausted;
    if v.remaining > 0.0 && v.violation.None? && config.aggressiveness.CrossToDepth? {
      var w := Extrapolate(book, intent, config, levels[|levels| - 1].price, v);
      PositivePrice(book, intent, config, v.fills, levels);
      ExtrapolateShape(book, intent, config, v, w);
      if w.fills != v.fills {
        assert w.fills[..|v.fills|] == v.fills;
      }
    }
  }

  /** A level that was filled has a positive price. */
  lemma PositivePrice(book: OrderBook, intent: Intent, config: FillConfig, fills: seq<Fill>, levels: seq<Level>)
    requires Consumes(fills, levels) && forall f <- fills :: Honours(f, book, intent, config)
    ensures forall i :: 0 <= i < |fills| ==> levels[i].price > 0.0
  {
    assert forall i :: 0 <= i < |fills| ==> fills[i] in fills;
  }

  /** Prices of an ordered book only worsen along the fills. */
  lemma PricesOnlyWorsen(book: OrderBook, intent: Intent, config: FillConfig, fills: seq<Fill>, v: Visible)
    requires Valid(book) && Walk(book, intent, config) == Success(fills)
    requires v == VisibleWalk(book, intent, config, Levels(book, intent.side), intent.size, false) && v.Walked?
    requires Consumes(v.fills, Levels(book, intent.side))
    requires fills != v.fills ==>
               var f := fills[|fills| - 1];
               && fills == v.fills + [f] && |v.fills| == |Levels(book, intent.side)|
               && f.price == NextPrice(book, intent, config, |v.fills|)
               && v.fills[|v.fills| - 1].price > 0.0
    ensures forall i, j :: 0 <= i < j < |fills| ==> Worsens(intent.side, fills[i].price, fills[j].price)
  {
    hide Mul;
    var levels := Levels(book, intent.side);
    if fills != v.fills {
      ScaledPrice(levels[|levels| - 1].price, config.multiplier);
      assert Worsens(intent.side, levels[|levels| - 1].price, fills[|fills| - 1].price);
    }
  }

  /**
   * Conservation and price discipline of every successful walk. The shortfall clause is the
   * promise of CrossToDepth: only an unacceptable next price leaves size unfilled.
   */
  lemma WalkDiscipline(book: OrderBook, intent: Intent, config: FillConfig, fills: seq<Fill>)
    requires Valid(book) && Walk(book, intent, config) == Success(fills)
    ensures Levels(book, intent.side) == if intent.side.Buy? || intent.side.BuyNo? then book.asks else book.bids
    ensures fills != [] && 0.0 < TotalSize(fills) <= intent.size
    ensures forall f <- fills :: Honours(f, book, intent, config)
    ensures forall i, j :: 0 <= i < j < |fills| ==> Worsens(intent.side, fills[i].price, fills[j].price)
    ensures VisibleFills(fills) != [] && Consumes(VisibleFills(fills), Levels(book, intent.side))
    ensures VisibleFills(fills) != fills ==>
              && config.aggressiveness.CrossToDepth?
              && |VisibleFills(fills)| == |Levels(book, intent.side)|
              && Drained(VisibleFills(fills), Levels(book, intent.side))
              && fills[|fills| - 1].price == NextPrice(book, intent, config, |Levels(book, intent.side)|)
              && TotalSize(fills) == intent.size
    ensures config.aggressiveness.CrossToDepth? && TotalSize(fills) < intent.size ==>
              Drained(fills, Levels(book, intent.side))
              && PricedOut(intent, NextPrice(book, intent, config, |fills|))
    ensures config.aggressiveness.PassiveAtTouch? ==>
              |fills| == 1 && fills[0].size == Min(intent.size, Levels(book, intent.side)[0].size)
  {
    hide Mul, Walk, VisibleWalk, TotalSize;
    var levels := Levels(book, intent.side);
    var v := WalkShape(book, intent, config, fills);
    VisibleShape(book, intent, config, levels, intent.size, false, v);
    if fills != v.fills {
      TotalsAppend(v.fills, fills[|fills| - 1]);
      assert v.fills[|v.fills| - 1] in v.fills;
    }
    PricesOnlyWorsen(book, intent, config, fills, v);
    PositiveTotal(fills, book, intent, config);
    if config.aggressiveness.PassiveAtTouch? {
      PassiveTakesOne(book, intent, config, levels, intent.size, v);
    }
  }

  lemma {:induction false} PositiveTotal(fills: seq<Fill>, book: OrderBook, intent: Intent, config: FillConfig)
    requires forall f <- fills :: Honours(f, book, intent, config)
    ensures fills != [] ==> TotalSize(fills) > 0.0
  {
    hide Mul;
    if fills != [] {
      assert fills[0] in fills;
      PositiveTotal(fills[1..], book, intent, config);
    }
  }

  lemma PassiveTakesOne(book: OrderBook, intent: Intent, config: FillConfig, levels: seq<Level>, remaining: real,
                      v: Visible)
    requires config.aggressiveness.PassiveAtTouch? && levels != [] && remaining > 0.0
    requires v == VisibleWalk(book, intent, config, levels, remaining, false) && v.Walked? && v.fills != []
    ensures |v.fills| == 1 && v.fills[0].size == Min(remaining, levels[0].size)
  {
    hide Mul;
    var size := Min(remaining, levels[0].size);
    assert VisibleWalk(book, intent, config, levels[1..], remaining - size, true) == Walked([], remaining - size, None);
  }

  const NO_LIMIT := InvalidInput("limit order requires limit_price")

  lemma {:induction false} VisibleErrors(book: OrderBook, intent: Intent, config: FillConfig,
                                         levels: seq<Level>, remaining: real, touched: bool)
    ensures var v := VisibleWalk(book, intent, config, levels, remaining, touched);
            v.Stopped? ==> v.error.ArithmeticOverflow? || v.error == BAD_LEVEL
                           || (v.error == NO_LIMIT && intent.orderType.Limit? && intent.limitPrice.None?)
    decreases |levels|
  {
    hide Mul;
    if levels != [] {
      VisibleErrors(book, intent, config, levels[1..], remaining - Min(remaining, levels[0].size), true);
    }
  }

  /** A walk is attempted: a sound configuration, one market, and something to trade on both sides. */
  ghost predicate Attempted(book: OrderBook, intent: Intent, config: FillConfig) {
    && config.multiplier >= 1.0 && config.feeRate >= 0.0
    && (exists i :: 0 <= i < |config.feeCurrency| && !IsWhitespace(config.feeCurrency[i]))
    && book.market == intent.market && intent.size > 0.0
    && (intent.side.Buy? || intent.side.BuyNo? ==> book.asks != [])
    && (intent.side.Sell? || intent.side.SellNo? ==> book.bids != [])
  }

  /**
   * Refusals: a limit violation is reported exactly when the best level is priced out, and the
   * InsufficientDepth error of the source can never be returned.
   */
  lemma WalkRefusals(book: OrderBook, intent: Intent, config: FillConfig)
    ensures Walk(book, intent, config).Failure? ==> !Walk(book, intent, config).error.InsufficientDepth?
    ensures (Walk(book, intent, config).Failure? && Walk(book, intent, config).error.LimitViolation?) <==>
              && Attempted(book, intent, config)
              && Levels(book, intent.side)[0].price > 0.0 && Levels(book, intent.side)[0].size > 0.0
              && PricedOut(intent, Levels(book, intent.side)[0].price)
    ensures Walk(book, intent, config).Failure? && Walk(book, intent, config).error.LimitViolation? ==>
              Walk(book, intent, config).error
              == LimitViolation(intent.limitPrice.value, Levels(book, intent.side)[0].price)
  {
    hide Mul;
    if Attempted(book, intent, config) {
      var levels := Levels(book, intent.side);
      var v := VisibleWalk(book, intent, config, levels, intent.size, false);
      VisibleErrors(book, intent, config, levels, intent.size, false);
      if v.Walked? {
        VisibleShape(book, intent, config, levels, intent.size, false, v);
        if v.fills != [] {
          assert v.fills[0] in v.fills;
        }
      }
    }
  }

  /** The refusals of an order no level was tried for, and which of them goes first. */
  lemma EarlyRefusals(book: OrderBook, intent: Intent, config: FillConfig)
    ensures !Attempted(book, intent, config) ==> Walk(book, intent, config) == Failure(
              if config.multiplier < 1.0 then InvalidInput("depth exhaustion multiplier must be at least 1")
              else if config.feeRate < 0.0 then InvalidInput("fee rate cannot be negative")
              else if forall i :: 0 <= i < |config.feeCurrency| ==> IsWhitespace(config.feeCurrency[i])
                then InvalidInput("fee currency cannot be empty")
              else if book.market != intent.market then MarketMismatch(book.market, intent.market)
              else if intent.size <= 0.0 then InvalidInput("intent size must be positive")
              else NoLiquidity(intent.market, intent.side))
    ensures Attempted(book, intent, config)
            && (Levels(book, intent.side)[0].price <= 0.0 || Levels(book, intent.side)[0].size <= 0.0) ==>
              Walk(book, intent, config)
              == Failure(InvalidInput("book levels must have positive price and size"))
    ensures Walk(book, intent, config) == Failure(NO_LIMIT) <==>
              && Attempted(book, intent, config)
              && Levels(book, intent.side)[0].price > 0.0 && Levels(book, intent.side)[0].size > 0.0
              && intent.orderType.Limit? && intent.limitPrice.None?
  {
    hide Mul;
    if Attempted(book, intent, config) {
      VisibleErrors(book, intent, config, Levels(book, intent.side), intent.size, false);
    }
  }

  /** Two levels of one unit each, both acceptable. */
  lemma WalkTwo(book: OrderBook, intent: Intent, config: FillConfig, levels: seq<Level>)
    requires config.aggressiveness.CrossToDepth? && |levels| == 2 && intent.size == 3.0
    requires forall i :: 0 <= i < 2 ==>
               && levels[i].price > 0.0 && levels[i].size == 1.0 && CheckLimit(intent, levels[i].price) == Success(None)
               && MakeFill(book, intent, config, levels[i].price, 1.0, false).Success?
    ensures VisibleWalk(book, intent, config, levels, 3.0, false)
            == Walked([MakeFill(book, intent, config, levels[0].price, 1.0, false).value,
                       MakeFill(book, intent, config, levels[1].price, 1.0, false).value], 1.0, None)
  {
    hide MakeFill, CheckLimit;
    assert VisibleWalk(book, intent, config, levels[1..][1..], 1.0, true) == Walked([], 1.0, None);
  }

  const SAMPLE_BOOK := OrderBook("m", [Level(100.0, 1.0), Level(99.0, 1.0)],
                                 [Level(101.0, 1.0), Level(102.0, 1.0)], 7)

  /** One unit of `intent` at `price` in the sample book, at the default fee. */
  ghost function SampleFill(intent: Intent, price: real, exhausted: bool): Fill {
    Fill(intent.id, "m", intent.side, price, 1.0, 0.001 * price, "USDC", exhausted, 7, intent.paper)
  }

  /** Three units bought at the default configuration, without a limit and with one three per cent away. */
  lemma DefaultBuys(intent: Intent)
    requires (intent.side.Buy? || intent.side.BuyNo?) && intent.market == "m" && intent.size == 3.0
    requires intent.orderType.Market? || intent.limitPrice == Some(104.0)
    ensures var two := [SampleFill(intent, 101.0, false), SampleFill(intent, 102.0, false)];
            Walk(SAMPLE_BOOK, intent, DEFAULT_CONFIG)
            == Success(if intent.orderType.Market? then two + [SampleFill(intent, 107.1, true)] else two)
  {
    assert !IsWhitespace(DEFAULT_CONFIG.feeCurrency[0]);
    WalkTwo(SAMPLE_BOOK, intent, DEFAULT_CONFIG, Levels(SAMPLE_BOOK, intent.side));
  }

  /** The same order to sell. */
  lemma DefaultSells(intent: Intent)
    requires (intent.side.Sell? || intent.side.SellNo?) && intent.market == "m" && intent.size == 3.0
    requires intent.orderType.Market? || intent.limitPrice == Some(97.0)
    ensures var two := [SampleFill(intent, 100.0, false), SampleFill(intent, 99.0, false)];
            Walk(SAMPLE_BOOK, intent, DEFAULT_CONFIG)
            == Success(if intent.orderType.Market? then two + [SampleFill(intent, 99.0 / 1.05, true)] else two)
  {
    assert !IsWhitespace(DEFAULT_CONFIG.feeCurrency[0]);
    WalkTwo(SAMPLE_BOOK, intent, DEFAULT_CONFIG, Levels(SAMPLE_BOOK, intent.side));
  }

  // ---- Greedy optimality ----

  /** Any other way of spreading an order over the visible levels. */
  ghost predicate Allocation(alloc: seq<real>, levels: seq<Level>) {
    && |alloc| == |levels|
    && forall i :: 0 <= i < |alloc| ==> 0.0 <= alloc[i] <= levels[i].size
  }

  ghost function Sum(alloc: seq<real>): real {
    if alloc == [] then 0.0 else alloc[0] + Sum(alloc[1..])
  }

  ghost function Cost(alloc: seq<real>, levels: seq<Level>): real
    requires |alloc| == |levels|
  {
    if alloc == [] then 0.0 else Mul(levels[0].price, alloc[0]) + Cost(alloc[1..], levels[1..])
  }

  lemma Exchange(side: Side, pivot: real, price: real, greedy: real, other: real)
    requires price == pivot
             || (Worsens(side, price, pivot) && greedy >= other)
             || (Worsens(side, pivot, price) && greedy <= other)
    ensures Worsens(side, Mul(price, greedy) - Mul(pivot, greedy), Mul(price, other) - Mul(pivot, other))
  {
    var gap, excess := price - pivot, greedy - other;
    assert Mul(price, greedy) - Mul(pivot, greedy) - (Mul(price, other) - Mul(pivot, other)) == gap * excess;
  }

  /** Every unit moved between levels can only be moved to a price beyond the pivot. */
  lemma {:induction false} GreedyAgainstPivot(side: Side, fills: seq<Fill>, levels: seq<Level>, alloc: seq<real>,
                                              pivot: real)
    requires Consumes(fills, levels) && Allocation(alloc, levels)
    requires forall i :: 0 <= i < |levels| ==>
               if i < |fills| then Worsens(side, levels[i].price, pivot) else Worsens(side, pivot, levels[i].price)
    requires fills != [] ==> fills[|fills| - 1].price == pivot
    ensures Worsens(side, TotalNotional(fills) - Mul(pivot, TotalSize(fills)),
                    Cost(alloc, levels) - Mul(pivot, Sum(alloc)))
  {
    hide Mul;
    MulZero(pivot);
    if levels != [] {
      var price := levels[0].price;
      MulZero(price);
      if fills == [] {
        GreedyAgainstPivot(side, fills, levels[1..], alloc[1..], pivot);
        Exchange(side, pivot, price, 0.0, alloc[0]);
        Distribute(pivot, alloc[0], Sum(alloc[1..]));
      } else {
        GreedyAgainstPivot(side, fills[1..], levels[1..], alloc[1..], pivot);
        Exchange(side, pivot, price, fills[0].size, alloc[0]);
        Distribute(pivot, alloc[0], Sum(alloc[1..]));
        Distribute(pivot, fills[0].size, TotalSize(fills[1..]));
      }
    }
  }

  lemma Distribute(a: real, b: real, c: real)
    ensures Mul(a, b + c) == Mul(a, b) + Mul(a, c)
  {
  }

  /** No allocation of the same visible quantity is cheaper to buy or better paid to sell. */
  lemma GreedyOptimal(book: OrderBook, intent: Intent, config: FillConfig, fills: seq<Fill>, alloc: seq<real>)
    requires Valid(book) && Walk(book, intent, config) == Success(fills)
    requires Allocation(alloc, Levels(book, intent.side)) && Sum(alloc) == TotalSize(VisibleFills(fills))
    ensures Worsens(intent.side, TotalNotional(VisibleFills(fills)), Cost(alloc, Levels(book, intent.side)))
  {
    hide Mul, Walk, TotalSize, TotalNotional, Cost, Sum;
    WalkDiscipline(book, intent, config, fills);
    var levels, visible := Levels(book, intent.side), VisibleFills(fills);
    assert visible != [];
    GreedyAgainstPivot(intent.side, visible, levels, alloc, visible[|visible| - 1].price);
  }
}

/**
 * Market orders that cross to depth: what they cost, splitting one order into two, and why the
 * average price only gets worse with size.
 */
module MarketImpact {
  import opened Wrappers
  import opened Book
  import opened FillModel
  import opened FillTheorems

  /** Cost of `q` units: the levels in order, then everything else at the price `beyond`. */
  ghost function MarketCost(levels: seq<Level>, beyond: real, q: real): real
    decreases |levels|
  {
    if q <= 0.0 then 0.0
    else if levels == [] then Mul(beyond, q)
    else Mul(levels[0].price, Min(q, levels[0].size))
         + MarketCost(levels[1..], beyond, q - Min(q, levels[0].size))
  }

  ghost predicate FillFits(price: real, size: real, feeRate: real) {
    Representable(Mul(price, size)) && Representable(Mul(feeRate, Mul(price, size)))
  }

  /** Taking `q` units meets only positive prices and sizes and no unrepresentable number. */
  ghost predicate Fits(levels: seq<Level>, beyond: real, q: real, feeRate: real)
    decreases |levels|
  {
    q <= 0.0
    || (if levels == [] then beyond > 0.0 && Representable(beyond) && FillFits(beyond, q, feeRate)
        else
          && levels[0].price > 0.0 && levels[0].size > 0.0
          && FillFits(levels[0].price, Min(q, levels[0].size), feeRate)
          && Representable(q - Min(q, levels[0].size))
          && Fits(levels[1..], beyond, q - Min(q, levels[0].size), feeRate))
  }

  /** The price charged past the last of `levels`. */
  ghost function Beyond(side: Side, levels: seq<Level>, multiplier: real): real
    requires levels != [] && multiplier >= 1.0
  {
    var base := levels[|levels| - 1].price;
    if IsBuy(side) then Mul(base, multiplier) else base / multiplier
  }

  ghost predicate CrossingMarketOrder(book: OrderBook, intent: Intent, config: FillConfig) {
    && intent.orderType.Market? && config.aggressiveness.CrossToDepth?
    && Validate(config).None? && book.market == intent.market && intent.size > 0.0
    && Levels(book, intent.side) != []
  }

  lemma {:induction false} VisibleCost(book: OrderBook, intent: Intent, config: FillConfig, levels: seq<Level>,
                                       beyond: real, remaining: real, touched: bool)
    requires intent.orderType.Market? && config.aggressiveness.CrossToDepth?
    requires remaining >= 0.0
    ensures var v := VisibleWalk(book, intent, config, levels, remaining, touched);
            && (Fits(levels, beyond, remaining, config.feeRate) ==> v.Walked?)
            && (v.Walked? ==>
              && v.violation.None? && v.remaining >= 0.0
              && TotalNotional(v.fills) + Mul(beyond, v.remaining) == MarketCost(levels, beyond, remaining)
              && TotalSize(v.fills) + v.remaining == remaining
              && TotalFee(v.fills) == Mul(config.feeRate, TotalNotional(v.fills))
              && (Fits(levels, beyond, remaining, config.feeRate) <==> Fits([], beyond, v.remaining, config.feeRate)))
    decreases |levels|
  {
    hide Mul;
    MulZero(beyond);
    MulZero(config.feeRate);
    if levels != [] && remaining > 0.0 && levels[0].price > 0.0 && levels[0].size > 0.0 {
      var size := Min(remaining, levels[0].size);
      VisibleCost(book, intent, config, levels[1..], beyond, remaining - size, true);
      var v := VisibleWalk(book, intent, config, levels, remaining, touched);
      if v.Walked? {
        var rest := VisibleWalk(book, intent, config, levels[1..], remaining - size, true);
        var fill := MakeFill(book, intent, config, levels[0].price, size, false).value;
        assert v.fills == [fill] + rest.fills && v.fills[1..] == rest.fills;
        Distribute(config.feeRate, Mul(fill.price, fill.size), TotalNotional(rest.fills));
      }
    }
  }

  /** A crossing market order succeeds exactly when it fits, and then trades its whole size. */
  lemma CrossingWalk(book: OrderBook, intent: Intent, config: FillConfig)
    requires CrossingMarketOrder(book, intent, config)
    ensures var levels := Levels(book, intent.side);
            var beyond := Beyond(intent.side, levels, config.multiplier);
            && (Walk(book, intent, config).Success? <==> Fits(levels, beyond, intent.size, config.feeRate))
            && (Walk(book, intent, config).Success? ==>
              var fills := Walk(book, intent, config).value;
              && TotalSize(fills) == intent.size
              && TotalNotional(fills) == MarketCost(levels, beyond, intent.size)
              && TotalFee(fills) == Mul(config.feeRate, TotalNotional(fills)))
  {
    hide Mul;
    var levels := Levels(book, intent.side);
    var beyond := Beyond(intent.side, levels, config.multiplier);
    MulZero(beyond);
    VisibleCost(book, intent, config, levels, beyond, intent.size, false);
    var v := VisibleWalk(book, intent, config, levels, intent.size, false);
    if v.Walked? {
      VisibleShape(book, intent, config, levels, intent.size, false, v);
      if v.remaining > 0.0 {
        PositivePrice(book, intent, config, v.fills, levels);
        BeyondIsPositive(intent.side, levels, config.multiplier);
      }
      if v.remaining > 0.0 && Fits([], beyond, v.remaining, config.feeRate) {
        var f := MakeFill(book, intent, config, beyond, v.remaining, true).value;
        TotalsAppend(v.fills, f);
        Distribute(config.feeRate, TotalNotional(v.fills), Mul(beyond, v.remaining));
      }
    }
  }

  lemma BeyondIsPositive(side: Side, levels: seq<Level>, multiplier: real)
    requires levels != [] && multiplier >= 1.0 && levels[|levels| - 1].price > 0.0
    ensures Beyond(side, levels, multiplier) > 0.0
  {
    ScaledPrice(levels[|levels| - 1].price, multiplier);
  }

  // ---- Splitting one order into two ----

  ghost predicate Positive(levels: seq<Level>) {
    forall i :: 0 <= i < |levels| ==> levels[i].price > 0.0 && levels[i].size > 0.0
  }

  ghost function Depth(levels: seq<Level>): real {
    if levels == [] then 0.0 else levels[0].size + Depth(levels[1..])
  }

  /** The levels left after the best `q` units are taken. */
  ghost function Residual(levels: seq<Level>, q: real): seq<Level> {
    if levels == [] || q <= 0.0 then levels
    else if q < levels[0].size then [Level(levels[0].price, levels[0].size - q)] + levels[1..]
    else Residual(levels[1..], q - levels[0].size)
  }

  ghost function ResidualBook(book: OrderBook, side: Side, q: real): OrderBook {
    if IsBuy(side) then book.(asks := Residual(book.asks, q)) else book.(bids := Residual(book.bids, q))
  }

  lemma {:induction false} ResidualShape(levels: seq<Level>, q: real) returns (dropped: nat)
    requires Residual(levels, q) != []
    ensures dropped < |levels| && |Residual(levels, q)| == |levels| - dropped
    ensures forall i :: 0 <= i < |Residual(levels, q)| ==> Residual(levels, q)[i].price == levels[dropped + i].price
  {
    dropped := 0;
    if q > 0.0 && q >= levels[0].size {
      var k := ResidualShape(levels[1..], q - levels[0].size);
      dropped := k + 1;
      var rest := Residual(levels, q);
      assert forall i :: 0 <= i < |rest| ==> rest[i].price == levels[1..][k + i].price;
    }
  }

  /** An order leaves a level behind exactly if it is below the visible depth. */
  lemma {:induction false} ResidualBelowDepth(levels: seq<Level>, q: real)
    requires Positive(levels) && q >= 0.0
    ensures Residual(levels, q) != [] <==> q < Depth(levels)
  {
    if levels != [] {
      DepthIsNonnegative(levels[1..]);
      if q >= levels[0].size {
        ResidualBelowDepth(levels[1..], q - levels[0].size);
      }
    }
  }

  lemma {:induction false} DepthIsNonnegative(levels: seq<Level>)
    requires Positive(levels)
    ensures Depth(levels) >= 0.0
  {
    if levels != [] {
      DepthIsNonnegative(levels[1..]);
    }
  }

  lemma Shrink(price: real, small: real, large: real, feeRate: real)
    requires price >= 0.0 && feeRate >= 0.0 && 0.0 <= small <= large
    requires FillFits(price, large, feeRate)
    ensures FillFits(price, small, feeRate) && 0.0 <= Mul(price, small) <= Mul(price, large)
  {
    assert 0.0 <= Mul(price, small);
    assert 0.0 <= Mul(price, large - small);
    Distribute(price, small, large - small);
    assert 0.0 <= Mul(feeRate, Mul(price, small));
    assert 0.0 <= Mul(feeRate, Mul(price, large - small));
    Distribute(feeRate, Mul(price, small), Mul(price, large - small));
  }

  lemma {:induction false} SplitCost(levels: seq<Level>, beyond: real, s1: real, s2: real, feeRate: real)
    requires feeRate >= 0.0 && 0.0 <= s1 && 0.0 <= s2
    requires Fits(levels, beyond, s1 + s2, feeRate)
    ensures MarketCost(levels, beyond, s1 + s2)
            == MarketCost(levels, beyond, s1) + MarketCost(Residual(levels, s1), beyond, s2)
    ensures Fits(Residual(levels, s1), beyond, s2, feeRate)
    decreases |levels|
  {
    hide Mul;
    if s1 > 0.0 {
      if levels == [] {
        Distribute(beyond, s1, s2);
        Shrink(beyond, s2, s1 + s2, feeRate);
      } else if s1 < levels[0].size {
        var price, left := levels[0].price, levels[0].size - s1;
        var residual := Residual(levels, s1);
        assert residual[0] == Level(price, left) && residual[1..] == levels[1..];
        assert MarketCost(levels[1..], beyond, s1 - Min(s1, levels[0].size)) == 0.0;
        assert s1 + Min(s2, left) == Min(s1 + s2, levels[0].size);
        Distribute(price, s1, Min(s2, left));
        if s2 > 0.0 {
          Shrink(price, Min(s2, left), Min(s1 + s2, levels[0].size), feeRate);
          assert s2 - Min(s2, left) == s1 + s2 - Min(s1 + s2, levels[0].size);
        }
      } else {
        SplitCost(levels[1..], beyond, s1 - levels[0].size, s2, feeRate);
        assert s1 - levels[0].size + s2 == s1 + s2 - levels[0].size;
      }
    }
  }

  /** Asking for less can only remove obstacles. */
  lemma {:induction false} FitsLess(levels: seq<Level>, beyond: real, q1: real, q2: real, feeRate: real)
    requires feeRate >= 0.0 && 0.0 <= q1 <= q2
    requires Fits(levels, beyond, q2, feeRate)
    ensures Fits(levels, beyond, q1, feeRate)
    ensures 0.0 <= MarketCost(levels, beyond, q1) <= MarketCost(levels, beyond, q2)
    decreases |levels|
  {
    if q1 > 0.0 {
      if levels == [] {
        Shrink(beyond, q1, q2, feeRate);
      } else {
        var s := levels[0].size;
        Shrink(levels[0].price, Min(q1, s), Min(q2, s), feeRate);
        FitsLess(levels[1..], beyond, q1 - Min(q1, s), q2 - Min(q2, s), feeRate);
      }
    } else if q2 > 0.0 {
      if levels == [] {
        assert 0.0 <= Mul(beyond, q2);
      } else {
        assert 0.0 <= Mul(levels[0].price, Min(q2, levels[0].size));
        FitsLess(levels[1..], beyond, 0.0, q2 - Min(q2, levels[0].size), feeRate);
      }
    }
  }

  /** The residual book is ordered and ends at the same last price. */
  lemma ResidualBookShape(book: OrderBook, side: Side, q: real, multiplier: real)
    requires Valid(book) && Residual(Levels(book, side), q) != [] && multiplier >= 1.0
    ensures Valid(ResidualBook(book, side, q))
    ensures Levels(ResidualBook(book, side, q), side) == Residual(Levels(book, side), q) && Levels(book, side) != []
    ensures Beyond(side, Residual(Levels(book, side), q), multiplier) == Beyond(side, Levels(book, side), multiplier)
  {
    hide Mul, Depth;
    var dropped := ResidualShape(Levels(book, side), q);
  }

  /** Both halves of a fitting order fit, and their costs add up. */
  lemma SplitFits(levels: seq<Level>, beyond: real, s1: real, s2: real, feeRate: real)
    requires feeRate >= 0.0 && 0.0 < s1 && 0.0 < s2
    requires Fits(levels, beyond, s1 + s2, feeRate)
    ensures Fits(levels, beyond, s1, feeRate) && Fits(Residual(levels, s1), beyond, s2, feeRate)
    ensures var c1, c2 := MarketCost(levels, beyond, s1), MarketCost(Residual(levels, s1), beyond, s2);
            && MarketCost(levels, beyond, s1 + s2) == c1 + c2
            && Mul(feeRate, MarketCost(levels, beyond, s1 + s2)) == Mul(feeRate, c1) + Mul(feeRate, c2)
  {
    hide Mul, MarketCost, Fits, Residual;
    FitsLess(levels, beyond, s1, s1 + s2, feeRate);
    SplitCost(levels, beyond, s1, s2, feeRate);
    Distribute(feeRate, MarketCost(levels, beyond, s1), MarketCost(Residual(levels, s1), beyond, s2));
  }

  /**
   * Compositionality: one order of s1 + s2 pays exactly what two orders pay when the second
   * walks the book the first one left behind. The first order leaves a level if it is below the
   * visible depth (`ResidualBelowDepth`); levels that neither order reaches may be anything.
   */
  lemma SplitOrder(book: OrderBook, intent: Intent, config: FillConfig, s1: real, s2: real, whole: seq<Fill>)
    requires Valid(book) && CrossingMarketOrder(book, intent, config)
    requires 0.0 < s1 && 0.0 < s2 && intent.size == s1 + s2 && Residual(Levels(book, intent.side), s1) != []
    requires Walk(book, intent, config) == Success(whole)
    ensures Valid(ResidualBook(book, intent.side, s1))
    ensures var first := Walk(book, intent.(size := s1), config);
            var second := Walk(ResidualBook(book, intent.side, s1), intent.(size := s2), config);
            && first.Success? && second.Success?
            && TotalSize(first.value) == s1 && TotalSize(second.value) == s2
            && TotalNotional(whole) == TotalNotional(first.value) + TotalNotional(second.value)
            && TotalFee(whole) == TotalFee(first.value) + TotalFee(second.value)
  {
    hide Mul, Walk, MarketCost, Fits, Residual, Depth, TotalSize, TotalNotional, TotalFee;
    var levels := Levels(book, intent.side);
    var beyond := Beyond(intent.side, levels, config.multiplier);
    ResidualBookShape(book, intent.side, s1, config.multiplier);
    CrossingWalk(book, intent, config);
    SplitFits(levels, beyond, s1, s2, config.feeRate);
    CrossingWalk(book, intent.(size := s1), config);
    CrossingWalk(ResidualBook(book, intent.side, s1), intent.(size := s2), config);
  }

  // ---- The average price ----

  ghost predicate PricesWorsen(side: Side, levels: seq<Level>, beyond: real) {
    && (forall i, j :: 0 <= i < j < |levels| ==> Worsens(side, levels[i].price, levels[j].price))
    && (forall i :: 0 <= i < |levels| ==> Worsens(side, levels[i].price, beyond))
  }

  /** The price of the next unit after `q`. */
  ghost function MarginalPrice(levels: seq<Level>, beyond: real, q: real): real {
    if levels == [] then beyond
    else if q <= levels[0].size then levels[0].price
    else MarginalPrice(levels[1..], beyond, q - levels[0].size)
  }

  lemma ScaleWorsens(side: Side, p1: real, p2: real, q: real)
    requires Worsens(side, p1, p2) && q >= 0.0
    ensures Worsens(side, Mul(p1, q), Mul(p2, q))
  {
    assert Mul(p2, q) - Mul(p1, q) == (p2 - p1) * q;
  }

  /** No unit is priced better than `p` when no level is. */
  lemma {:induction false} CostBeyond(side: Side, levels: seq<Level>, beyond: real, p: real, q: real, feeRate: real)
    requires Fits(levels, beyond, q, feeRate) && q >= 0.0
    requires Worsens(side, p, beyond) && forall i :: 0 <= i < |levels| ==> Worsens(side, p, levels[i].price)
    ensures Worsens(side, Mul(p, q), MarketCost(levels, beyond, q))
    decreases |levels|
  {
    hide Mul;
    MulZero(p);
    if q > 0.0 {
      if levels == [] {
        ScaleWorsens(side, p, beyond, q);
      } else {
        var size := Min(q, levels[0].size);
        ScaleWorsens(side, p, levels[0].price, size);
        CostBeyond(side, levels[1..], beyond, p, q - size, feeRate);
        Distribute(p, size, q - size);
      }
    }
  }

  /** The marginal price separates what is already bought from what is bought next. */
  lemma {:induction false} Marginal(side: Side, levels: seq<Level>, beyond: real, q1: real, q2: real, feeRate: real)
    requires PricesWorsen(side, levels, beyond) && 0.0 < q1 <= q2
    requires Fits(levels, beyond, q2, feeRate)
    ensures var m := MarginalPrice(levels, beyond, q1);
            && Worsens(side, MarketCost(levels, beyond, q1), Mul(m, q1))
            && Worsens(side, Mul(m, q2 - q1), MarketCost(levels, beyond, q2) - MarketCost(levels, beyond, q1))
            && Worsens(side, m, beyond)
            && (levels != [] ==> Worsens(side, levels[0].price, m))
    decreases |levels|
  {
    hide Mul;
    if levels == [] {
      Distribute(beyond, q1, q2 - q1);
    } else {
      var p, s := levels[0].price, levels[0].size;
      if q1 <= s {
        assert MarketCost(levels[1..], beyond, q1 - Min(q1, s)) == 0.0;
        CostBeyond(side, levels, beyond, p, q2, feeRate);
        Distribute(p, q1, q2 - q1);
      } else {
        Marginal(side, levels[1..], beyond, q1 - s, q2 - s, feeRate);
        var m := MarginalPrice(levels[1..], beyond, q1 - s);
        if |levels| > 1 { assert Worsens(side, p, levels[1].price); }
        assert Worsens(side, p, m);
        ScaleWorsens(side, p, m, s);
        Distribute(m, s, q1 - s);
        assert q2 - s - (q1 - s) == q2 - q1;
      }
    }
  }

  /** A price above the average so far raises the average. */
  lemma RisingAverage(c1: real, c2: real, q1: real, q2: real, m: real)
    requires 0.0 < q1 <= q2
    requires c1 <= Mul(m, q1) && Mul(m, q2 - q1) <= c2 - c1
    ensures c1 / q1 <= c2 / q2
  {
    var a, b, d := c1 / q1, c2 / q2, q2 - q1;
    assert a * q1 == c1 && b * q2 == c2;
    assert (m - a) * q1 == Mul(m, q1) - c1;
    SignOfFactor(m - a, q1);
    assert (m - a) * d >= 0.0;
    assert a * q2 == a * q1 + a * d;
    assert (m - a) * d == Mul(m, d) - a * d;
    assert (b - a) * q2 == c2 - a * q2;
    SignOfFactor(b - a, q2);
  }

  lemma Averages(side: Side, c1: real, c2: real, q1: real, q2: real, m: real)
    requires 0.0 < q1 <= q2
    requires Worsens(side, c1, Mul(m, q1)) && Worsens(side, Mul(m, q2 - q1), c2 - c1)
    ensures Worsens(side, c1 / q1, c2 / q2)
  {
    if IsBuy(side) {
      RisingAverage(c1, c2, q1, q2, m);
    } else {
      assert Mul(-m, q1) == -Mul(m, q1) && Mul(-m, q2 - q1) == -Mul(m, q2 - q1);
      RisingAverage(-c1, -c2, q1, q2, -m);
      assert (-c1) / q1 == -(c1 / q1) && (-c2) / q2 == -(c2 / q2);
    }
  }

  lemma SignOfFactor(x: real, q: real)
    requires q > 0.0
    ensures x * q >= 0.0 ==> x >= 0.0
  {
  }

  /** The same statement about costs. */
  lemma AverageCost(side: Side, levels: seq<Level>, beyond: real, q1: real, q2: real, feeRate: real)
    requires PricesWorsen(side, levels, beyond) && levels != [] && 0.0 < q1 <= q2
    requires Fits(levels, beyond, q1, feeRate) && Fits(levels, beyond, q2, feeRate)
    ensures Worsens(side, levels[0].price, MarketCost(levels, beyond, q1) / q1)
    ensures Worsens(side, MarketCost(levels, beyond, q1) / q1, MarketCost(levels, beyond, q2) / q2)
  {
    hide Mul;
    var best, c1, c2 := levels[0].price, MarketCost(levels, beyond, q1), MarketCost(levels, beyond, q2);
    Marginal(side, levels, beyond, q1, q2, feeRate);
    Averages(side, c1, c2, q1, q2, MarginalPrice(levels, beyond, q1));
    CostBeyond(side, levels, beyond, best, q1, feeRate);
    NoBetterThan(side, best, c1, q1);
  }

  lemma NoBetterThan(side: Side, p: real, c: real, q: real)
    requires q > 0.0 && Worsens(side, Mul(p, q), c)
    ensures Worsens(side, p, c / q)
  {
    var average := c / q;
    assert c == Mul(average, q);
    assert (average - p) * q == c - Mul(p, q);
    SignOfFactor(average - p, q);
    assert (p - average) * q == Mul(p, q) - c;
    SignOfFactor(p - average, q);
  }

  /** A level that cannot be traded is never passed, so the price beyond the book plays no part. */
  lemma {:induction false} BeyondUnreached(levels: seq<Level>, beyond: real, other: real, q: real, feeRate: real)
    requires !Positive(levels) && Fits(levels, beyond, q, feeRate)
    ensures Fits(levels, other, q, feeRate) && MarketCost(levels, other, q) == MarketCost(levels, beyond, q)
    decreases |levels|
  {
    if q > 0.0 {
      BeyondUnreached(levels[1..], beyond, other, q - Min(q, levels[0].size), feeRate);
    }
  }

  /** Prices of a book worsen up to its last level, and a positive last level leaves a worse price beyond it. */
  lemma BookPricesWorsen(book: OrderBook, side: Side, multiplier: real)
    requires Valid(book) && Levels(book, side) != [] && multiplier >= 1.0
    ensures var levels := Levels(book, side);
            var last := levels[|levels| - 1].price;
            && PricesWorsen(side, levels, last)
            && (last > 0.0 ==> PricesWorsen(side, levels, Beyond(side, levels, multiplier)))
  {
    hide Mul;
    var levels := Levels(book, side);
    if levels[|levels| - 1].price > 0.0 {
      ScaledPrice(levels[|levels| - 1].price, multiplier);
    }
  }

  /** The average price paid never improves with size, within and past the visible depth. */
  lemma AverageWorsens(book: OrderBook, intent: Intent, config: FillConfig, smaller: real)
    requires Valid(book) && CrossingMarketOrder(book, intent, config) && 0.0 < smaller <= intent.size
    requires Walk(book, intent, config).Success?
    ensures var less := Walk(book, intent.(size := smaller), config);
            var more := Walk(book, intent, config);
            var best := Levels(book, intent.side)[0].price;
            && less.Success? && best > 0.0
            && TotalSize(less.value) == smaller && TotalSize(more.value) == intent.size
            && 0.0 <= TotalNotional(less.value) <= TotalNotional(more.value)
            && Worsens(intent.side, best, TotalNotional(less.value) / smaller)
            && Worsens(intent.side, TotalNotional(less.value) / smaller, TotalNotional(more.value) / intent.size)
  {
    hide Mul;
    var levels, side, q := Levels(book, intent.side), intent.side, intent.size;
    var beyond := Beyond(side, levels, config.multiplier);
    CrossingWalk(book, intent, config);
    FitsLess(levels, beyond, smaller, q, config.feeRate);
    CrossingWalk(book, intent.(size := smaller), config);
    BookPricesWorsen(book, side, config.multiplier);
    var last := levels[|levels| - 1].price;
    if last > 0.0 {
      AverageCost(side, levels, beyond, smaller, q, config.feeRate);
    } else {
      assert !Positive(levels);
      BeyondUnreached(levels, beyond, last, smaller, config.feeRate);
      BeyondUnreached(levels, beyond, last, q, config.feeRate);
      AverageCost(side, levels, last, smaller, q, config.feeRate);
    }
  }
}

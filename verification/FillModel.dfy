/**
 * The book-walk fill model (crates/aether-fillmodel/src/walk.rs, config.rs).
 *
 * `Walk` says what a walk returns, `WalkBook` is the loop that computes it.
 * Decimal values are exact reals; exceeding the representable range is the explicit
 * `ArithmeticOverflow` outcome of the checked operations.
 */
module FillModel {
  import opened Wrappers
  import opened Book

  datatype Side = Buy | Sell | BuyNo | SellNo

  datatype OrderType = Limit | Market

  datatype Aggressiveness = PassiveAtTouch | CrossToDepth

  datatype Intent = Intent(id: string, market: string, side: Side, orderType: OrderType,
                           limitPrice: Option<real>, size: real, paper: bool)

  /** `exhausted` stands for the depth_exhausted tag of the venue reference. */
  datatype Fill = Fill(orderId: string, market: string, side: Side, price: real, size: real,
                       fee: real, feeCurrency: string, exhausted: bool, ts: int, paper: bool)

  datatype Violation = Violation(limit: real, price: real)

  datatype FillError =
    | NoLiquidity(market: string, side: Side)
    | InsufficientDepth(market: string, filled: real, requested: real)
    | LimitViolation(limit: real, fillPrice: real)
    | MarketMismatch(bookMarket: string, intentMarket: string)
    | InvalidInput(message: string)
    | ArithmeticOverflow(what: string)
    | ArithmeticPanic(what: string)

  // ---- Checked decimal arithmetic ----

  const DECIMAL_MAX := 79228162514264337593543950335.0

  predicate Representable(x: real) {
    -DECIMAL_MAX <= x <= DECIMAL_MAX
  }

  function Mul(a: real, b: real): real {
    a * b
  }

  function CheckedMul(a: real, b: real): Option<real> {
    if Representable(Mul(a, b)) then Some(Mul(a, b)) else None
  }

  function CheckedDiv(a: real, b: real): Option<real> {
    if b == 0.0 || !Representable(a / b) then None else Some(a / b)
  }

  function CheckedSub(a: real, b: real): Option<real> {
    if Representable(a - b) then Some(a - b) else None
  }

  // ---- Configuration ----

  datatype FillConfig = FillConfig(aggressiveness: Aggressiveness, multiplier: real,
                                   feeRate: real, feeCurrency: string)

  const DEFAULT_CONFIG := FillConfig(CrossToDepth, 1.05, 0.001, "USDC")

  /** Unicode White_Space, the set `trim` strips. */
  predicate IsWhitespace(c: char) {
    '\U{9}' <= c <= '\U{D}' || c == ' ' || c == '\U{85}' || c == '\U{A0}' || c == '\U{1680}'
    || '\U{2000}' <= c <= '\U{200A}' || c == '\U{2028}' || c == '\U{2029}' || c == '\U{202F}'
    || c == '\U{205F}' || c == '\U{3000}'
  }

  predicate IsBlank(s: string) {
    forall i :: 0 <= i < |s| ==> IsWhitespace(s[i])
  }

  function Validate(config: FillConfig): Option<string> {
    if config.multiplier < 1.0 then Some("depth exhaustion multiplier must be at least 1")
    else if config.feeRate < 0.0 then Some("fee rate cannot be negative")
    else if IsBlank(config.feeCurrency) then Some("fee currency cannot be empty")
    else None
  }

  // ---- One level ----

  predicate IsBuy(side: Side) {
    side.Buy? || side.BuyNo?
  }

  /** The levels an order consumes, best first. */
  function Levels(book: OrderBook, side: Side): seq<Level> {
    if IsBuy(side) then book.asks else book.bids
  }

  predicate Violates(side: Side, price: real, limit: real) {
    if IsBuy(side) then price > limit else price < limit
  }

  function CheckLimit(intent: Intent, price: real): Result<Option<Violation>, FillError> {
    if intent.orderType.Market? then Success(None)
    else match intent.limitPrice
      case None => Failure(InvalidInput("limit order requires limit_price"))
      case Some(limit) =>
        if Violates(intent.side, price, limit) then Success(Some(Violation(limit, price)))
        else Success(None)
  }

  function MakeFill(book: OrderBook, intent: Intent, config: FillConfig, price: real, size: real,
                    exhausted: bool): Result<Fill, FillError>
  {
    match CheckedMul(price, size)
    case None => Failure(ArithmeticOverflow(
      if exhausted then "exhausted fill notional" else "visible fill notional"))
    case Some(notional) =>
      match CheckedMul(config.feeRate, notional)
      case None => Failure(ArithmeticOverflow(
        if exhausted then "exhausted fill fee" else "visible fill fee"))
      case Some(fee) =>
        Success(Fill(intent.id, intent.market, intent.side, price, size, fee, config.feeCurrency,
                     exhausted, book.ts, intent.paper))
  }

  function Min(a: real, b: real): real {
    if a <= b then a else b
  }

  // ---- The walk ----

  datatype Visible =
    | Walked(fills: seq<Fill>, remaining: real, violation: Option<Violation>)
    | Stopped(error: FillError)

  function Prepend(fills: seq<Fill>, v: Visible): Visible {
    match v
    case Walked(rest, remaining, violation) => Walked(fills + rest, remaining, violation)
    case Stopped(_) => v
  }

  const BAD_LEVEL := InvalidInput("book levels must have positive price and size")

  /** What walking `levels` yields when `remaining` is still wanted. */
  function VisibleWalk(book: OrderBook, intent: Intent, config: FillConfig, levels: seq<Level>,
                       remaining: real, touched: bool): Visible
    decreases |levels|
  {
    if levels == [] || remaining <= 0.0 || (config.aggressiveness.PassiveAtTouch? && touched) then
      Walked([], remaining, None)
    else if levels[0].price <= 0.0 || levels[0].size <= 0.0 then
      Stopped(BAD_LEVEL)
    else match CheckLimit(intent, levels[0].price)
      case Failure(error) => Stopped(error)
      case Success(Some(violation)) => Walked([], remaining, Some(violation))
      case Success(None) =>
        var size := Min(remaining, levels[0].size);
        match MakeFill(book, intent, config, levels[0].price, size, false)
        case Failure(error) => Stopped(error)
        case Success(fill) =>
          match CheckedSub(remaining, size)
          case None => Stopped(ArithmeticOverflow("remaining size"))
          case Some(left) =>
            Prepend([fill], VisibleWalk(book, intent, config, levels[1..], left, true))
  }

  function ExhaustionPrice(side: Side, base: real, multiplier: real): Result<real, FillError> {
    if IsBuy(side) then
      match CheckedMul(base, multiplier)
      case Some(price) => Success(price)
      case None => Failure(ArithmeticOverflow("buy exhaustion price"))
    else
      match CheckedDiv(base, multiplier)
      case Some(price) => Success(price)
      case None => Failure(ArithmeticOverflow("sell exhaustion price"))
  }

  /** Extrapolates `v.remaining` past the last visible level, if the order asks for it. */
  function Extrapolate(book: OrderBook, intent: Intent, config: FillConfig, base: real, v: Visible): Visible
    requires v.Walked?
  {
    if v.remaining <= 0.0 || v.violation.Some? || config.aggressiveness.PassiveAtTouch? then v
    else match ExhaustionPrice(intent.side, base, config.multiplier)
      case Failure(error) => Stopped(error)
      case Success(price) =>
        match CheckLimit(intent, price)
        case Failure(error) => Stopped(error)
        case Success(Some(violation)) => Walked(v.fills, v.remaining, Some(violation))
        case Success(None) =>
          match MakeFill(book, intent, config, price, v.remaining, true)
          case Failure(error) => Stopped(error)
          case Success(fill) => Walked(v.fills + [fill], 0.0, None)
  }

  function Conclude(intent: Intent, v: Visible): Result<seq<Fill>, FillError> {
    match v
    case Stopped(error) => Failure(error)
    case Walked(fills, _, violation) =>
      if fills != [] then Success(fills)
      else match violation
        case Some(Violation(limit, price)) => Failure(LimitViolation(limit, price))
        case None => Failure(InsufficientDepth(intent.market, 0.0, intent.size))
  }

  function Walk(book: OrderBook, intent: Intent, config: FillConfig): Result<seq<Fill>, FillError> {
    var levels := Levels(book, intent.side);
    match Validate(config)
    case Some(message) => Failure(InvalidInput(message))
    case None =>
      if book.market != intent.market then Failure(MarketMismatch(book.market, intent.market))
      else if intent.size <= 0.0 then Failure(InvalidInput("intent size must be positive"))
      else if levels == [] then Failure(NoLiquidity(intent.market, intent.side))
      else
        var v := VisibleWalk(book, intent, config, levels, intent.size, false);
        Conclude(intent,
                 if v.Stopped? then v
                 else Extrapolate(book, intent, config, levels[|levels| - 1].price, v))
  }

  lemma PrependTwice(fills: seq<Fill>, f: Fill, v: Visible)
    ensures Prepend(fills, Prepend([f], v)) == Prepend(fills + [f], v)
  {
    assert v.Walked? ==> fills + ([f] + v.fills) == fills + [f] + v.fills;
  }

  /** The greedy loop over the levels. */
  method WalkVisible(book: OrderBook, intent: Intent, config: FillConfig, levels: seq<Level>) returns (v: Visible)
    ensures v == VisibleWalk(book, intent, config, levels, intent.size, false)
  {
    hide MakeFill, CheckedSub, CheckLimit, Min;
    var fills: seq<Fill> := [];
    var remaining := intent.size;
    var i := 0;
    ghost var whole := VisibleWalk(book, intent, config, levels, intent.size, false);
    assert levels[0..] == levels;
    while i < |levels| && remaining > 0.0 && !(config.aggressiveness.PassiveAtTouch? && fills != [])
      invariant 0 <= i <= |levels|
      invariant whole == Prepend(fills, VisibleWalk(book, intent, config, levels[i..], remaining, fills != []))
    {
      var level := levels[i];
      assert levels[i..][0] == level && levels[i..][1..] == levels[i + 1..];
      if level.price <= 0.0 || level.size <= 0.0 {
        return Stopped(BAD_LEVEL);
      }
      var check := CheckLimit(intent, level.price);
      if check.Failure? {
        return Stopped(check.error);
      }
      if check.value.Some? {
        return Walked(fills, remaining, check.value);
      }
      var size := Min(remaining, level.size);
      var fill := MakeFill(book, intent, config, level.price, size, false);
      if fill.Failure? {
        return Stopped(fill.error);
      }
      var left := CheckedSub(remaining, size);
      if left.None? {
        return Stopped(ArithmeticOverflow("remaining size"));
      }
      PrependTwice(fills, fill.value, VisibleWalk(book, intent, config, levels[i + 1..], left.value, true));
      fills := fills + [fill.value];
      remaining := left.value;
      i := i + 1;
    }
    return Walked(fills, remaining, None);
  }

  method WalkBook(book: OrderBook, intent: Intent, config: FillConfig)
    returns (r: Result<seq<Fill>, FillError>)
    ensures r == Walk(book, intent, config)
  {
    hide VisibleWalk, Mul, Representable;
    var problem := Validate(config);
    if problem.Some? {
      return Failure(InvalidInput(problem.value));
    }
    if book.market != intent.market {
      return Failure(MarketMismatch(book.market, intent.market));
    }
    if intent.size <= 0.0 {
      return Failure(InvalidInput("intent size must be positive"));
    }
    var levels := Levels(book, intent.side);
    if levels == [] {
      return Failure(NoLiquidity(intent.market, intent.side));
    }
    var v := WalkVisible(book, intent, config, levels);
    if v.Walked? && v.remaining > 0.0 && v.violation.None? && config.aggressiveness.CrossToDepth? {
      v := FillPastDepth(book, intent, config, levels[|levels| - 1].price, v);
    }
    if v.Stopped? {
      return Failure(v.error);
    }
    if v.fills == [] {
      if v.violation.Some? {
        return Failure(LimitViolation(v.violation.value.limit, v.violation.value.price));
      }
      return Failure(InsufficientDepth(intent.market, 0.0, intent.size));
    }
    return Success(v.fills);
  }

  /** Extrapolates the rest of the order beyond the last visible price. */
  method FillPastDepth(book: OrderBook, intent: Intent, config: FillConfig, base: real, v: Visible) returns (w: Visible)
    requires v.Walked? && v.remaining > 0.0 && v.violation.None? && config.aggressiveness.CrossToDepth?
    ensures w == Extrapolate(book, intent, config, base, v)
  {
    hide Mul, Representable;
    var price := ExhaustionPrice(intent.side, base, config.multiplier);
    if price.Failure? {
      return Stopped(price.error);
    }
    var check := CheckLimit(intent, price.value);
    if check.Failure? {
      return Stopped(check.error);
    }
    if check.value.Some? {
      return Walked(v.fills, v.remaining, check.value);
    }
    var fill := MakeFill(book, intent, config, price.value, v.remaining, true);
    if fill.Failure? {
      return Stopped(fill.error);
    }
    return Walked(v.fills + [fill.value], 0.0, None);
  }
}

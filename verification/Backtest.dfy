/**
 * The threshold backtester (crates/aether-agents/src/backtest.rs). Money is counted in minor
 * units of 64 bits; sums are unbounded here and leaving the range is the Arithmetic error.
 */
module Backtest {
  import opened Wrappers

  const I64_MAX := 0x7FFF_FFFF_FFFF_FFFF
  const I64_MIN := -0x8000_0000_0000_0000

  type Price = p: int | I64_MIN <= p <= I64_MAX

  type U32 = n: int | 0 <= n < 0x1_0000_0000

  datatype Tick = Tick(timestampMs: int, price: Price)

  /** `payload` is what decoding the event's bytes yields. */
  datatype CapturedEvent = CapturedEvent(eventType: string, payload: Option<Tick>)

  datatype Strategy = Strategy(buyBelow: Price, sellAbove: Price, feeBps: U32, slippageBps: U32)

  datatype BacktestError = InvalidStrategy | InvalidTick | NoTicks | Arithmetic | Json

  datatype Report = Report(startMs: int, endMs: int, eventCount: nat, roundTrips: nat, forcedExits: nat,
                           gross: int, fees: int, slippage: int, net: int)

  predicate Sound(s: Strategy) {
    s.buyBelow > 0 && s.sellAbove > s.buyBelow && s.feeBps <= 10000 && s.slippageBps <= 10000
  }

  method ValidateStrategy(s: Strategy) returns (error: Option<BacktestError>)
    ensures error == if Sound(s) then None else Some(InvalidStrategy)
  {
    if s.buyBelow <= 0 || s.sellAbove <= s.buyBelow || s.feeBps > 10000 || s.slippageBps > 10000 {
      return Some(InvalidStrategy);
    }
    return None;
  }

  predicate InRange(x: int) {
    I64_MIN <= x <= I64_MAX
  }

  /** The ticks of a capture; the first undecodable or nonpositive one decides the error. */
  function DecodeTicks(events: seq<CapturedEvent>): Result<seq<Tick>, BacktestError> {
    if events == [] then Success([])
    else if events[0].eventType != "strategy_tick" then DecodeTicks(events[1..])
    else match events[0].payload
      case None => Failure(Json)
      case Some(tick) =>
        if tick.price <= 0 then Failure(InvalidTick)
        else match DecodeTicks(events[1..])
          case Failure(e) => Failure(e)
          case Success(rest) => Success([tick] + rest)
  }

  /** Basis points of a value, rounded up. The exact quotient fits the decimal type. */
  function BpsCost(value: int, bps: int): int {
    -((-(value * bps)) / 10000)
  }

  // ---- Specification: the round trips of a tick list ----

  datatype RoundTrip = RoundTrip(entry: int, exit: int, forced: bool)

  /** The trips closed by `ticks`, starting with the position `entry`. */
  function Trips(ticks: seq<Tick>, s: Strategy, entry: Option<int>): seq<RoundTrip> {
    if ticks == [] then []
    else
      var price := ticks[0].price;
      match entry
      case None => Trips(ticks[1..], s, if price <= s.buyBelow then Some(price) else None)
      case Some(bought) =>
        if price >= s.sellAbove then [RoundTrip(bought, price, false)] + Trips(ticks[1..], s, None)
        else Trips(ticks[1..], s, entry)
  }

  /** The position still open after `ticks`. */
  function OpenAt(ticks: seq<Tick>, s: Strategy, entry: Option<int>): Option<int> {
    if ticks == [] then entry
    else
      var price := ticks[0].price;
      OpenAt(ticks[1..], s,
             if entry.None? then (if price <= s.buyBelow then Some(price) else None)
             else if price >= s.sellAbove then None else entry)
  }

  /** All trips, the last one closed by force if the period ends with a position. */
  function AllTrips(ticks: seq<Tick>, s: Strategy): seq<RoundTrip>
    requires ticks != []
  {
    Trips(ticks, s, None)
    + (match OpenAt(ticks, s, None)
       case None => []
       case Some(bought) => [RoundTrip(bought, ticks[|ticks| - 1].price, true)])
  }

  datatype Totals = Totals(gross: int, fees: int, slippage: int)

  function TripTotals(trips: seq<RoundTrip>, s: Strategy): Totals {
    if trips == [] then Totals(0, 0, 0)
    else
      var front, last := TripTotals(trips[..|trips| - 1], s), trips[|trips| - 1];
      Totals(front.gross + last.exit - last.entry,
             front.fees + BpsCost(last.entry, s.feeBps) + BpsCost(last.exit, s.feeBps),
             front.slippage + BpsCost(last.entry, s.slippageBps) + BpsCost(last.exit, s.slippageBps))
  }

  /** What the period yields, before any limit of the number type. */
  function Ideal(ticks: seq<Tick>, s: Strategy): Report
    requires ticks != []
  {
    var trips := AllTrips(ticks, s);
    var t := TripTotals(trips, s);
    Report(ticks[0].timestampMs, ticks[|ticks| - 1].timestampMs, |ticks|, |trips|,
           if OpenAt(ticks, s, None).Some? then 1 else 0, t.gross, t.fees, t.slippage, t.gross - t.fees - t.slippage)
  }

  /** The exact condition under which no checked operation overflows. */
  predicate Fits(ticks: seq<Tick>, s: Strategy)
    requires ticks != []
  {
    var closed := TripTotals(Trips(ticks, s, None), s);
    var all := TripTotals(AllTrips(ticks, s), s);
    closed.gross <= I64_MAX && all.gross <= I64_MAX && all.fees <= I64_MAX && all.slippage <= I64_MAX
    && all.gross - all.fees >= I64_MIN && all.gross - all.fees - all.slippage >= I64_MIN
  }

  function Outcome(events: seq<CapturedEvent>, s: Strategy): Result<Report, BacktestError> {
    if !Sound(s) then Failure(InvalidStrategy)
    else match DecodeTicks(events)
      case Failure(e) => Failure(e)
      case Success(ticks) =>
        if ticks == [] then Failure(NoTicks)
        else if Fits(ticks, s) then Success(Ideal(ticks, s)) else Failure(Arithmetic)
  }

  // ---- Facts about the specification ----

  lemma {:induction false} BpsBounds(value: int, bps: int)
    requires 0 <= value && 0 <= bps <= 10000
    ensures 0 <= BpsCost(value, bps) <= value
    ensures value * bps <= 10000 * BpsCost(value, bps) < value * bps + 10000
  {
    assert 0 <= value * bps <= value * 10000;
  }

  ghost predicate PositiveTicks(ticks: seq<Tick>) {
    forall t <- ticks :: t.price > 0
  }

  ghost predicate PositiveTrips(trips: seq<RoundTrip>) {
    forall t <- trips :: 0 < t.entry <= I64_MAX && 0 < t.exit <= I64_MAX
  }

  lemma {:induction false} DecodedArePositive(events: seq<CapturedEvent>)
    ensures DecodeTicks(events).Success? ==> PositiveTicks(DecodeTicks(events).value)
  {
    if events != [] {
      DecodedArePositive(events[1..]);
    }
  }

  lemma {:induction false} TripsShape(ticks: seq<Tick>, s: Strategy, entry: Option<int>)
    requires PositiveTicks(ticks) && (entry.Some? ==> 0 < entry.value <= s.buyBelow)
    ensures PositiveTrips(Trips(ticks, s, entry))
    ensures forall t <- Trips(ticks, s, entry) :: !t.forced && t.entry <= s.buyBelow && s.sellAbove <= t.exit
    ensures OpenAt(ticks, s, entry).Some? ==> 0 < OpenAt(ticks, s, entry).value <= s.buyBelow
    decreases |ticks|
  {
    if ticks != [] {
      var price := ticks[0].price;
      assert ticks[0] in ticks;
      TripsShape(ticks[1..], s,
                 if entry.None? then (if price <= s.buyBelow then Some(price) else None)
                 else if price >= s.sellAbove then None else entry);
    }
  }

  lemma {:induction false} TripsAppend(ticks: seq<Tick>, s: Strategy, entry: Option<int>, tick: Tick)
    ensures var open := OpenAt(ticks, s, entry);
            && Trips(ticks + [tick], s, entry)
               == Trips(ticks, s, entry)
                  + (if open.Some? && tick.price >= s.sellAbove then [RoundTrip(open.value, tick.price, false)] else [])
            && OpenAt(ticks + [tick], s, entry)
               == (if open.None? then (if tick.price <= s.buyBelow then Some(tick.price) else None)
                   else if tick.price >= s.sellAbove then None else open)
    decreases |ticks|
  {
    if ticks == [] {
      assert ([] + [tick])[1..] == [];
    } else {
      assert (ticks + [tick])[1..] == ticks[1..] + [tick];
      var price := ticks[0].price;
      TripsAppend(ticks[1..], s,
                  if entry.None? then (if price <= s.buyBelow then Some(price) else None)
                  else if price >= s.sellAbove then None else entry, tick);
    }
  }

  lemma TotalsAppend(trips: seq<RoundTrip>, s: Strategy, t: RoundTrip)
    ensures var before := TripTotals(trips, s);
            TripTotals(trips + [t], s)
            == Totals(before.gross + t.exit - t.entry,
                      before.fees + BpsCost(t.entry, s.feeBps) + BpsCost(t.exit, s.feeBps),
                      before.slippage + BpsCost(t.entry, s.slippageBps) + BpsCost(t.exit, s.slippageBps))
  {
    assert (trips + [t])[..|trips|] == trips;
  }

  /** Costs never fall along the trips, and neither does the profit of unforced ones. */
  lemma {:induction false} TotalsGrow(trips: seq<RoundTrip>, s: Strategy, n: nat)
    requires Sound(s) && PositiveTrips(trips) && n <= |trips|
    ensures var early, late := TripTotals(trips[..n], s), TripTotals(trips, s);
            && 0 <= early.fees <= late.fees && 0 <= early.slippage <= late.slippage
            && ((forall t <- trips :: t.entry <= t.exit) ==> 0 <= early.gross <= late.gross)
    decreases |trips|
  {
    if trips == [] {
      assert trips[..n] == [];
    } else {
      var front, last := trips[..|trips| - 1], trips[|trips| - 1];
      assert last in trips && forall t <- front :: t in trips;
      BpsBounds(last.entry, s.feeBps);
      BpsBounds(last.exit, s.feeBps);
      BpsBounds(last.entry, s.slippageBps);
      BpsBounds(last.exit, s.slippageBps);
      if n == |trips| {
        assert trips[..n] == trips;
        TotalsGrow(front, s, |front|);
        assert front[..|front|] == front;
      } else {
        assert front[..n] == trips[..n];
        TotalsGrow(front, s, n);
      }
    }
  }

  // ---- The loop ----

  function CheckedAdd(a: int, b: int): Option<int> {
    if InRange(a + b) then Some(a + b) else None
  }

  /** The three checked accumulations of one exit. */
  method CloseTrip(t: Totals, s: Strategy, entry: int, exit: int) returns (r: Option<Totals>)
    ensures var after := Totals(t.gross + (exit - entry),
                                t.fees + BpsCost(entry, s.feeBps) + BpsCost(exit, s.feeBps),
                                t.slippage + BpsCost(entry, s.slippageBps) + BpsCost(exit, s.slippageBps));
            && (r.Some? ==> r.value == after)
            && (r.Some? <==>
                  && InRange(after.gross)
                  && InRange(t.fees + BpsCost(entry, s.feeBps)) && InRange(after.fees)
                  && InRange(t.slippage + BpsCost(entry, s.slippageBps)) && InRange(after.slippage))
  {
    var gross := CheckedAdd(t.gross, exit - entry);
    if gross.None? { return None; }
    var half := CheckedAdd(t.fees, BpsCost(entry, s.feeBps));
    if half.None? { return None; }
    var fees := CheckedAdd(half.value, BpsCost(exit, s.feeBps));
    if fees.None? { return None; }
    half := CheckedAdd(t.slippage, BpsCost(entry, s.slippageBps));
    if half.None? { return None; }
    var slippage := CheckedAdd(half.value, BpsCost(exit, s.slippageBps));
    if slippage.None? { return None; }
    return Some(Totals(gross.value, fees.value, slippage.value));
  }

  /** Closing one more trip succeeds exactly when the new totals are in range. */
  lemma CloseTripFits(t: Totals, s: Strategy, entry: int, exit: int)
    requires Sound(s) && 0 < entry <= I64_MAX && 0 < exit <= I64_MAX
    requires 0 <= t.fees <= I64_MAX && 0 <= t.slippage <= I64_MAX
    ensures 0 <= BpsCost(entry, s.feeBps) && 0 <= BpsCost(exit, s.feeBps)
    ensures 0 <= BpsCost(entry, s.slippageBps) && 0 <= BpsCost(exit, s.slippageBps)
  {
    BpsBounds(entry, s.feeBps);
    BpsBounds(exit, s.feeBps);
    BpsBounds(entry, s.slippageBps);
    BpsBounds(exit, s.slippageBps);
  }

  datatype Scan = Scan(totals: Totals, entry: Option<int>, roundTrips: nat)

  ghost predicate Scanned(ticks: seq<Tick>, s: Strategy, scan: Scan) {
    var trips := Trips(ticks, s, None);
    && scan.entry == OpenAt(ticks, s, None) && scan.totals == TripTotals(trips, s) && scan.roundTrips == |trips|
    && 0 <= scan.totals.gross <= I64_MAX && 0 <= scan.totals.fees <= I64_MAX && 0 <= scan.totals.slippage <= I64_MAX
  }

  /** One turn of the loop. */
  method Turn(ghost before: seq<Tick>, tick: Tick, s: Strategy, scan: Scan) returns (r: Option<Scan>)
    requires Sound(s) && PositiveTicks(before) && tick.price > 0 && Scanned(before, s, scan)
    ensures r.Some? ==> Scanned(before + [tick], s, r.value)
    ensures r.None? ==>
              var t := TripTotals(Trips(before + [tick], s, None), s);
              t.gross > I64_MAX || t.fees > I64_MAX || t.slippage > I64_MAX
  {
    TripsAppend(before, s, None, tick);
    TripsShape(before, s, None);
    assert Trips(before, s, None) + [] == Trips(before, s, None);
    if scan.entry.None? && tick.price <= s.buyBelow {
      return Some(scan.(entry := Some(tick.price)));
    }
    if scan.entry.Some? && tick.price >= s.sellAbove {
      TotalsAppend(Trips(before, s, None), s, RoundTrip(scan.entry.value, tick.price, false));
      CloseTripFits(scan.totals, s, scan.entry.value, tick.price);
      var closed := CloseTrip(scan.totals, s, scan.entry.value, tick.price);
      return if closed.None? then None else Some(Scan(closed.value, None, scan.roundTrips + 1));
    }
    return Some(scan);
  }

  method ScanTicks(ticks: seq<Tick>, s: Strategy) returns (r: Option<Scan>)
    requires Sound(s) && PositiveTicks(ticks) && ticks != []
    ensures if r.Some? then Scanned(ticks, s, r.value) else !Fits(ticks, s)
  {
    var scan := Scan(Totals(0, 0, 0), None, 0);
    for i := 0 to |ticks|
      invariant Scanned(ticks[..i], s, scan)
    {
      assert ticks[..i + 1] == ticks[..i] + [ticks[i]];
      assert forall t <- ticks[..i] :: t in ticks;
      assert ticks[i] in ticks;
      var next := Turn(ticks[..i], ticks[i], s, scan);
      if next.None? {
        OverflowIsFinal(ticks, s, i + 1);
        return None;
      }
      scan := next.value;
    }
    assert ticks[..|ticks|] == ticks;
    return Some(scan);
  }

  /** The forced exit at the end of the period, and the net result. */
  method Settle(ticks: seq<Tick>, s: Strategy, scan: Scan) returns (r: Option<Report>)
    requires Sound(s) && PositiveTicks(ticks) && ticks != [] && Scanned(ticks, s, scan)
    ensures r == if Fits(ticks, s) then Some(Ideal(ticks, s)) else None
  {
    var totals, roundTrips, forced := scan.totals, scan.roundTrips, 0;
    if scan.entry.Some? {
      var last := ticks[|ticks| - 1].price;
      assert ticks[|ticks| - 1] in ticks;
      TripsShape(ticks, s, None);
      TotalsAppend(Trips(ticks, s, None), s, RoundTrip(scan.entry.value, last, true));
      CloseTripFits(totals, s, scan.entry.value, last);
      var closed := CloseTrip(totals, s, scan.entry.value, last);
      if closed.None? {
        return None;
      }
      totals, roundTrips, forced := closed.value, roundTrips + 1, 1;
    } else {
      assert AllTrips(ticks, s) == Trips(ticks, s, None);
    }
    var afterFees := totals.gross - totals.fees;
    if !InRange(afterFees) || !InRange(afterFees - totals.slippage) {
      return None;
    }
    return Some(Report(ticks[0].timestampMs, ticks[|ticks| - 1].timestampMs, |ticks|, roundTrips, forced,
                       totals.gross, totals.fees, totals.slippage, afterFees - totals.slippage));
  }

  method Run(events: seq<CapturedEvent>, s: Strategy) returns (r: Result<Report, BacktestError>)
    ensures r == Outcome(events, s)
  {
    var invalid := ValidateStrategy(s);
    if invalid.Some? {
      return Failure(invalid.value);
    }
    var decoded := DecodeTicks(events);
    if decoded.Failure? {
      return Failure(decoded.error);
    }
    if decoded.value == [] {
      return Failure(NoTicks);
    }
    DecodedArePositive(events);
    var scan := ScanTicks(decoded.value, s);
    if scan.None? {
      return Failure(Arithmetic);
    }
    var report := Settle(decoded.value, s, scan.value);
    return if report.Some? then Success(report.value) else Failure(Arithmetic);
  }

  /** Totals that have left the range at some tick are still outside it at the end. */
  lemma OverflowIsFinal(ticks: seq<Tick>, s: Strategy, n: nat)
    requires Sound(s) && PositiveTicks(ticks) && ticks != [] && n <= |ticks|
    requires var t := TripTotals(Trips(ticks[..n], s, None), s);
             t.gross > I64_MAX || t.fees > I64_MAX || t.slippage > I64_MAX
    ensures !Fits(ticks, s)
  {
    var early, late, all := Trips(ticks[..n], s, None), Trips(ticks, s, None), AllTrips(ticks, s);
    TripsShape(ticks, s, None);
    TripsPrefix(ticks, s, n);
    assert forall t <- late :: t.entry <= t.exit;
    TotalsGrow(late, s, |early|);
    assert late[..|early|] == early;
    assert ticks[|ticks| - 1] in ticks;
    TotalsGrow(all, s, |late|);
    assert all[..|late|] == late;
  }

  lemma {:induction false} TripsPrefix(ticks: seq<Tick>, s: Strategy, n: nat)
    requires n <= |ticks|
    ensures |Trips(ticks[..n], s, None)| <= |Trips(ticks, s, None)|
    ensures Trips(ticks[..n], s, None) == Trips(ticks, s, None)[..|Trips(ticks[..n], s, None)|]
    decreases |ticks| - n
  {
    if n == |ticks| {
      assert ticks[..n] == ticks;
    } else {
      TripsPrefix(ticks, s, n + 1);
      assert ticks[..n + 1] == ticks[..n] + [ticks[n]];
      TripsAppend(ticks[..n], s, None, ticks[n]);
    }
  }

  // ---- What the specification says ----

  /** One event is a tick with a positive price, an error, or no tick at all. */
  lemma DecodeOne(e: CapturedEvent)
    ensures DecodeTicks([e])
            == if e.eventType != "strategy_tick" then Success([])
               else if e.payload.None? then Failure(Json)
               else if e.payload.value.price <= 0 then Failure(InvalidTick)
               else Success([e.payload.value])
  {
    assert [e][1..] == [];
    assert e.payload.Some? ==> [e.payload.value] + [] == [e.payload.value];
    assert DecodeTicks([e][1..]) == Success([]);
  }

  /** Ticks keep the order of their events, and the first error decides. */
  lemma {:induction false} DecodeJoins(a: seq<CapturedEvent>, b: seq<CapturedEvent>)
    ensures DecodeTicks(a + b)
            == if DecodeTicks(a).Failure? then DecodeTicks(a)
               else if DecodeTicks(b).Failure? then DecodeTicks(b)
               else Success(DecodeTicks(a).value + DecodeTicks(b).value)
  {
    if a == [] {
      assert a + b == b;
      assert DecodeTicks(b).Success? ==> [] + DecodeTicks(b).value == DecodeTicks(b).value;
    } else {
      assert (a + b)[1..] == a[1..] + b && (a + b)[0] == a[0];
      DecodeJoins(a[1..], b);
      var rest := DecodeTicks(a[1..]);
      if a[0].payload.Some? && rest.Success? && DecodeTicks(b).Success? {
        var tick := a[0].payload.value;
        assert [tick] + (rest.value + DecodeTicks(b).value) == [tick] + rest.value + DecodeTicks(b).value;
      }
    }
  }

  /** Without a price at the lower threshold nothing is bought. */
  lemma {:induction false} NothingBought(ticks: seq<Tick>, s: Strategy)
    requires forall t <- ticks :: t.price > s.buyBelow
    ensures Trips(ticks, s, None) == [] && OpenAt(ticks, s, None) == None
  {
    if ticks != [] {
      assert ticks[0] in ticks;
      NothingBought(ticks[1..], s);
    }
  }

  /** A position is kept until the first price at the upper threshold. */
  lemma {:induction false} HeldUntil(ticks: seq<Tick>, s: Strategy, bought: int, j: nat)
    requires j <= |ticks| && forall k :: 0 <= k < j ==> ticks[k].price < s.sellAbove
    requires j < |ticks| ==> ticks[j].price >= s.sellAbove
    ensures if j == |ticks| then Trips(ticks, s, Some(bought)) == [] && OpenAt(ticks, s, Some(bought)) == Some(bought)
            else
              && Trips(ticks, s, Some(bought))
                 == [RoundTrip(bought, ticks[j].price, false)] + Trips(ticks[j + 1..], s, None)
              && OpenAt(ticks, s, Some(bought)) == OpenAt(ticks[j + 1..], s, None)
    decreases j
  {
    if j > 0 {
      HeldUntil(ticks[1..], s, bought, j - 1);
      assert j < |ticks| ==> ticks[1..][j..] == ticks[j + 1..];
    }
  }

  /**
   * The trips are the greedy ones: bought at the first price at or below the lower threshold, sold at the
   * first price after it at or above the upper one, and so on with the ticks that follow.
   */
  lemma {:induction false} TripsAreGreedy(ticks: seq<Tick>, s: Strategy, i: nat, j: nat)
    requires i < j <= |ticks|
    requires (forall k :: 0 <= k < i ==> ticks[k].price > s.buyBelow) && ticks[i].price <= s.buyBelow
    requires (forall k :: i < k < j ==> ticks[k].price < s.sellAbove) && (j < |ticks| ==> ticks[j].price >= s.sellAbove)
    ensures if j == |ticks| then Trips(ticks, s, None) == [] && OpenAt(ticks, s, None) == Some(ticks[i].price)
            else
              && Trips(ticks, s, None)
                 == [RoundTrip(ticks[i].price, ticks[j].price, false)] + Trips(ticks[j + 1..], s, None)
              && OpenAt(ticks, s, None) == OpenAt(ticks[j + 1..], s, None)
    decreases i
  {
    if i == 0 {
      HeldUntil(ticks[1..], s, ticks[0].price, j - 1);
      assert j < |ticks| ==> ticks[1..][j..] == ticks[j + 1..];
    } else {
      TripsAreGreedy(ticks[1..], s, i - 1, j - 1);
      assert j < |ticks| ==> ticks[1..][j..] == ticks[j + 1..];
    }
  }

  /** Which error a run ends with, the earlier ones going first. */
  lemma ErrorsInOrder(events: seq<CapturedEvent>, s: Strategy)
    ensures Outcome(events, s) == Failure(InvalidStrategy) <==>
              !(0 < s.buyBelow < s.sellAbove && s.feeBps <= 10000 && s.slippageBps <= 10000)
    ensures Outcome(events, s) == Failure(NoTicks) <==>
              && 0 < s.buyBelow < s.sellAbove && s.feeBps <= 10000 && s.slippageBps <= 10000
              && forall e <- events :: e.eventType != "strategy_tick"
    ensures Outcome(events, s) == Failure(Arithmetic) ==>
              forall e <- events :: e.eventType == "strategy_tick" ==> e.payload.Some? && e.payload.value.price > 0
  {
    DecodesTo(events);
  }

  /**
   * The arithmetic error, in 64 bits: the gains of the closed trips or of all, the fees or the slippage are too
   * large, or the gains less the fees, or less both, too small.
   */
  lemma OverflowsExactlyWhen(events: seq<CapturedEvent>, s: Strategy)
    requires DecodeTicks(events).Success? && DecodeTicks(events).value != []
    requires 0 < s.buyBelow < s.sellAbove && s.feeBps <= 10000 && s.slippageBps <= 10000
    ensures var ticks := DecodeTicks(events).value;
            var gains, costs := Gains(AllTrips(ticks, s)), TripTotals(AllTrips(ticks, s), s);
            Outcome(events, s) == Failure(Arithmetic) <==>
              || Gains(Trips(ticks, s, None)) > 9223372036854775807 || gains > 9223372036854775807
              || costs.fees > 9223372036854775807 || costs.slippage > 9223372036854775807
              || gains - costs.fees < -9223372036854775808
              || gains - costs.fees - costs.slippage < -9223372036854775808
  {
    var ticks := DecodeTicks(events).value;
    hide DecodeTicks, Trips, OpenAt, TripTotals, AllTrips;
    GrossIsGains(Trips(ticks, s, None), s);
    GrossIsGains(AllTrips(ticks, s), s);
  }

  lemma {:induction false} DecodesTo(events: seq<CapturedEvent>)
    ensures DecodeTicks(events) == Success([]) <==> forall e <- events :: e.eventType != "strategy_tick"
    ensures DecodeTicks(events).Success? <==>
              forall e <- events :: e.eventType == "strategy_tick" ==> e.payload.Some? && e.payload.value.price > 0
    ensures DecodeTicks(events).Failure? ==> DecodeTicks(events).error in [Json, InvalidTick]
  {
    if events != [] {
      DecodesTo(events[1..]);
      assert events == [events[0]] + events[1..];
    }
  }

  // ---- What a report means ----

  /** What the trips gained before costs. */
  ghost function Gains(trips: seq<RoundTrip>): int {
    if trips == [] then 0 else trips[0].exit - trips[0].entry + Gains(trips[1..])
  }

  lemma {:induction false} GrossIsGains(trips: seq<RoundTrip>, s: Strategy)
    ensures TripTotals(trips, s).gross == Gains(trips)
  {
    if trips != [] {
      GrossIsGains(trips[..|trips| - 1], s);
      GainsAppend(trips[..|trips| - 1], trips[|trips| - 1]);
      assert trips == trips[..|trips| - 1] + [trips[|trips| - 1]];
    }
  }

  lemma {:induction false} GainsAppend(trips: seq<RoundTrip>, t: RoundTrip)
    ensures Gains(trips + [t]) == Gains(trips) + t.exit - t.entry
  {
    if trips == [] {
      assert [] + [t] == [t] && [t][1..] == [];
    } else {
      assert (trips + [t])[1..] == trips[1..] + [t];
      GainsAppend(trips[1..], t);
    }
  }

  /** Sum of everything that changed hands, in minor units times basis points. */
  ghost function Turnover(trips: seq<RoundTrip>): int {
    if trips == [] then 0
    else Turnover(trips[..|trips| - 1]) + trips[|trips| - 1].entry + trips[|trips| - 1].exit
  }

  /** Rounding only ever charges more, and less than two minor units per round trip. */
  lemma {:induction false} RoundingBounds(trips: seq<RoundTrip>, s: Strategy)
    requires Sound(s) && PositiveTrips(trips)
    ensures var t := TripTotals(trips, s);
            && Turnover(trips) * s.feeBps <= 10000 * t.fees <= Turnover(trips) * s.feeBps + 20000 * |trips|
            && Turnover(trips) * s.slippageBps <= 10000 * t.slippage
               <= Turnover(trips) * s.slippageBps + 20000 * |trips|
  {
    if trips != [] {
      var front, last := trips[..|trips| - 1], trips[|trips| - 1];
      assert last in trips && forall t <- front :: t in trips;
      RoundingBounds(front, s);
      RoundingStep(last, s.feeBps, Turnover(front));
      RoundingStep(last, s.slippageBps, Turnover(front));
    }
  }

  lemma RoundingStep(t: RoundTrip, bps: int, before: int)
    requires 0 < t.entry && 0 < t.exit && 0 <= bps <= 10000
    ensures (before + t.entry + t.exit) * bps == before * bps + t.entry * bps + t.exit * bps
    ensures t.entry * bps + t.exit * bps <= 10000 * (BpsCost(t.entry, bps) + BpsCost(t.exit, bps))
            <= t.entry * bps + t.exit * bps + 20000
  {
    BpsBounds(t.entry, bps);
    BpsBounds(t.exit, bps);
  }

  /**
   * A successful report is the sum over its round trips: every unforced one gains at least the
   * gap between the thresholds, only the last can be forced, and costs are rounded up by at most
   * two minor units per trip.
   */
  lemma ReportMeans(events: seq<CapturedEvent>, s: Strategy)
    requires Outcome(events, s).Success?
    ensures DecodeTicks(events).Success? && DecodeTicks(events).value != []
    ensures var ticks := DecodeTicks(events).value;
            var trips, report := AllTrips(ticks, s), Outcome(events, s).value;
            && report.roundTrips == |trips| && report.net == report.gross - report.fees - report.slippage
            && report.startMs == ticks[0].timestampMs && report.endMs == ticks[|ticks| - 1].timestampMs
            && report.eventCount == |ticks| && report.gross == Gains(trips)
            && (forall i :: 0 <= i < |trips| && !trips[i].forced ==>
                 trips[i].exit - trips[i].entry >= s.sellAbove - s.buyBelow)
            && (forall i :: 0 <= i < |trips| && trips[i].forced ==>
                 i == |trips| - 1 && report.forcedExits == 1 && trips[i].exit == ticks[|ticks| - 1].price)
            && (trips == [] || !trips[|trips| - 1].forced ==> report.forcedExits == 0)
            && Turnover(trips) * s.feeBps <= 10000 * report.fees <= Turnover(trips) * s.feeBps + 20000 * |trips|
            && Turnover(trips) * s.slippageBps <= 10000 * report.slippage
               <= Turnover(trips) * s.slippageBps + 20000 * |trips|
  {
    var ticks := DecodeTicks(events).value;
    DecodedArePositive(events);
    TripsShape(ticks, s, None);
    assert ticks[|ticks| - 1] in ticks;
    hide DecodeTicks, Trips, OpenAt, TripTotals, Turnover;
    var trips, closed := AllTrips(ticks, s), Trips(ticks, s, None);
    assert forall i :: 0 <= i < |closed| ==> trips[i] == closed[i] && closed[i] in closed;
    assert PositiveTrips(trips);
    GrossIsGains(trips, s);
    RoundingBounds(trips, s);
  }
}

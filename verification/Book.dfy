/** Order book snapshots (crates/aether-core/src/quote.rs). */
module Book {
  import opened Wrappers

  datatype Level = Level(price: real, size: real)

  datatype OrderBook = OrderBook(market: string, bids: seq<Level>, asks: seq<Level>, ts: int)

  datatype BookError = BidsNotDescending | AsksNotAscending

  /** Global orderings: every earlier level beats every later one. */
  ghost predicate Descending(levels: seq<Level>) {
    forall i, j :: 0 <= i < j < |levels| ==> levels[i].price > levels[j].price
  }

  ghost predicate Ascending(levels: seq<Level>) {
    forall i, j :: 0 <= i < j < |levels| ==> levels[i].price < levels[j].price
  }

  ghost predicate Valid(book: OrderBook) {
    Descending(book.bids) && Ascending(book.asks)
  }

  /** The validating constructor: it inspects adjacent pairs only. */
  method NewBook(market: string, bids: seq<Level>, asks: seq<Level>, ts: int)
    returns (r: Result<OrderBook, BookError>)
    ensures r.Success? <==> Descending(bids) && Ascending(asks)
    ensures r.Success? ==> Valid(r.value) && r.value == OrderBook(market, bids, asks, ts)
    ensures r == Failure(BidsNotDescending) <==> !Descending(bids)
  {
    var i := 0;
    while i + 1 < |bids|
      invariant 0 <= i
      invariant forall j, k :: 0 <= j < k < |bids| && k <= i ==> bids[j].price > bids[k].price
    {
      if bids[i].price <= bids[i + 1].price {
        return Failure(BidsNotDescending);
      }
      i := i + 1;
    }
    i := 0;
    while i + 1 < |asks|
      invariant 0 <= i
      invariant forall j, k :: 0 <= j < k < |asks| && k <= i ==> asks[j].price < asks[k].price
    {
      if asks[i].price >= asks[i + 1].price {
        return Failure(AsksNotAscending);
      }
      i := i + 1;
    }
    return Success(OrderBook(market, bids, asks, ts));
  }
}

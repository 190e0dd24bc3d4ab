/** Placing an order that meets no maker and cancelling it, over the book's own objects. */
module RoundTrips {
  import opened Orders
  import opened Books
  import opened BookRuns
  import opened Levels
  import opened OrderQueues
  import opened OrderSides
  import opened OrderBooks

  /** What a side shows besides its orders: its levels, their prices, and its counters. */
  datatype Shown = Shown(levels: seq<Level>, prices: set<int>, depth: int, numOrders: int, volume: int)

  ghost function Show(s: OrderSide): Shown
    reads s
  {
    Shown(s.book, s.prices.Keys, s.depth, s.numOrders, s.volume)
  }

  /** All of it is determined by the side's queue and volume. */
  ghost predicate ShownBy(s: Shown, side: Side, queue: seq<Order>) {
    && WellFormed(s.levels) && Flatten(side, s.levels) == queue
    && s.prices == (set i | 0 <= i < |s.levels| :: s.levels[i].price)
    && s.depth == |s.levels| && s.numOrders == Count(s.levels)
  }

  lemma ShownAlike(s: Shown, t: Shown, side: Side, queue: seq<Order>)
    requires ShownBy(s, side, queue) && ShownBy(t, side, queue) && s.volume == t.volume
    ensures s == t
  {
    FlattenInjective(side, s.levels, t.levels);
  }

  lemma ValidShows(s: OrderSide, side: Side)
    requires s.Valid()
    ensures ShownBy(Show(s), side, s.Queue(side))
  {
    s.PricesAreLevels();
    s.LevelsOrdered();
    hide OrderSide.Valid, OrderSide.Shape, Flatten, Count, WellFormed;
    SamePrices(s.prices.Keys, s.levels, s.book);
  }

  lemma SamePrices(prices: set<int>, levels: seq<OrderQueue>, book: seq<Level>)
    requires |levels| == |book|
    requires forall i :: 0 <= i < |levels| ==> levels[i].price == book[i].price && levels[i].price in prices
    requires forall p :: p in prices ==> exists i :: 0 <= i < |levels| && levels[i].price == p
    ensures prices == set i | 0 <= i < |book| :: book[i].price
  {
    var all := set i | 0 <= i < |book| :: book[i].price;
    forall p | p in prices ensures p in all {
      var i :| 0 <= i < |levels| && levels[i].price == p;
      assert book[i].price == p;
    }
    forall p | p in all ensures p in prices {
      var i :| 0 <= i < |book| && book[i].price == p;
      assert levels[i].price in prices;
    }
  }

  /** Afterwards the book has the same orders, levels, prices, depths, counts and volumes as before, and under
      every id the same list element. */
  method PlaceThenCancel(b: OrderBook, account: Account, side: Side, id: OrderId, quantity: int, price: int, now: int)
    returns (rested: bool, cancelled: Option<Order>)
    requires b.Valid()
    modifies b.Repr
    ensures b.Valid() && Good(old(b.Model()))
    ensures var r := PlaceLimit(old(b.Model()), account, side, id, quantity, price, now);
            rested <==> r.error.None? && r.done == [] && r.partial.None?
    ensures rested ==>
              && b.Model() == old(b.Model()) && b.orders == old(b.orders)
              && Show(b.asks) == old(Show(b.asks)) && Show(b.bids) == old(Show(b.bids))
              && cancelled == Some(Order(id, side, quantity, price, account, now))
  {
    hide OrderSide.Valid, OrderBook.Valid, Good, PlaceLimit, Flatten, Books.Cancel, ShownBy, Without;
    Sound(b);
    ghost var before, asks, bids := b.Model(), Show(b.asks), Show(b.bids);
    ghost var index := b.orders;
    var done, partial, processed, err := b.ProcessLimitOrder(account, side, id, quantity, price, now);
    rested, cancelled := err.None? && |done| == 0 && partial.None?, None;
    if rested {
      ghost var element := b.orders[id];
      ghost var i, k;
      PlaceThenCancelled(before, b.Model(), account, side, id, quantity, price, now);
      cancelled, i, k := b.CancelOrder(id);
      Sound(b);
      ShownAlike(asks, Show(b.asks), Sell, before.asks);
      ShownAlike(bids, Show(b.bids), Buy, before.bids);
    }
  }

  lemma Sound(b: OrderBook)
    requires b.Valid()
    ensures Good(b.Model()) && ShownBy(Show(b.asks), Sell, b.Model().asks) && ShownBy(Show(b.bids), Buy, b.Model().bids)
    ensures b.orders.Keys == b.Model().AllIds()
  {
    hide OrderSide.Valid, Good, Flatten;
    ValidShows(b.asks, Sell);
    ValidShows(b.bids, Buy);
  }

  lemma PlaceThenCancelled(b: Book, placed: Book, account: Account, side: Side, id: OrderId, quantity: int, price: int,
                           now: int)
    requires Good(b)
    requires var r := PlaceLimit(b, account, side, id, quantity, price, now);
             r.book == placed && r.error.None? && r.done == [] && r.partial.None?
    ensures Books.Cancel(placed, id) == (b, Some(Order(id, side, quantity, price, account, now)))
    ensures id !in b.AllIds()
  {
    BookRuns.PlaceThenCancel(b, account, side, id, quantity, price, now);
    var k := LimitReports(b, account, side, id, quantity, price, now);
  }
}

/** The reference order book: two price-time ordered sequences and the cached volume of each side. */
module Books {
  import opened Orders
  import opened Matching

  datatype Book = Book(asks: seq<Order>, bids: seq<Order>, askVolume: int, bidVolume: int) {
    function On(side: Side): seq<Order> { if side == Sell then asks else bids }

    function VolumeOn(side: Side): int { if side == Sell then askVolume else bidVolume }

    function With(side: Side, orders: seq<Order>, volume: int): Book {
      if side == Sell then this.(asks := orders, askVolume := volume) else this.(bids := orders, bidVolume := volume)
    }

    ghost function AllIds(): set<OrderId> { Ids(asks) + Ids(bids) }
  }

  const EMPTY := Book([], [], 0, 0)

  /** A resting order is positive in quantity and price, on its own side, and uniquely named. */
  ghost predicate SideOk(side: Side, orders: seq<Order>) {
    && SortedFor(side, orders) && AllOn(side, orders) && AllPositive(orders) && DistinctIds(orders)
    && forall k :: 0 <= k < |orders| ==> orders[k].price > 0
  }

  /** The best bid is strictly below the best ask. */
  ghost predicate Uncrossed(b: Book) {
    b.asks != [] && b.bids != [] ==> b.bids[0].price < b.asks[0].price
  }

  ghost predicate Good(b: Book) {
    SideOk(Sell, b.asks) && SideOk(Buy, b.bids) && Ids(b.asks) !! Ids(b.bids) && Uncrossed(b)
  }

  // ---------- inserting, removing ----------

  /** A new order queues behind every order whose price is at least as good. */
  function Insert(side: Side, orders: seq<Order>, o: Order): seq<Order> {
    if orders == [] || Ahead(side, o.price, orders[0].price) then [o] + orders
    else [orders[0]] + Insert(side, orders[1..], o)
  }

  function Remove(orders: seq<Order>, id: OrderId): seq<Order> {
    if orders == [] then []
    else if orders[0].id == id then orders[1..]
    else [orders[0]] + Remove(orders[1..], id)
  }

  function Find(orders: seq<Order>, id: OrderId): Option<Order> {
    if orders == [] then None
    else if orders[0].id == id then Some(orders[0])
    else Find(orders[1..], id)
  }

  lemma {:induction false} InsertBetween(side: Side, better: seq<Order>, worse: seq<Order>, o: Order)
    requires forall k :: 0 <= k < |better| ==> !Ahead(side, o.price, better[k].price)
    requires worse != [] ==> Ahead(side, o.price, worse[0].price)
    ensures Insert(side, better + worse, o) == better + [o] + worse
  {
    if better == [] {
      assert better + worse == worse;
      assert better + [o] + worse == [o] + worse;
    } else {
      assert (better + worse)[1..] == better[1..] + worse && (better + worse)[0] == better[0];
      InsertBetween(side, better[1..], worse, o);
      assert better + [o] + worse == [better[0]] + (better[1..] + [o] + worse);
    }
  }

  /** Where a new order lands: everything before it is at least as good, everything after is worse. */
  lemma {:induction false} InsertSplits(side: Side, orders: seq<Order>, o: Order) returns (k: nat)
    requires SortedFor(side, orders)
    ensures k <= |orders| && Insert(side, orders, o) == orders[..k] + [o] + orders[k..]
    ensures forall i :: 0 <= i < k ==> !Ahead(side, o.price, orders[i].price)
    ensures forall i :: k <= i < |orders| ==> Ahead(side, o.price, orders[i].price)
  {
    if orders == [] || Ahead(side, o.price, orders[0].price) {
      k := 0;
      assert orders[..0] + [o] + orders[0..] == [o] + orders;
      forall i | 0 < i < |orders| ensures Ahead(side, o.price, orders[i].price) {
        assert !Ahead(side, orders[i].price, orders[0].price);
      }
    } else {
      var rest := orders[1..];
      var j := InsertSplits(side, rest, o);
      k := j + 1;
      assert orders[..k] == [orders[0]] + rest[..j] && orders[k..] == rest[j..];
      forall i | 0 <= i < k ensures !Ahead(side, o.price, orders[i].price) {
        assert i > 0 ==> orders[i] == rest[i - 1];
      }
      forall i | k <= i < |orders| ensures Ahead(side, o.price, orders[i].price) {
        assert orders[i] == rest[i - 1];
      }
    }
  }

  lemma SpliceKeepsSide(side: Side, orders: seq<Order>, k: nat, o: Order)
    requires SideOk(side, orders) && k <= |orders|
    requires o.side == side && o.quantity > 0 && o.price > 0
    requires forall i :: 0 <= i < |orders| ==> orders[i].id != o.id
    requires forall i :: 0 <= i < k ==> !Ahead(side, o.price, orders[i].price)
    requires forall i :: k <= i < |orders| ==> !Ahead(side, orders[i].price, o.price)
    ensures SideOk(side, orders[..k] + [o] + orders[k..])
  {
    var r := orders[..k] + [o] + orders[k..];
    assert |r| == |orders| + 1;
    assert forall i :: 0 <= i < |r| ==> r[i] == if i < k then orders[i] else if i == k then o else orders[i - 1];
    assert SortedFor(side, r) by {
      forall i, j | 0 <= i < j < |r| ensures !Ahead(side, r[j].price, r[i].price) {
      }
    }
  }

  lemma IdsAround(head: seq<Order>, o: Order, tail: seq<Order>)
    ensures Ids(head + [o] + tail) == Ids(head + tail) + {o.id}
  {
    IdsConcat(head + [o], tail);
    IdsConcat(head, [o]);
    IdsConcat(head, tail);
    assert [o][0] == o;
  }

  lemma TotalAround(head: seq<Order>, o: Order, tail: seq<Order>)
    ensures Total(head + [o] + tail) == Total(head + tail) + o.quantity
  {
    TotalConcat(head + [o], tail);
    TotalConcat(head, [o]);
    TotalConcat(head, tail);
  }

  lemma SpliceIds(orders: seq<Order>, k: nat, o: Order)
    requires k <= |orders|
    ensures Ids(orders[..k] + [o] + orders[k..]) == Ids(orders) + {o.id}
    ensures Total(orders[..k] + [o] + orders[k..]) == Total(orders) + o.quantity
  {
    assert orders == orders[..k] + orders[k..];
    IdsAround(orders[..k], o, orders[k..]);
    TotalAround(orders[..k], o, orders[k..]);
  }

  lemma InsertKeepsSide(side: Side, orders: seq<Order>, o: Order)
    requires SideOk(side, orders) && o.side == side && o.quantity > 0 && o.price > 0 && o.id !in Ids(orders)
    ensures SideOk(side, Insert(side, orders, o))
    ensures Ids(Insert(side, orders, o)) == Ids(orders) + {o.id}
    ensures Total(Insert(side, orders, o)) == Total(orders) + o.quantity
  {
    var k := InsertSplits(side, orders, o);
    forall i | 0 <= i < |orders| ensures orders[i].id != o.id {
      assert orders[i].id in Ids(orders);
    }
    SpliceIds(orders, k, o);
    SpliceKeepsSide(side, orders, k, o);
  }

  lemma {:induction false} RemoveBetween(before: seq<Order>, o: Order, after: seq<Order>)
    requires forall k :: 0 <= k < |before| ==> before[k].id != o.id
    ensures Remove(before + [o] + after, o.id) == before + after
    ensures Find(before + [o] + after, o.id) == Some(o)
  {
    var orders := before + [o] + after;
    if before == [] {
      assert orders[1..] == after && before + after == after;
    } else {
      assert orders[1..] == before[1..] + [o] + after;
      RemoveBetween(before[1..], o, after);
      assert [before[0]] + (before[1..] + after) == before + after;
    }
  }

  lemma RemoveAt(orders: seq<Order>, k: nat)
    requires k < |orders| && DistinctIds(orders)
    ensures Remove(orders, orders[k].id) == orders[..k] + orders[k + 1..]
    ensures Find(orders, orders[k].id) == Some(orders[k])
  {
    hide Remove, Find;
    assert orders == orders[..k] + [orders[k]] + orders[k + 1..];
    RemoveBetween(orders[..k], orders[k], orders[k + 1..]);
  }

  lemma {:induction false} RemoveAbsent(orders: seq<Order>, id: OrderId)
    requires id !in Ids(orders)
    ensures Remove(orders, id) == orders && Find(orders, id) == None
  {
    if orders != [] {
      IdsConcat([orders[0]], orders[1..]);
      assert orders == [orders[0]] + orders[1..];
      assert [orders[0]][0].id in Ids([orders[0]]);
      RemoveAbsent(orders[1..], id);
    }
  }

  lemma RemoveKeepsSide(side: Side, orders: seq<Order>, k: nat)
    requires SideOk(side, orders) && k < |orders|
    ensures SideOk(side, orders[..k] + orders[k + 1..])
  {
    var r := orders[..k] + orders[k + 1..];
    assert forall i :: 0 <= i < |r| ==> r[i] == if i < k then orders[i] else orders[i + 1];
    assert SortedFor(side, r) by {
      forall i, j | 0 <= i < j < |r| ensures !Ahead(side, r[j].price, r[i].price) {
      }
    }
  }

  lemma NotAmong(orders: seq<Order>, id: OrderId)
    requires forall k :: 0 <= k < |orders| ==> orders[k].id != id
    ensures id !in Ids(orders)
  {
  }

  lemma RemoveIds(orders: seq<Order>, k: nat)
    requires DistinctIds(orders) && k < |orders|
    ensures Ids(orders[..k] + orders[k + 1..]) == Ids(orders) - {orders[k].id}
    ensures Total(orders[..k] + orders[k + 1..]) == Total(orders) - orders[k].quantity
  {
    hide Total, Ids;
    var before, o, after := orders[..k], orders[k], orders[k + 1..];
    assert orders == before + [o] + after;
    IdsAround(before, o, after);
    TotalAround(before, o, after);
    NotAmong(before + after, o.id);
  }

  // ---------- the three operations ----------

  datatype LimitResult = LimitResult(book: Book, done: seq<Order>, partial: Option<Order>, processed: int,
                                     error: Option<Error>)

  datatype MarketResult = MarketResult(book: Book, done: seq<Order>, partial: Option<Order>, processed: int, left: int,
                                       error: Option<Error>)

  /** The opposite side after a match: full fills leave the cached volume, partial ones do not touch it. */
  function AfterMatch(b: Book, maker: Side, f: Fill): Book {
    b.With(maker, f.resting, b.VolumeOn(maker) - Total(f.done))
  }

  function Cost(f: Fill): int {
    Value(f.done) + (if f.partial.Some? then f.partial.value.price * f.processed else 0)
  }

  function PlaceLimit(b: Book, account: Account, side: Side, id: OrderId, quantity: int, price: int,
                      now: int): LimitResult
    requires Good(b)
  {
    if Find(b.asks, id).Some? || Find(b.bids, id).Some? then LimitResult(b, [], None, 0, Some(OrderExists))
    else if quantity <= 0 then LimitResult(b, [], None, 0, Some(InvalidQuantity))
    else if price <= 0 then LimitResult(b, [], None, 0, Some(InvalidPrice))
    else
      var maker := side.Opposite();
      var f := Match(b.On(maker), LimitOf(side, price), account, quantity);
      var matched := AfterMatch(b, maker, f);
      if f.left > 0 then
        var o := Order(id, side, f.left, price, account, now);
        var rested := matched.With(side, Insert(side, matched.On(side), o), matched.VolumeOn(side) + f.left);
        if f.done != [] then LimitResult(rested, f.done, Some(o), quantity - f.left, None)
        else LimitResult(rested, [], f.partial, f.processed, None)
      else
        CostIsPositive(b.On(maker), LimitOf(side, price), account, quantity);
        var o := Order(id, side, quantity, RoundDiv(Cost(f), Total(f.done) + f.processed), account, now);
        LimitResult(matched, f.done + [o], f.partial, f.processed, None)
  }

  function PlaceMarket(b: Book, account: Account, side: Side, quantity: int): MarketResult {
    if quantity <= 0 then MarketResult(b, [], None, 0, 0, Some(InvalidQuantity))
    else
      var maker := side.Opposite();
      var f := Match(b.On(maker), AnyPrice, account, quantity);
      MarketResult(AfterMatch(b, maker, f), f.done, f.partial, f.processed, f.left, None)
  }

  function Cancel(b: Book, id: OrderId): (Book, Option<Order>) {
    match Find(b.asks, id)
    case Some(o) => (b.With(Sell, Remove(b.asks, id), b.askVolume - o.quantity), Some(o))
    case None =>
      match Find(b.bids, id)
      case Some(o) => (b.With(Buy, Remove(b.bids, id), b.bidVolume - o.quantity), Some(o))
      case None => (b, None)
  }

  // ---------- what the taker pays ----------

  lemma Scale(a: int, b: int, c: int)
    requires a <= b && c >= 0
    ensures a * c <= b * c
  {
  }

  lemma Distribute(a: int, b: int, c: int)
    ensures a * (b + c) == a * b + a * c
  {
  }

  lemma {:induction false} ValueAtMost(orders: seq<Order>, bound: int)
    requires AllPositive(orders) && forall k :: 0 <= k < |orders| ==> orders[k].price <= bound
    ensures Value(orders) <= bound * Total(orders)
  {
    if orders != [] {
      ValueAtMost(orders[1..], bound);
      Scale(orders[0].price, bound, orders[0].quantity);
      Distribute(bound, orders[0].quantity, Total(orders[1..]));
    }
  }

  lemma {:induction false} ValueAtLeast(orders: seq<Order>, bound: int)
    requires AllPositive(orders) && forall k :: 0 <= k < |orders| ==> orders[k].price >= bound
    ensures Value(orders) >= bound * Total(orders)
  {
    if orders != [] {
      ValueAtLeast(orders[1..], bound);
      Scale(bound, orders[0].price, orders[0].quantity);
      Distribute(bound, orders[0].quantity, Total(orders[1..]));
    }
  }

  /** A completely filled taker has traded its quantity, so the average price divides by a positive number. */
  lemma CostIsPositive(resting: seq<Order>, limit: Limit, account: Account, quantity: int)
    requires AllPositive(resting) && (forall k :: 0 <= k < |resting| ==> resting[k].price > 0) && quantity > 0
    ensures var f := Match(resting, limit, account, quantity);
            && 0 <= f.left
            && Cost(f) >= Total(f.done) + f.processed == quantity - f.left
  {
    var f := Match(resting, limit, account, quantity);
    MatchTakesPrefix(resting, limit, account, quantity);
    MatchConserves(resting, limit, account, quantity);
    MatchTradesMaximum(resting, limit, account, quantity);
    ValueAtLeast(f.done, 1);
    TotalPositive(f.done);
    if f.partial.Some? {
      Scale(1, resting[|f.done|].price, f.processed);
    }
  }
}

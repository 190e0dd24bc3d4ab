/** Laws of single commands seen from their results, and invariants of whole runs. */
module BookRuns {
  import opened Orders
  import opened Matching
  import opened Books
  import opened BookLaws

  // ---------- limit and market orders, accounted for ----------

  /** What a limit order takes from the makers' side. */
  ghost function Traded(b: Book, account: Account, side: Side, id: OrderId, quantity: int, price: int, now: int): int
    requires Good(b)
  {
    var after := PlaceLimit(b, account, side, id, quantity, price, now).book;
    Total(b.On(side.Opposite())) - Total(after.On(side.Opposite()))
  }

  /** A limit order trades all it wants or all the crossing makers offer, whichever is less. */
  lemma LimitTrades(b: Book, account: Account, side: Side, id: OrderId, quantity: int, price: int, now: int)
    requires Good(b)
    requires PlaceLimit(b, account, side, id, quantity, price, now).error.None?
    ensures var traded := Traded(b, account, side, id, quantity, price, now);
            && 0 <= traded <= quantity
            && traded == Min(quantity, Total(Crossing(b.On(side.Opposite()), LimitOf(side, price))))
            && quantity - traded == Match(b.On(side.Opposite()), LimitOf(side, price), account, quantity).left
  {
    var resting, limit := b.On(side.Opposite()), LimitOf(side, price);
    MatchConserves(resting, limit, account, quantity);
    MatchTradesMaximum(resting, limit, account, quantity);
    CrossingPositive(resting, limit);
  }

  /** What it does not trade rests under its own id; nothing else on its own side changes. */
  lemma LimitRests(b: Book, account: Account, side: Side, id: OrderId, quantity: int, price: int, now: int)
    requires Good(b)
    requires PlaceLimit(b, account, side, id, quantity, price, now).error.None?
    ensures var r := PlaceLimit(b, account, side, id, quantity, price, now);
            var unsold := quantity - Traded(b, account, side, id, quantity, price, now);
            && Total(r.book.On(side)) == Total(b.On(side)) + unsold
            && Remove(r.book.On(side), id) == b.On(side)
            && Find(r.book.On(side), id) ==
                 if unsold > 0 then Some(Order(id, side, unsold, price, account, now)) else None
  {
    LimitTrades(b, account, side, id, quantity, price, now);
    var f := Match(b.On(side.Opposite()), LimitOf(side, price), account, quantity);
    FindIffPresent(b.asks, id);
    FindIffPresent(b.bids, id);
    if f.left > 0 {
      var o := Order(id, side, f.left, price, account, now);
      InsertKeepsSide(side, b.On(side), o);
      FindInserted(side, b.On(side), o);
    } else {
      RemoveAbsent(b.On(side), id);
    }
  }

  /** What the report says, position by position: errors leave everything alone; otherwise the makers done are
      the front of their queue, and either the taker is done too or what is left of it rests and no maker it
      accepts is left. */
  lemma LimitReports(b: Book, account: Account, side: Side, id: OrderId, quantity: int, price: int, now: int)
    returns (k: nat)
    requires Good(b)
    ensures var r := PlaceLimit(b, account, side, id, quantity, price, now);
            && (r.error.Some? ==> r.book == b && r.done == [] && r.partial.None? && r.processed == 0)
            && r.error == (if id in b.AllIds() then Some(OrderExists)
                           else if quantity <= 0 then Some(InvalidQuantity)
                           else if price <= 0 then Some(InvalidPrice)
                           else None)
    ensures PlaceLimit(b, account, side, id, quantity, price, now).error.None? ==>
              k <= |b.On(side.Opposite())| && Reported(b, account, side, id, quantity, price, now, k)
  {
    FindIffPresent(b.asks, id);
    FindIffPresent(b.bids, id);
    var resting, limit := b.On(side.Opposite()), LimitOf(side, price);
    var f := Match(resting, limit, account, quantity);
    k := |f.done|;
    if PlaceLimit(b, account, side, id, quantity, price, now).error.None? {
      LimitTrades(b, account, side, id, quantity, price, now);
      MatchTakesPrefix(resting, limit, account, quantity);
      MatchConserves(resting, limit, account, quantity);
      MatchTradesMaximum(resting, limit, account, quantity);
      assert f.done == [] ==> Total(f.done) == 0;
      ReportIsMatch(b, account, side, id, quantity, price, now);
    }
  }

  /** The report, spelled out from the match behind it. */
  lemma ReportIsMatch(b: Book, account: Account, side: Side, id: OrderId, quantity: int, price: int, now: int)
    requires Good(b) && PlaceLimit(b, account, side, id, quantity, price, now).error.None?
    requires var f := Match(b.On(side.Opposite()), LimitOf(side, price), account, quantity);
             && TakesPrefix(b.On(side.Opposite()), account, f) && f.left >= 0
             && (f.done == [] ==> Total(f.done) == 0)
             && quantity == Total(f.done) + f.processed + f.left
             && Traded(b, account, side, id, quantity, price, now) == quantity - f.left
             && (f.left > 0 && f.resting != [] ==> !LimitOf(side, price).Accepts(f.resting[0].price))
             && (f.left > 0 ==> f.partial.None?)
    ensures var k := |Match(b.On(side.Opposite()), LimitOf(side, price), account, quantity).done|;
            k <= |b.On(side.Opposite())| && Reported(b, account, side, id, quantity, price, now, k)
  {
    hide Match, Total, Value, Traded, Find, Insert, RoundDiv, Good;
  }

  /** `k` makers are done. */
  ghost predicate Reported(b: Book, account: Account, side: Side, id: OrderId, quantity: int, price: int, now: int,
                           k: nat)
    requires Good(b) && k <= |b.On(side.Opposite())|
  {
    var r := PlaceLimit(b, account, side, id, quantity, price, now);
    var resting, after := b.On(side.Opposite()), r.book.On(side.Opposite());
    var unsold := quantity - Traded(b, account, side, id, quantity, price, now);
    if unsold == 0 then
      && |r.done| == k + 1 && r.done[..k] == resting[..k]
      && r.done[k] == Order(id, side, quantity, r.done[k].price, account, now)
      && r.processed == quantity - Total(resting[..k])
      && match r.partial
         case None => r.processed == 0 && after == resting[k..]
         case Some(p) =>
           && k < |resting| && 0 < r.processed < resting[k].quantity
           && (var o := resting[k]; p == Order(o.id, o.side, o.quantity - r.processed, o.price, account, o.time))
           && after == [p] + resting[k + 1..]
    else
      && r.done == resting[..k] && after == resting[k..]
      && (k < |resting| ==> !LimitOf(side, price).Accepts(resting[k].price))
      && r.processed == quantity - unsold
      && r.partial == if k == 0 then None else Some(Order(id, side, unsold, price, account, now))
  }

  /** The value that leaves a queue is what the taker pays. */
  lemma {:induction false} MatchConservesValue(resting: seq<Order>, limit: Limit, account: Account, quantity: int)
    ensures var f := Match(resting, limit, account, quantity);
            Value(resting) == Value(f.resting) + Cost(f)
    decreases |resting|
  {
    if quantity <= 0 || resting == [] || !limit.Accepts(resting[0].price) {
    } else if quantity < resting[0].quantity {
      var f := Match(resting, limit, account, quantity);
      assert f.resting[1..] == resting[1..];
      Distribute(resting[0].price, resting[0].quantity - quantity, quantity);
    } else {
      MatchConservesValue(resting[1..], limit, account, quantity - resting[0].quantity);
      var g := Match(resting[1..], limit, account, quantity - resting[0].quantity);
      ValueConcat([resting[0]], g.done);
    }
  }

  /** A taker filled at once reports what it paid per unit, to the nearest price unit, and within its limit. */
  lemma LimitAverage(b: Book, account: Account, side: Side, id: OrderId, quantity: int, price: int, now: int)
    requires Good(b)
    requires PlaceLimit(b, account, side, id, quantity, price, now).error.None?
    requires Traded(b, account, side, id, quantity, price, now) == quantity
    ensures var r := PlaceLimit(b, account, side, id, quantity, price, now);
            && r.done != []
            && var taker := r.done[|r.done| - 1];
               var paid := Value(b.On(side.Opposite())) - Value(r.book.On(side.Opposite()));
               && taker.id == id && taker.quantity == quantity && LimitOf(side, price).Accepts(taker.price)
               && -quantity < 2 * (taker.price * quantity - paid) <= quantity
  {
    var resting, limit := b.On(side.Opposite()), LimitOf(side, price);
    LimitTrades(b, account, side, id, quantity, price, now);
    AverageWithinLimit(resting, limit, account, quantity);
    MatchConservesValue(resting, limit, account, quantity);
    RoundsToNearest(Cost(Match(resting, limit, account, quantity)), quantity);
  }

  lemma FindInserted(side: Side, orders: seq<Order>, o: Order)
    requires SortedFor(side, orders) && o.id !in Ids(orders)
    ensures Find(Insert(side, orders, o), o.id) == Some(o)
    ensures Remove(Insert(side, orders, o), o.id) == orders
  {
    var k := InsertSplits(side, orders, o);
    forall i | 0 <= i < k ensures orders[..k][i].id != o.id {
      assert orders[i].id in Ids(orders);
    }
    RemoveBetween(orders[..k], o, orders[k..]);
    assert orders == orders[..k] + orders[k..];
  }

  lemma RoundWithin(cost: nat, quantity: nat, bound: nat)
    requires quantity > 0
    ensures cost <= bound * quantity ==> RoundDiv(cost, quantity) <= bound
    ensures cost >= bound * quantity ==> RoundDiv(cost, quantity) >= bound
  {
    var n, d := 2 * cost + quantity, 2 * quantity;
    assert bound * d == 2 * (bound * quantity);
    if cost <= bound * quantity {
      assert n < (bound + 1) * d;
      DivBelow(n, d, bound + 1);
    }
    if cost >= bound * quantity {
      assert n >= bound * d;
      DivAbove(n, d, bound);
    }
  }

  lemma DivBelow(n: nat, d: nat, k: nat)
    requires d > 0 && n < k * d
    ensures n / d < k
  {
    assert n == d * (n / d) + n % d;
    if n / d >= k {
      Scale(k, n / d, d);
    }
  }

  lemma DivAbove(n: nat, d: nat, k: nat)
    requires d > 0 && n >= k * d
    ensures n / d >= k
  {
    assert n == d * (n / d) + n % d;
    if n / d < k {
      Scale(n / d + 1, k, d);
    }
  }

  lemma {:induction false} CrossingAccepted(resting: seq<Order>, limit: Limit)
    ensures forall k :: 0 <= k < |Crossing(resting, limit)| ==> limit.Accepts(Crossing(resting, limit)[k].price)
  {
    if resting == [] || !limit.Accepts(resting[0].price) {
    } else {
      CrossingAccepted(resting[1..], limit);
    }
  }

  /** Every maker a match touches has a price the taker accepts. */
  lemma {:induction false} MatchAccepted(resting: seq<Order>, limit: Limit, account: Account, quantity: int)
    ensures var f := Match(resting, limit, account, quantity);
            && (forall k :: 0 <= k < |f.done| ==> limit.Accepts(f.done[k].price))
            && (f.partial.Some? ==> limit.Accepts(f.partial.value.price))
    decreases |resting|
  {
    if quantity <= 0 || resting == [] || !limit.Accepts(resting[0].price) {
    } else if quantity < resting[0].quantity {
    } else {
      MatchAccepted(resting[1..], limit, account, quantity - resting[0].quantity);
    }
  }

  lemma AverageWithinLimit(resting: seq<Order>, limit: Limit, account: Account, quantity: int)
    requires AllPositive(resting) && (forall k :: 0 <= k < |resting| ==> resting[k].price > 0) && quantity > 0
    requires match limit case AnyPrice => true case AtMost(p) => p > 0 case AtLeast(p) => p > 0
    ensures var f := Match(resting, limit, account, quantity);
            f.left == 0 ==>
                Cost(f) >= quantity == Total(f.done) + f.processed && limit.Accepts(RoundDiv(Cost(f), quantity))
  {
    var f := Match(resting, limit, account, quantity);
    CostIsPositive(resting, limit, account, quantity);
    MatchTakesPrefix(resting, limit, account, quantity);
    MatchAccepted(resting, limit, account, quantity);
    if f.left == 0 && !limit.AnyPrice? {
      var bound := if limit.AtMost? then limit.ceiling else limit.floor;
      CostBounds(f, limit, bound);
      Distribute(bound, Total(f.done), f.processed);
      RoundWithin(Cost(f), quantity, bound);
    }
  }

  lemma CostBounds(f: Fill, limit: Limit, bound: int)
    requires limit == AtMost(bound) || limit == AtLeast(bound)
    requires AllPositive(f.done) && f.processed >= 0 && (f.partial.None? ==> f.processed == 0)
    requires forall k :: 0 <= k < |f.done| ==> limit.Accepts(f.done[k].price)
    requires f.partial.Some? ==> limit.Accepts(f.partial.value.price)
    ensures limit.AtMost? ==> Cost(f) <= bound * Total(f.done) + bound * f.processed
    ensures limit.AtLeast? ==> Cost(f) >= bound * Total(f.done) + bound * f.processed
  {
    if limit.AtMost? {
      ValueAtMost(f.done, bound);
      if f.partial.Some? { Scale(f.partial.value.price, bound, f.processed); }
    } else {
      ValueAtLeast(f.done, bound);
      if f.partial.Some? { Scale(bound, f.partial.value.price, f.processed); }
    }
  }

  /** A market order takes what there is, best price first, and reports exactly the shortfall; one for no quantity
      is refused and leaves everything alone. */
  lemma MarketAccounts(b: Book, account: Account, side: Side, quantity: int)
    requires Good(b)
    ensures var r := PlaceMarket(b, account, side, quantity);
            var maker := side.Opposite();
            if quantity <= 0 then
              && r.error == Some(InvalidQuantity) && r.book == b
              && r.done == [] && r.partial.None? && r.processed == r.left == 0
            else
              && Total(b.On(maker)) - Total(r.book.On(maker)) == quantity - r.left == Min(quantity, Total(b.On(maker)))
              && (r.left > 0 ==> r.book.On(maker) == [] && r.partial.None?)
              && r.book.On(side) == b.On(side) && r.error.None?
              && TakesPrefix(b.On(maker), account, Fill(r.done, r.partial, r.processed, r.left, r.book.On(maker)))
              && Value(b.On(maker)) - Value(r.book.On(maker)) == Cost(Match(b.On(maker), AnyPrice, account, quantity))
  {
    if quantity > 0 {
      var maker := side.Opposite();
      MatchConservesValue(b.On(maker), AnyPrice, account, quantity);
      MatchTakesPrefix(b.On(maker), AnyPrice, account, quantity);
      MatchConserves(b.On(maker), AnyPrice, account, quantity);
      MatchTradesMaximum(b.On(maker), AnyPrice, account, quantity);
      AllCross(b.On(maker));
    }
  }

  /** A limit order that found no maker leaves no trace once it is cancelled. */
  lemma PlaceThenCancel(b: Book, account: Account, side: Side, id: OrderId, quantity: int, price: int, now: int)
    requires Good(b)
    requires var r := PlaceLimit(b, account, side, id, quantity, price, now);
             r.error.None? && r.done == [] && r.partial.None?
    ensures var r := PlaceLimit(b, account, side, id, quantity, price, now);
            Books.Cancel(r.book, id) == (b, Some(Order(id, side, quantity, price, account, now)))
  {
    hide Insert, Books.Remove, Find, Total, RoundDiv, Match, Value;
    var r := PlaceLimit(b, account, side, id, quantity, price, now);
    var maker, limit := side.Opposite(), LimitOf(side, price);
    var f := Match(b.On(maker), limit, account, quantity);
    MatchTakesPrefix(b.On(maker), limit, account, quantity);
    MatchConserves(b.On(maker), limit, account, quantity);
    MatchTradesMaximum(b.On(maker), limit, account, quantity);
    FindIffPresent(b.asks, id);
    FindIffPresent(b.bids, id);
    RemoveAbsent(b.On(maker), id);
    FindInserted(side, b.On(side), Order(id, side, quantity, price, account, now));
  }

  // ---------- runs ----------

  datatype Command =
    | Limit(account: Account, side: Side, id: OrderId, quantity: int, price: int, now: int)
    | Market(account: Account, side: Side, quantity: int)
    | Cancel(id: OrderId)

  function Step(b: Book, c: Command): (after: Book)
    requires Good(b)
    ensures Good(after)
  {
    match c
    case Limit(account, side, id, quantity, price, now) =>
      LimitKeepsGood(b, account, side, id, quantity, price, now);
      PlaceLimit(b, account, side, id, quantity, price, now).book
    case Market(account, side, quantity) =>
      MarketKeepsGood(b, account, side, quantity);
      PlaceMarket(b, account, side, quantity).book
    case Cancel(id) =>
      CancelKeepsGood(b, id);
      Books.Cancel(b, id).0
  }

  /** After any run from a good book, in particular from the empty one, the book is good and so never crossed. */
  function Run(b: Book, commands: seq<Command>): (after: Book)
    requires Good(b)
    ensures Good(after)
    decreases |commands|
  {
    if commands == [] then b else Run(Step(b, commands[0]), commands[1..])
  }

  /** What a command takes from `side` by filling a maker only in part. */
  function TakenInPart(b: Book, c: Command, side: Side): int
    requires Good(b)
  {
    match c
    case Limit(account, taker, id, quantity, price, now) =>
      if taker == side || PlaceLimit(b, account, taker, id, quantity, price, now).error.Some? then 0
      else Match(b.On(side), LimitOf(taker, price), account, quantity).processed
    case Market(account, taker, quantity) =>
      if taker == side then 0 else PlaceMarket(b, account, taker, quantity).processed
    case Cancel(id) => 0
  }

  function RunTakenInPart(b: Book, commands: seq<Command>, side: Side): int
    requires Good(b)
    decreases |commands|
  {
    if commands == [] then 0
    else TakenInPart(b, commands[0], side) + RunTakenInPart(Step(b, commands[0]), commands[1..], side)
  }

  lemma LimitVolume(b: Book, account: Account, taker: Side, id: OrderId, quantity: int, price: int, now: int)
    requires Good(b) && PlaceLimit(b, account, taker, id, quantity, price, now).error.None?
    ensures var after := PlaceLimit(b, account, taker, id, quantity, price, now).book;
            var maker := taker.Opposite();
            && after.VolumeOn(taker) - Total(after.On(taker)) == b.VolumeOn(taker) - Total(b.On(taker))
            && after.VolumeOn(maker) - Total(after.On(maker)) == b.VolumeOn(maker) - Total(b.On(maker))
               + Match(b.On(maker), LimitOf(taker, price), account, quantity).processed
  {
    hide Match, Find, Good;
    var maker := taker.Opposite();
    MatchConserves(b.On(maker), LimitOf(taker, price), account, quantity);
    LimitTrades(b, account, taker, id, quantity, price, now);
    LimitRests(b, account, taker, id, quantity, price, now);
  }

  lemma StepVolume(b: Book, c: Command, side: Side)
    requires Good(b)
    ensures var after := Step(b, c);
            after.VolumeOn(side) - Total(after.On(side))
                == b.VolumeOn(side) - Total(b.On(side)) + TakenInPart(b, c, side)
  {
    hide Match, Good, Total, Find;
    match c
    case Limit(account, taker, id, quantity, price, now) =>
      if PlaceLimit(b, account, taker, id, quantity, price, now).error.None? {
        LimitVolume(b, account, taker, id, quantity, price, now);
      }
    case Market(account, taker, quantity) =>
      if quantity > 0 {
        MatchConserves(b.On(taker.Opposite()), AnyPrice, account, quantity);
      }
    case Cancel(id) =>
      CancelTotals(b, id, side);
  }

  lemma CancelTotals(b: Book, id: OrderId, side: Side)
    requires Good(b)
    ensures var after := Books.Cancel(b, id).0;
            after.VolumeOn(side) - Total(after.On(side)) == b.VolumeOn(side) - Total(b.On(side))
  {
    CancelRemovesOne(b, id);
    var (after, o) := Books.Cancel(b, id);
    if o.Some? {
      var orders := b.On(o.value.side);
      var k :| 0 <= k < |orders| && orders[k] == o.value && after.On(o.value.side) == orders[..k] + orders[k + 1..];
      RemoveIds(orders, k);
    }
  }

  /** The cached volume of a side drifts above its resting quantity by exactly what partial fills took. */
  lemma {:induction false} RunVolume(b: Book, commands: seq<Command>, side: Side)
    requires Good(b)
    ensures var after := Run(b, commands);
            after.VolumeOn(side) - Total(after.On(side))
            == b.VolumeOn(side) - Total(b.On(side)) + RunTakenInPart(b, commands, side)
    decreases |commands|
  {
    if commands != [] {
      StepVolume(b, commands[0], side);
      RunVolume(Step(b, commands[0]), commands[1..], side);
    }
  }
}

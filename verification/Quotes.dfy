/** What the price levels of a side say about its orders: depth listings and market quotes. */
module Quotes {
  import opened Orders
  import opened Matching
  import opened Books
  import opened Levels

  // ---------- market quotes ----------

  /** At one price the cost of a match is that price times what is traded. */
  lemma OnePriceCost(level: seq<Order>, p: int, account: Account, quantity: int)
    requires AllPositive(level) && quantity >= 0 && forall k :: 0 <= k < |level| ==> level[k].price == p
    ensures var f := Match(level, AnyPrice, account, quantity);
            Cost(f) == p * (quantity - f.left)
  {
    hide Match, Total, Value;
    var f := Match(level, AnyPrice, account, quantity);
    MatchTakesPrefix(level, AnyPrice, account, quantity);
    MatchConserves(level, AnyPrice, account, quantity);
    ValueAtMost(f.done, p);
    ValueAtLeast(f.done, p);
    Distribute(p, Total(f.done), f.processed);
  }

  /** Quoting a level by its volume gives what executing against its orders would: a level the quantity
      covers contributes all of it and passes the rest on, a deeper one contributes the rest and ends the quote. */
  /** A level that covers the quantity. */
  lemma QuoteCovered(level: seq<Order>, behind: seq<Order>, p: int, account: Account, quantity: int)
    requires AllPositive(level) && level != [] && forall k :: 0 <= k < |level| ==> level[k].price == p
    requires 0 < quantity <= Total(level)
    ensures var f := Match(level + behind, AnyPrice, account, quantity);
            Cost(f) == p * quantity && f.left == 0
  {
    hide Match, Total, Value, Crossing;
    MatchConcat(level, behind, AnyPrice, account, quantity);
    MatchTradesMaximum(level, AnyPrice, account, quantity);
    MatchConserves(level, AnyPrice, account, quantity);
    AllCross(level);
    OnePriceCost(level, p, account, quantity);
  }

  /** A level that is used up. */
  lemma QuoteDeeper(level: seq<Order>, behind: seq<Order>, p: int, account: Account, quantity: int)
    requires AllPositive(level) && level != [] && forall k :: 0 <= k < |level| ==> level[k].price == p
    requires Total(level) < quantity
    ensures var f := Match(level + behind, AnyPrice, account, quantity);
            var g := Match(behind, AnyPrice, account, quantity - Total(level));
            Cost(f) == p * Total(level) + Cost(g) && f.left == g.left
  {
    TotalPositive(level);
    hide Match, Total, Value, Crossing;
    var f := Match(level, AnyPrice, account, quantity);
    MatchConcat(level, behind, AnyPrice, account, quantity);
    MatchTradesMaximum(level, AnyPrice, account, quantity);
    MatchConserves(level, AnyPrice, account, quantity);
    AllCross(level);
    OnePriceCost(level, p, account, quantity);
    ValueConcat(f.done, Match(behind, AnyPrice, account, f.left).done);
  }

  lemma QuoteStep(level: seq<Order>, behind: seq<Order>, p: int, account: Account, quantity: int)
    requires AllPositive(level) && level != [] && quantity > 0 && forall k :: 0 <= k < |level| ==> level[k].price == p
    ensures var f := Match(level + behind, AnyPrice, account, quantity);
            if quantity >= Total(level) then
              var g := Match(behind, AnyPrice, account, quantity - Total(level));
              Cost(f) == p * Total(level) + Cost(g) && f.left == g.left
            else
              Cost(f) == p * quantity && f.left == 0
  {
    hide Match, Total, Cost;
    if quantity <= Total(level) {
      QuoteCovered(level, behind, p, account, quantity);
      QuoteEnd(behind, account, 0);
    } else {
      QuoteDeeper(level, behind, p, account, quantity);
    }
  }

  lemma QuoteEnd(resting: seq<Order>, account: Account, quantity: int)
    requires quantity <= 0 || resting == []
    ensures var f := Match(resting, AnyPrice, account, quantity);
            Cost(f) == 0 && f.left == quantity
  {
  }

  // ---------- depth ----------

  datatype PriceLevel = PriceLevel(price: int, quantity: int)

  /** The levels of a side, highest price first, with their total quantities. */
  function DepthOf(levels: seq<Level>): seq<PriceLevel> {
    if levels == [] then []
    else DepthOf(levels[1..]) + [PriceLevel(levels[0].price, Total(levels[0].orders))]
  }

  lemma {:induction false} DepthAt(levels: seq<Level>, k: nat)
    requires k < |levels|
    ensures |DepthOf(levels)| == |levels|
    ensures DepthOf(levels)[|levels| - 1 - k] == PriceLevel(levels[k].price, Total(levels[k].orders))
  {
    if |levels| > 1 {
      DepthAt(levels[1..], if k > 0 then k - 1 else 0);
    }
  }

  lemma DepthLast(levels: seq<Level>, n: nat)
    requires n < |levels|
    ensures DepthOf(levels[n..]) == DepthOf(levels[n + 1..]) + [PriceLevel(levels[n].price, Total(levels[n].orders))]
  {
    assert levels[n..][1..] == levels[n + 1..];
  }

  /** All the quantity a queue of orders holds at one price. */
  function QuantityAt(orders: seq<Order>, price: int): int {
    if orders == [] then 0
    else (if orders[0].price == price then orders[0].quantity else 0) + QuantityAt(orders[1..], price)
  }

  lemma {:induction false} QuantityAtConcat(a: seq<Order>, b: seq<Order>, price: int)
    ensures QuantityAt(a + b, price) == QuantityAt(a, price) + QuantityAt(b, price)
  {
    if a == [] {
      assert a + b == b;
    } else {
      assert (a + b)[1..] == a[1..] + b;
      QuantityAtConcat(a[1..], b, price);
    }
  }

  lemma {:induction false} QuantityAtOwnPrice(orders: seq<Order>, p: int, price: int)
    requires forall k :: 0 <= k < |orders| ==> orders[k].price == p
    ensures QuantityAt(orders, price) == if p == price then Total(orders) else 0
  {
    if orders != [] {
      QuantityAtOwnPrice(orders[1..], p, price);
    }
  }

  /** A level's total is what the whole side holds at its price. */
  lemma {:induction false} LevelQuantity(side: Side, levels: seq<Level>, price: int)
    requires Ordered(levels)
    ensures forall i :: 0 <= i < |levels| && levels[i].price == price ==>
              QuantityAt(Flatten(side, levels), price) == Total(levels[i].orders)
    ensures (forall i :: 0 <= i < |levels| ==> levels[i].price != price) ==>
              QuantityAt(Flatten(side, levels), price) == 0
  {
    if levels != [] {
      var first, rest := levels[0], levels[1..];
      LevelQuantity(side, rest, price);
      QuantityAtOwnPrice(first.orders, first.price, price);
      QuantityAtConcat(first.orders, Flatten(side, rest), price);
      QuantityAtConcat(Flatten(side, rest), first.orders, price);
      forall i | 0 <= i < |levels| && levels[i].price == price
        ensures QuantityAt(Flatten(side, levels), price) == Total(levels[i].orders)
      {
        if i > 0 {
          assert rest[i - 1] == levels[i];
        } else {
          assert forall j :: 0 <= j < |rest| ==> rest[j].price != price;
        }
      }
    }
  }

  ghost predicate Lists(depth: seq<PriceLevel>, price: int) {
    exists i :: 0 <= i < |depth| && depth[i].price == price
  }

  ghost predicate Occurs(orders: seq<Order>, price: int) {
    exists k :: 0 <= k < |orders| && orders[k].price == price
  }

  /** A depth listing shows every price of the side exactly once, dearest first, with all the quantity there. */
  ghost predicate ExactDepth(orders: seq<Order>, depth: seq<PriceLevel>) {
    && (forall i, j :: 0 <= i < j < |depth| ==> depth[i].price > depth[j].price)
    && (forall i :: 0 <= i < |depth| ==> depth[i].quantity == QuantityAt(orders, depth[i].price))
    && (forall k :: 0 <= k < |orders| ==> Lists(depth, orders[k].price))
    && (forall i :: 0 <= i < |depth| ==> Occurs(orders, depth[i].price))
  }

  lemma DepthIsExact(side: Side, levels: seq<Level>)
    requires WellFormed(levels)
    ensures ExactDepth(Flatten(side, levels), DepthOf(levels))
  {
    var d, orders, n := DepthOf(levels), Flatten(side, levels), |levels|;
    DepthEntries(levels);
    forall i | 0 <= i < n ensures d[i].quantity == QuantityAt(orders, d[i].price) {
      LevelQuantity(side, levels, levels[n - 1 - i].price);
    }
    forall k | 0 <= k < |orders| ensures Lists(d, orders[k].price) {
      var i := FlattenPrices(side, levels, k);
      assert d[n - 1 - i].price == orders[k].price;
    }
    forall i | 0 <= i < n ensures Occurs(orders, d[i].price) {
      var k := LevelOccurs(side, levels, n - 1 - i);
    }
  }

  lemma LevelOccurs(side: Side, levels: seq<Level>, i: nat) returns (k: nat)
    requires WellFormed(levels) && i < |levels|
    ensures k < |Flatten(side, levels)| && Flatten(side, levels)[k].price == levels[i].price
  {
    var low, high := levels[..i], levels[i + 1..];
    assert levels == low + [levels[i]] + high;
    FlattenAround(side, low, levels[i], high);
    k := |Before(side, low, high)|;
    assert Flatten(side, levels)[k] == levels[i].orders[0];
  }

  lemma DepthEntries(levels: seq<Level>)
    ensures |DepthOf(levels)| == |levels|
    ensures forall i :: 0 <= i < |levels| ==>
              DepthOf(levels)[i] == PriceLevel(levels[|levels| - 1 - i].price, Total(levels[|levels| - 1 - i].orders))
  {
    forall i | 0 <= i < |levels|
      ensures |DepthOf(levels)| == |levels|
      ensures DepthOf(levels)[i] == PriceLevel(levels[|levels| - 1 - i].price, Total(levels[|levels| - 1 - i].orders))
    {
      DepthAt(levels, |levels| - 1 - i);
    }
  }
}

/** The reference matcher: one taker against one side, read as a single queue in price-time order. */
module Matching {
  import opened Orders

  /** `left` is what the taker could not trade, `resting` the side afterwards. */
  datatype Fill = Fill(done: seq<Order>, partial: Option<Order>, processed: int, left: int, resting: seq<Order>) {
    function After(earlier: seq<Order>): Fill {
      this.(done := earlier + done)
    }
  }

  function PartlyFilled(maker: Order, account: Account, quantity: int): Order {
    maker.(quantity := maker.quantity - quantity, owner := account)
  }

  function Match(resting: seq<Order>, limit: Limit, account: Account, quantity: int): Fill
    decreases |resting|
  {
    if quantity <= 0 || resting == [] || !limit.Accepts(resting[0].price) then
      Fill([], None, 0, quantity, resting)
    else if quantity < resting[0].quantity then
      var maker := PartlyFilled(resting[0], account, quantity);
      Fill([], Some(maker), quantity, 0, [maker] + resting[1..])
    else
      Match(resting[1..], limit, account, quantity - resting[0].quantity).After([resting[0]])
  }

  // ---------- what a match does, position by position ----------

  /** The quantity of the makers at the front of the queue whose price the taker accepts. */
  function Crossing(resting: seq<Order>, limit: Limit): seq<Order> {
    if resting == [] || !limit.Accepts(resting[0].price) then [] else [resting[0]] + Crossing(resting[1..], limit)
  }

  /** Price-time priority: the fully filled makers are a prefix of the queue, the one maker that is
      filled in part is the next in line and keeps its place, and nothing behind it changes. It keeps its id, side,
      price and time; what is left of it goes to the taker's account. */
  ghost predicate TakesPrefix(resting: seq<Order>, account: Account, f: Fill) {
    var k := |f.done|;
    && k <= |resting|
    && f.done == resting[..k]
    && (f.partial.None? ==> f.processed == 0 && f.resting == resting[k..])
    && (f.partial.Some? ==>
          && k < |resting|
          && 0 < f.processed < resting[k].quantity
          && f.left == 0
          && (var o := resting[k];
              f.partial.value == Order(o.id, o.side, o.quantity - f.processed, o.price, account, o.time))
          && f.resting == [f.partial.value] + resting[k + 1..])
  }

  lemma PrefixGrows(resting: seq<Order>, account: Account, g: Fill)
    requires resting != [] && TakesPrefix(resting[1..], account, g)
    ensures TakesPrefix(resting, account, g.After([resting[0]]))
  {
    var k, rest := |g.done|, resting[1..];
    assert [resting[0]] + rest[..k] == resting[..k + 1] && rest[k..] == resting[k + 1..];
    if k < |rest| {
      assert rest[k] == resting[k + 1] && rest[k + 1..] == resting[k + 2..];
    }
  }

  lemma {:induction false} MatchTakesPrefix(resting: seq<Order>, limit: Limit, account: Account, quantity: int)
    ensures TakesPrefix(resting, account, Match(resting, limit, account, quantity))
    decreases |resting|
  {
    if quantity <= 0 || resting == [] || !limit.Accepts(resting[0].price) {
    } else if quantity < resting[0].quantity {
    } else {
      MatchTakesPrefix(resting[1..], limit, account, quantity - resting[0].quantity);
      hide TakesPrefix;
      PrefixGrows(resting, account, Match(resting[1..], limit, account, quantity - resting[0].quantity));
    }
  }

  /** Every unit of the taker is either traded or left over, and leaves the side exactly once. */
  lemma {:induction false} MatchConserves(resting: seq<Order>, limit: Limit, account: Account, quantity: int)
    requires quantity >= 0
    ensures var f := Match(resting, limit, account, quantity);
            && quantity == Total(f.done) + f.processed + f.left
            && Total(resting) == Total(f.resting) + Total(f.done) + f.processed
    decreases |resting|
  {
    if quantity <= 0 || resting == [] || !limit.Accepts(resting[0].price) {
    } else if quantity < resting[0].quantity {
      var f := Match(resting, limit, account, quantity);
      assert f.resting[1..] == resting[1..];
    } else {
      MatchConserves(resting[1..], limit, account, quantity - resting[0].quantity);
      var g := Match(resting[1..], limit, account, quantity - resting[0].quantity);
      TotalConcat([resting[0]], g.done);
    }
  }

  ghost function Min(a: int, b: int): int { if a <= b then a else b }

  /** Maximality: the match trades as much as the taker wants and the crossing makers offer. */
  lemma {:induction false} MatchTradesMaximum(resting: seq<Order>, limit: Limit, account: Account, quantity: int)
    requires AllPositive(resting) && quantity >= 0
    ensures var f := Match(resting, limit, account, quantity);
            && f.left >= 0
            && Total(f.done) + f.processed == Min(quantity, Total(Crossing(resting, limit)))
            && (f.left > 0 ==> f.partial.None? && f.done == Crossing(resting, limit))
            && (f.left > 0 && f.resting != [] ==> !limit.Accepts(f.resting[0].price))
    decreases |resting|
  {
    CrossingPositive(resting, limit);
    if quantity <= 0 || resting == [] || !limit.Accepts(resting[0].price) {
    } else if quantity < resting[0].quantity {
      CrossingPositive(resting[1..], limit);
      assert Crossing(resting, limit)[1..] == Crossing(resting[1..], limit);
    } else {
      MatchTradesMaximum(resting[1..], limit, account, quantity - resting[0].quantity);
      var g := Match(resting[1..], limit, account, quantity - resting[0].quantity);
      TotalConcat([resting[0]], g.done);
      TotalConcat([resting[0]], Crossing(resting[1..], limit));
    }
  }

  lemma {:induction false} CrossingPositive(resting: seq<Order>, limit: Limit)
    requires AllPositive(resting)
    ensures AllPositive(Crossing(resting, limit)) && Total(Crossing(resting, limit)) >= 0
  {
    if resting == [] || !limit.Accepts(resting[0].price) {
    } else {
      CrossingPositive(resting[1..], limit);
      TotalConcat([resting[0]], Crossing(resting[1..], limit));
    }
  }

  lemma {:induction false} AllCross(resting: seq<Order>)
    ensures Crossing(resting, AnyPrice) == resting
  {
    if resting != [] {
      AllCross(resting[1..]);
    }
  }

  /** On a sorted side the crossing prefix is every order whose price the taker accepts. */
  lemma {:induction false} CrossingIsEveryAcceptable(side: Side, resting: seq<Order>, limit: Limit, k: nat)
    requires SortedFor(side, resting) && k < |resting|
    requires limit.AnyPrice? || (side == Sell && limit.AtMost?) || (side == Buy && limit.AtLeast?)
    ensures |Crossing(resting, limit)| <= |resting|
    ensures Crossing(resting, limit) == resting[..|Crossing(resting, limit)|]
    ensures limit.Accepts(resting[k].price) <==> k < |Crossing(resting, limit)|
  {
    if !limit.Accepts(resting[0].price) {
      assert k > 0 ==> !Ahead(side, resting[k].price, resting[0].price);
    } else if |resting| > 1 {
      var rest := resting[1..];
      CrossingIsEveryAcceptable(side, rest, limit, if k > 0 then k - 1 else 0);
      assert resting[..1 + |Crossing(rest, limit)|] == [resting[0]] + rest[..|Crossing(rest, limit)|];
    }
  }

  /** Matching level by level is matching the whole queue: what `first` leaves goes on to `second`. */
  lemma {:induction false} MatchConcat(first: seq<Order>, second: seq<Order>, limit: Limit, account: Account,
                                       quantity: int)
    requires forall k :: 0 <= k < |first| ==> limit.Accepts(first[k].price)
    requires AllPositive(first) && quantity > 0
    ensures var f := Match(first, AnyPrice, account, quantity);
            Match(first + second, limit, account, quantity) ==
              if f.left > 0 then Match(second, limit, account, f.left).After(f.done)
              else f.(resting := f.resting + second)
    ensures var f := Match(first, AnyPrice, account, quantity);
            f.left > 0 ==> f.done == first && f.resting == [] && f.partial.None? && f.processed == 0
    decreases |first|
  {
    var f := Match(first, AnyPrice, account, quantity);
    if first == [] {
      assert first + second == second;
      var m := Match(second, limit, account, quantity);
      assert [] + m.done == m.done;
    } else {
      assert (first + second)[1..] == first[1..] + second && (first + second)[0] == first[0];
      if quantity < first[0].quantity {
        assert f.resting + second == [f.partial.value] + (first[1..] + second);
      } else if quantity > first[0].quantity {
        var g := Match(first[1..], AnyPrice, account, quantity - first[0].quantity);
        MatchConcat(first[1..], second, limit, account, quantity - first[0].quantity);
        AfterTwice(Match(second, limit, account, g.left), [first[0]], g.done);
      }
    }
  }

  lemma AfterTwice(f: Fill, first: seq<Order>, second: seq<Order>)
    ensures f.After(second).After(first) == f.After(first + second)
  {
    assert first + (second + f.done) == (first + second) + f.done;
  }
}

/** The matching engine's order book: two sides and an id map over the same list elements. */
module OrderBooks {
  import opened Orders
  import opened Matching
  import opened Books
  import opened BookLaws
  import opened Levels
  import opened OrderQueues
  import opened Links
  import opened OrderSides
  import opened Quotes
  import opened Records

  lemma EmptyIsGood()
    ensures Good(EMPTY) && IdMap(map[], map[], map[]) && EMPTY.AllIds() == {}
  {
  }

  /** Taking an order out of its level is the reference book's cancel. */
  lemma CancelModel(b: Book, side: Side, levels: seq<Level>, i: nat, k: nat, after: Book)
    requires Good(b) && b.On(side) == Flatten(side, levels)
    requires i < |levels| && k < |levels[i].orders| && levels[i].orders[k].side == side
    requires after
               == b.With(side, Flatten(side, RemovedAt(levels, i, k)), b.VolumeOn(side) - levels[i].orders[k].quantity)
    ensures var o := levels[i].orders[k];
            && Cancel(b, o.id) == (after, Some(o))
            && Good(after) && after.AllIds() == b.AllIds() - {o.id}
  {
    hide Flatten, RemovedAt, Find, Books.Remove, Books.Cancel, Ids, DistinctIds, SortedFor, AllPositive, AllOn,
        Uncrossed;
    var o := levels[i].orders[k];
    RemoveIsRemove(side, levels, i, k);
    CancelIs(b, side, o);
    CancelIds(b, o.id);
    CancelKeepsGood(b, o.id);
  }

  lemma CancelIs(b: Book, side: Side, o: Order)
    requires Good(b) && Find(b.On(side), o.id) == Some(o) && o.side == side
    ensures Cancel(b, o.id) == (b.With(side, Books.Remove(b.On(side), o.id), b.VolumeOn(side) - o.quantity), Some(o))
  {
    hide Find, Books.Remove, SortedFor, AllPositive, AllOn, Uncrossed, Ids, DistinctIds;
    FindIffPresent(b.asks, o.id);
    FindIffPresent(b.bids, o.id);
  }

  lemma HeldIsFound(orders: seq<Order>, o: Order)
    requires DistinctIds(orders) && o in orders
    ensures Find(orders, o.id) == Some(o)
  {
    var k :| 0 <= k < |orders| && orders[k] == o;
    RemoveAt(orders, k);
  }

  lemma CancelFront(b: Book, side: Side)
    requires Good(b) && b.On(side) != []
    ensures var o := b.On(side)[0];
            Cancel(b, o.id) == (b.With(side, b.On(side)[1..], b.VolumeOn(side) - o.quantity), Some(o))
  {
    var o := b.On(side)[0];
    FindIffPresent(b.asks, o.id);
    FindIffPresent(b.bids, o.id);
    assert o.id in Ids(b.On(side));
  }

  lemma FlattenFront(side: Side, levels: seq<Level>, o: Order)
    requires WellFormed(levels) && levels != []
    requires var n := BestIndex(side, |levels|); o.price == levels[n].price
    ensures var n := BestIndex(side, |levels|);
            && Flatten(side, levels) != []
            && Flatten(side, levels[n := Level(o.price, levels[n].orders[0 := o])]) == [o] + Flatten(side, levels)[1..]
  {
    var n := BestIndex(side, |levels|);
    var after := levels[n := Level(o.price, levels[n].orders[0 := o])];
    ReplaceKeepsLevels(levels, n, after[n]);
    var behind := BestFirst(side, levels);
    var behind' := BestFirst(side, after);
    assert behind' == behind by {
      assert if side == Sell then after[1..] == levels[1..] else after[..n] == levels[..n];
    }
    assert levels[n].orders[0 := o] == [o] + levels[n].orders[1..];
    assert [o] + levels[n].orders[1..] + behind == [o] + (levels[n].orders + behind)[1..];
  }

  lemma FillKeepsGood(b: Book, side: Side, o: Order)
    requires Good(b) && b.On(side) != []
    requires var head := b.On(side)[0]; o.id == head.id && o.price == head.price && o.side == side && o.quantity > 0
    ensures var after := b.With(side, [o] + b.On(side)[1..], b.VolumeOn(side));
            Good(after) && after.AllIds() == b.AllIds()
  {
    var orders := [o] + b.On(side)[1..];
    ReplaceHeadKeepsSide(side, b.On(side), o);
    SameIds(orders, b.On(side));
    WorseSideKeepsGood(b, side, orders, b.VolumeOn(side));
  }

  /** The match in progress: `done` so far, `resting` still in line; it is over once the taker is filled. */
  ghost function Resume(done: seq<Order>, partial: Option<Order>, processed: int, left: int, resting: seq<Order>,
                        limit: Limit, account: Account): Fill {
    if left > 0 then Match(resting, limit, account, left).After(done) else Fill(done, partial, processed, left, resting)
  }

  lemma ResumeStart(resting: seq<Order>, left: int, limit: Limit, account: Account)
    ensures Resume([], None, 0, left, resting, limit, account) == Match(resting, limit, account, left)
    ensures Total([]) == 0
  {
    var f := Match(resting, limit, account, left);
    assert [] + f.done == f.done;
  }

  /** Consuming the head order whole moves it to `done`. */
  lemma ResumeDone(done: seq<Order>, resting: seq<Order>, left: int, account: Account)
    requires resting != [] && left >= 0 && resting[0].quantity > 0
    ensures Resume(done, None, 0, left + resting[0].quantity, resting, AnyPrice, account)
            == Resume(done + [resting[0]], None, 0, left, resting[1..], AnyPrice, account)
    ensures Total(done + [resting[0]]) == Total(done) + resting[0].quantity
  {
    TotalConcat(done, [resting[0]]);
    var f := Match(resting[1..], AnyPrice, account, left);
    assert done + ([resting[0]] + f.done) == (done + [resting[0]]) + f.done;
  }

  /** A head order larger than what is left ends the match. */
  lemma ResumePart(done: seq<Order>, resting: seq<Order>, left: int, account: Account)
    requires resting != [] && 0 < left < resting[0].quantity
    ensures var maker := PartlyFilled(resting[0], account, left);
            Resume(done, None, 0, left, resting, AnyPrice, account)
            == Resume(done, Some(maker), left, 0, [maker] + resting[1..], AnyPrice, account)
  {
  }

  /** A level with orders fills some of the taker, and leaves it only when it is used up. */
  lemma LevelTrades(level: seq<Order>, left: int, account: Account)
    requires left > 0 && level != [] && AllPositive(level)
    ensures var g := Match(level, AnyPrice, account, left);
            && 0 <= g.left < left
                && (g.left > 0 ==> g.partial.None? && g.processed == 0 && g.resting == [] && g.done == level)
            && (g.done != [] || g.partial.Some?)
  {
    MatchTradesMaximum(level, AnyPrice, account, left);
    MatchConserves(level, AnyPrice, account, left);
    MatchTakesPrefix(level, AnyPrice, account, left);
    AllCross(level);
    TotalPositive(level);
  }

  /** Filling from the best level moves its whole fill to the front of the match. */
  lemma ResumeLevel(done: seq<Order>, level: seq<Order>, behind: seq<Order>, left: int, limit: Limit, account: Account)
    requires left > 0 && level != [] && AllPositive(level)
    requires forall k :: 0 <= k < |level| ==> limit.Accepts(level[k].price)
    ensures var g := Match(level, AnyPrice, account, left);
            && Resume(done, None, 0, left, level + behind, limit, account)
               == Resume(done + g.done, g.partial, g.processed, g.left, g.resting + behind, limit, account)
            && Total(done + g.done) == Total(done) + Total(g.done)
            && 0 <= g.left < left
            && (g.left > 0 ==> g.partial.None? && g.processed == 0)
            && (g.done != [] || g.partial.Some?)
  {
    hide Match, Total, AllPositive;
    var g := Match(level, AnyPrice, account, left);
    MatchConcat(level, behind, limit, account, left);
    LevelTrades(level, left, account);
    TotalConcat(done, g.done);
    if g.left > 0 {
      var h := Match(behind, limit, account, g.left);
      assert done + (g.done + h.done) == (done + g.done) + h.done;
      assert g.resting + behind == behind;
    }
  }

  lemma ResumeEnd(done: seq<Order>, partial: Option<Order>, processed: int, left: int, resting: seq<Order>,
                  limit: Limit, account: Account)
    requires left <= 0 || resting == [] || !limit.Accepts(resting[0].price)
    requires left > 0 ==> partial.None? && processed == 0
    ensures Resume(done, partial, processed, left, resting, limit, account)
              == Fill(done, partial, processed, left, resting)
  {
  }

  /** The front of a side whose queue is `c + rest`, and what replacing or dropping it yields. */
  lemma FrontStep(b: Book, side: Side, c: seq<Order>, rest: seq<Order>, volume: int, quantity: int, o: Order)
    requires c != []
    ensures var m := b.With(side, c + rest, volume);
            && m.On(side) != [] && m.On(side)[0] == c[0]
            && m.With(side, m.On(side)[1..], m.VolumeOn(side) - quantity)
                == b.With(side, c[1..] + rest, volume - quantity)
            && m.With(side, [o] + m.On(side)[1..], m.VolumeOn(side)) == b.With(side, ([o] + c[1..]) + rest, volume)
  {
    assert (c + rest)[1..] == c[1..] + rest;
    assert [o] + (c + rest)[1..] == ([o] + c[1..]) + rest;
  }

  lemma InsertedIds(b: Book, o: Order)
    requires Good(b.With(o.side, Insert(o.side, b.On(o.side), o), b.VolumeOn(o.side) + o.quantity))
    requires Good(b)
    ensures b.With(o.side, Insert(o.side, b.On(o.side), o), b.VolumeOn(o.side) + o.quantity).AllIds()
              == b.AllIds() + {o.id}
  {
    var k := InsertSplits(o.side, b.On(o.side), o);
    SpliceIds(b.On(o.side), k, o);
  }

  /** A fresh taker id stays fresh through its own match. */
  lemma LimitIds(b: Book, side: Side, id: OrderId, limit: Limit, account: Account, quantity: int)
    requires Good(b)
    ensures var after := AfterMatch(b, side.Opposite(), Match(b.On(side.Opposite()), limit, account, quantity));
            id !in b.AllIds() ==> id !in after.AllIds()
  {
    MatchIds(side.Opposite(), b.On(side.Opposite()), limit, account, quantity);
  }

  /** What the reference book needs to price a filled taker. */
  lemma MatchShape(b: Book, maker: Side, limit: Limit, account: Account, quantity: int)
    requires Good(b) && quantity > 0
    ensures var f := Match(b.On(maker), limit, account, quantity);
            && f.processed >= 0 && (f.partial.None? <==> f.processed == 0)
            && Cost(f) >= Total(f.done) + f.processed == quantity - f.left && f.left >= 0
  {
    MatchTakesPrefix(b.On(maker), limit, account, quantity);
    CostIsPositive(b.On(maker), limit, account, quantity);
  }

  /** The record of a good book, with the level lists behind the two queues. */
  ghost predicate SavedFrom(r: BookRecord, b: Book, askLevels: seq<Level>, bidLevels: seq<Level>) {
    && WellFormed(askLevels) && Describes(r.asks, askLevels) && b.asks == Flatten(Sell, askLevels)
    && WellFormed(bidLevels) && Describes(r.bids, bidLevels) && b.bids == Flatten(Buy, bidLevels)
  }

  class OrderBook {
    var orders: map<OrderId, Element>
    var asks: OrderSide
    var bids: OrderSide
    ghost var Repr: set<object>

    /** The reference book that the objects stand for. */
    ghost function Model(): Book
      reads this, asks, bids
    {
      Book(asks.Queue(Sell), bids.Queue(Buy), asks.volume, bids.volume)
    }

    static ghost function BookOf(asks: OrderSide, bids: OrderSide): Book
      reads asks, bids
    {
      Book(asks.Queue(Sell), bids.Queue(Buy), asks.volume, bids.volume)
    }

    function OnSide(side: Side): OrderSide
      reads this
    {
      if side == Sell then asks else bids
    }

    /** Both sides are sound and share nothing; the id map holds exactly the elements of both, each under
        the id it carries; and the book they stand for is a good one. */
    ghost predicate Valid()
      reads this, Repr
      ensures Valid() ==> this in Repr
    {
      && this in Repr && asks in Repr && bids in Repr
      && asks.Repr <= Repr && bids.Repr <= Repr
      && this !in asks.Repr && this !in bids.Repr && asks.Repr !! bids.Repr
      && asks.Valid() && bids.Valid()
      && Mapped()
      && Good(Model())
    }

    ghost predicate Mapped()
      reads this, asks, bids
    {
      && IdMap(orders, asks.values, bids.values)
      && orders.Keys == Model().AllIds()
    }

    constructor ()
      ensures Valid() && fresh(Repr) && Model() == EMPTY
    {
      hide OrderSide.Valid, IdMap, Good;
      EmptyIsGood();
      var a := new OrderSide();
      var b := new OrderSide();
      orders, asks, bids := map[], a, b;
      Repr := {this} + a.Repr + b.Repr;
    }

    /** The order under an id, if it rests in the book. */
    function Order(id: OrderId): Option<Order>
      reads this, orders.Values
    {
      if id in orders then Some(orders[id].value) else None
    }

    /** It is what the two queues have under that id. */
    lemma OrderIsFind(id: OrderId)
      requires Valid()
      ensures Order(id) == if Find(Model().asks, id).Some? then Find(Model().asks, id) else Find(Model().bids, id)
    {
      hide OrderSide.Valid, Flatten, SortedFor, AllPositive, AllOn, Uncrossed;
      FindIffMapped(id);
      if id in orders {
        var side := ElementOf(id);
        OnSide(side).Identified(side);
        HeldIsFound(Model().On(side), orders[id].value);
        FindIffPresent(Model().On(side.Opposite()), id);
      }
    }

    // ---------- cancel ----------

    lemma ElementOf(id: OrderId) returns (side: Side)
      requires Valid() && id in orders
      ensures var e := orders[id];
              && e in OnSide(side).values && e !in OnSide(side.Opposite()).values
              && OnSide(side).values[e] == e.value && e.value.id == id && e.value.side == side
    {
      hide Good, WellFormed, Linked, Indexed, Ordered;
      side := if orders[id] in asks.values then Sell else Buy;
    }

    lemma MissingId(id: OrderId)
      requires Valid() && id !in orders
      ensures Cancel(Model(), id) == (Model(), None)
    {
      hide OrderSide.Shape, WellFormed, IdMap;
      FindIffPresent(Model().asks, id);
      FindIffPresent(Model().bids, id);
    }

    /** Removes a registered element from its side, as `CancelOrder` does once it found it. */
    method Take(id: OrderId) returns (o: Order, ghost i: nat, ghost k: nat)
      requires Valid() && id in orders
      modifies Repr
      ensures Valid() && Repr == old(Repr) && asks == old(asks) && bids == old(bids)
      ensures Cancel(old(Model()), id) == (Model(), Some(o)) && orders == old(orders) - {id}
      ensures var s := old(OnSide(o.side));
              && i < |old(s.levels)| == |old(s.rows)| && old(s.levels)[i].price == o.price
              && k < |old(s.rows)[i]| && old(s.rows)[i][k] == old(orders)[id]
              && old(s.levels)[i].orders == Without(old(s.rows)[i], k)
              && (old(s.levels)[i].orders != [] ==> s.levels == old(s.levels))
    {
      hide OrderSide.Valid, Good, IdMap, Flatten, RemovedAt, Books.Cancel, Ids;
      var e := orders[id];
      ghost var side := ElementOf(id);
      ghost var s, other, before := OnSide(side), OnSide(side.Opposite()), Model();
      Deregister(orders, asks.values, bids.values, side, id);
      orders := orders - {id};
      o, i, k := OnSide(e.value.side).Remove(e);
      assert s.Valid() && other.Valid();
      CancelModel(before, side, old(OnSide(side).book), i, k, Model());
    }

    method CancelOrder(id: OrderId) returns (o: Option<Order>, ghost i: nat, ghost k: nat)
      requires Valid()
      modifies Repr
      ensures Valid() && Repr == old(Repr) && asks == old(asks) && bids == old(bids)
      ensures Cancel(old(Model()), id) == (Model(), o) && orders == old(orders) - {id}
      ensures o.Some? <==> id in old(orders)
      // in the queue the order stood in, only its element is gone
      ensures o.Some? ==>
                var s := old(OnSide(o.value.side));
                && i < |old(s.levels)| == |old(s.rows)| && old(s.levels)[i].price == o.value.price
                && k < |old(s.rows)[i]| && old(s.rows)[i][k] == old(orders)[id]
                && old(s.levels)[i].orders == Without(old(s.rows)[i], k)
                && (old(s.levels)[i].orders != [] ==> s.levels == old(s.levels))
    {
      hide OrderSide.Valid, Good, IdMap, Flatten, Books.Cancel;
      i, k := 0, 0;
      if id !in orders {
        MissingId(id);
        return None, 0, 0;
      }
      var removed;
      removed, i, k := Take(id);
      o := Some(removed);
    }

    // ---------- the best queue ----------

    /** `q` is the queue the best-price iterator of a side returns. */
    ghost predicate Front(side: Side, q: OrderQueue)
      reads this, OnSide(side)
    {
      var s := OnSide(side);
      s.levels != [] && s.levels[BestIndex(side, |s.levels|)] == q
    }

    /** The front queue's elements hold the first orders of the side, in order. */
    lemma FrontOrders(side: Side, q: OrderQueue) returns (behind: seq<Order>)
      requires Valid() && Front(side, q)
      ensures var s := OnSide(side);
              var n := BestIndex(side, |s.levels|);
              && |s.book| == |s.rows| == |s.levels| && n < |s.levels|
              && q.orders == s.rows[n] && |q.orders| == |s.book[n].orders| > 0 && q.price == s.book[n].price
              && q.volume == Total(s.book[n].orders)
              && Model().On(side) == s.book[n].orders + behind
              && behind == Flatten(side, if side == Sell then s.book[1..] else s.book[..|s.book| - 1])
      ensures forall j :: 0 <= j < |q.orders| ==>
                var o := Model().On(side)[j];
                && q.orders[j].value == o && o.price == q.price && o.side == side && o.quantity > 0
                && o.id in orders && orders[o.id] == q.orders[j]
    {
      hide OrderSide.Valid, WellFormed, SortedFor, DistinctIds;
      var s := OnSide(side);
      var n := BestIndex(side, |s.levels|);
      s.LevelFacts(n);
      behind := BestFirst(side, s.book);
      forall j | 0 <= j < |q.orders|
        ensures var o := Model().On(side)[j];
                && q.orders[j].value == o && o.price == q.price && o.side == side && o.quantity > 0
                && o.id in orders && orders[o.id] == q.orders[j]
      {
        assert q.orders[j] == s.rows[n][j];
        assert Model().On(side)[j] == s.book[n].orders[j];
      }
    }

    /** Cancelling the head of the front queue takes the first order off the side. */
    method TakeFront(q: OrderQueue, ghost side: Side) returns (o: Order)
      requires Valid() && Front(side, q)
      modifies Repr
      ensures Valid() && Repr == old(Repr) && asks == old(asks) && bids == old(bids)
      ensures var b := old(Model());
              && b.On(side) != [] && o == b.On(side)[0]
              && Model() == b.With(side, b.On(side)[1..], b.VolumeOn(side) - o.quantity)
      ensures q.orders == old(q.orders)[1..] && (q.orders != [] ==> Front(side, q))
    {
      hide OrderSide.Valid, Good, IdMap, Flatten, Books.Cancel, WellFormed;
      ghost var behind := FrontOrders(side, q);
      ghost var s, n := OnSide(side), BestIndex(side, |OnSide(side).levels|);
      FrontUnique(side, q, n);
      CancelFront(Model(), side);
      var cancelled, i, k := CancelOrder(q.orders[0].value.id);
      o := cancelled.value;
      assert i == n && k == 0;
    }

    /** No other level has the front queue's price, and its elements are distinct. */
    lemma FrontUnique(side: Side, q: OrderQueue, n: nat)
      requires Valid() && Front(side, q) && n == BestIndex(side, |OnSide(side).levels|)
      ensures var s := OnSide(side);
              && |s.rows| == |s.levels| && n < |s.levels|
              && (forall i :: 0 <= i < |s.levels| ==> (s.levels[i].price == q.price <==> i == n))
              && (forall k :: 0 <= k < |s.rows[n]| ==> (s.rows[n][k] == q.orders[0] <==> k == 0))
    {
      hide OrderSide.Valid, Good, IdMap, WellFormed;
      var s := OnSide(side);
      s.LevelFacts(n);
      s.Ascending();
      assert s.rows[n] == q.orders;
    }

    /** A taker too small for the head order overwrites it in place with what is left of it. */
    method FillFront(q: OrderQueue, account: Account, quantity: int, ghost side: Side) returns (partial: Orders.Order)
      requires Valid() && Front(side, q) && Model().On(side) != [] && 0 < quantity < Model().On(side)[0].quantity
      modifies Repr
      ensures Valid() && Repr == old(Repr) && asks == old(asks) && bids == old(bids)
      ensures var b := old(Model());
              && partial == PartlyFilled(b.On(side)[0], account, quantity)
              && Model() == b.With(side, [partial] + b.On(side)[1..], b.VolumeOn(side))
      ensures q.orders == old(q.orders) && Front(side, q)
    {
      hide OrderSide.Valid, Good, IdMap, Flatten, Books.Cancel, WellFormed, Ids, Total;
      ghost var behind := FrontOrders(side, q);
      ghost var b, s, other, n := Model(), OnSide(side), OnSide(side.Opposite()),
          BestIndex(side, |OnSide(side).levels|);
      s.LevelFacts(n);
      var head := q.orders[0].value;
      partial := Orders.Order(head.id, head.side, head.quantity - quantity, head.price, account, head.time);
      Reregister(orders, asks.values, bids.values, q.orders[0], partial);
      FlattenFront(side, s.book, partial);
      FillKeepsGood(b, side, partial);
      OnSide(head.side).Overwrite(q, q.orders[0], partial, n, 0);
      assert s.Valid() && other.Valid();
    }

    /** Fills the taker from one queue, head first, until either runs out. */
    method ProcessQueue(account: Account, orderQueue: OrderQueue, quantityToTrade: int, ghost side: Side)
      returns (done: seq<Orders.Order>, partial: Option<Orders.Order>, partialQuantityProcessed: int, quantityLeft: int)
      requires Valid() && Front(side, orderQueue)
      modifies Repr
      ensures Valid() && Repr == old(Repr) && asks == old(asks) && bids == old(bids)
      ensures var b, n := old(Model()), old(|orderQueue.orders|);
              && n <= |b.On(side)|
              && var f := Match(b.On(side)[..n], AnyPrice, account, quantityToTrade);
                 && done == f.done && partial == f.partial
                 && partialQuantityProcessed == f.processed && quantityLeft == f.left
                 && Model() == b.With(side, f.resting + b.On(side)[n..], b.VolumeOn(side) - Total(f.done))
    {
      hide Valid, Flatten, Front, Match, Resume, Total;
      ghost var behind := FrontOrders(side, orderQueue);
      ghost var b, n := Model(), |orderQueue.orders|;
      ghost var c, rest := b.On(side)[..n], b.On(side)[n..];
      ghost var f := Match(c, AnyPrice, account, quantityToTrade);
      ghost var volume := b.VolumeOn(side);
      assert c + rest == b.On(side);
      ResumeStart(c, quantityToTrade, AnyPrice, account);
      quantityLeft := quantityToTrade;
      done, partial, partialQuantityProcessed := [], None, 0;
      while orderQueue.Len() > 0 && quantityLeft > 0
        invariant Valid() && Repr == old(Repr) && asks == old(asks) && bids == old(bids)
        invariant |orderQueue.orders| == |c| && (c != [] ==> Front(side, orderQueue))
        invariant Model() == b.With(side, c + rest, volume) && volume == b.VolumeOn(side) - Total(done)
        invariant quantityLeft > 0 ==> partial.None? && partialQuantityProcessed == 0
        invariant f == Resume(done, partial, partialQuantityProcessed, quantityLeft, c, AnyPrice, account)
        decreases quantityLeft
      {
        var headOrder := orderQueue.Head().value;
        behind := FrontOrders(side, orderQueue);
        FrontStep(b, side, c, rest, volume, headOrder.quantity, PartlyFilled(headOrder, account, quantityLeft));
        if quantityLeft < headOrder.quantity {
          ResumePart(done, c, quantityLeft, account);
          var reduced := FillFront(orderQueue, account, quantityLeft, side);
          partial := Some(reduced);
          partialQuantityProcessed := quantityLeft;
          quantityLeft := 0;
          c := [reduced] + c[1..];
        } else {
          quantityLeft := quantityLeft - headOrder.quantity;
          ResumeDone(done, c, quantityLeft, account);
          var cancelled := TakeFront(orderQueue, side);
          done := done + [cancelled];
          volume := volume - headOrder.quantity;
          c := c[1..];
        }
      }
      ResumeEnd(done, partial, partialQuantityProcessed, quantityLeft, c, AnyPrice, account);
    }

    // ---------- the best-price iterators ----------

    /** Asks are walked from the cheapest level, bids from the dearest. */
    function Best(maker: Side): OrderQueue?
      reads this, asks, bids
    {
      if maker == Sell then asks.MinPriceQueue() else bids.MaxPriceQueue()
    }

    /** A side with orders has a best queue to dereference, and it is the front of the side's queue. */
    lemma BestIsFront(maker: Side)
      requires Valid()
      ensures OnSide(maker).Len() > 0 ==> Best(maker) != null && Front(maker, Best(maker))
      ensures OnSide(maker).Len() <= 0 ==> Model().On(maker) == []
    {
      hide Good, IdMap, WellFormed;
      OnSide(maker).LenIffDepth();
      OnSide(maker).BestQueues();
      OnSide(maker).DepthIsLevels();
    }

    /** The front queue's share of the side: its orders all carry its price. */
    lemma FrontShare(maker: Side, q: OrderQueue)
      requires Valid() && Front(maker, q)
      ensures var r, n := Model().On(maker), |q.orders|;
              && 0 < n <= |r| && r[..n] != [] && AllPositive(r[..n]) && r == r[..n] + r[n..]
              && (forall k :: 0 <= k < n ==> r[..n][k].price == q.price)
              && r[0].price == q.price
    {
      hide OrderSide.Valid, Good, IdMap, Flatten, WellFormed;
      var behind := FrontOrders(maker, q);
      var r, n := Model().On(maker), |q.orders|;
      assert forall k :: 0 <= k < n ==> r[..n][k] == r[k];
    }

    // ---------- market orders ----------

    method ProcessMarketOrder(account: Account, side: Side, quantity: int)
      returns (done: seq<Orders.Order>, partial: Option<Orders.Order>, partialQuantityProcessed: int,
          quantityLeft: int, err: Option<Error>)
      requires Valid()
      modifies Repr
      ensures Valid() && Repr == old(Repr)
      ensures PlaceMarket(old(Model()), account, side, quantity)
              == MarketResult(Model(), done, partial, partialQuantityProcessed, quantityLeft, err)
    {
      hide OrderSide.Valid, Good, IdMap, Flatten, WellFormed, Front, Match, Resume, Total;
      done, partial, partialQuantityProcessed, quantityLeft, err := [], None, 0, 0, None;
      if quantity <= 0 {
        err := Some(InvalidQuantity);
        return;
      }
      var maker := side.Opposite();
      quantityLeft := quantity;
      ghost var b := Model();
      ghost var r, volume := b.On(maker), b.VolumeOn(maker);
      ghost var f := Match(r, AnyPrice, account, quantity);
      ResumeStart(r, quantity, AnyPrice, account);
      BestIsFront(maker);
      while quantityLeft > 0 && OnSide(maker).Len() > 0
        invariant Valid() && Repr == old(Repr) && asks == old(asks) && bids == old(bids)
        invariant OnSide(maker).Len() > 0 ==> Best(maker) != null && Front(maker, Best(maker))
        invariant OnSide(maker).Len() <= 0 ==> r == []
        invariant Model() == b.With(maker, r, volume) && volume == b.VolumeOn(maker) - Total(done)
        invariant quantityLeft > 0 ==> partial.None? && partialQuantityProcessed == 0
        invariant f == Resume(done, partial, partialQuantityProcessed, quantityLeft, r, AnyPrice, account)
      {
        var bestPrice := Best(maker);
        FrontShare(maker, bestPrice);
        ghost var n := |bestPrice.orders|;
        ResumeLevel(done, r[..n], r[n..], quantityLeft, AnyPrice, account);
        var ordersDone;
        ordersDone, partial, partialQuantityProcessed,
            quantityLeft := ProcessQueue(account, bestPrice, quantityLeft, maker);
        done := done + ordersDone;
        volume := volume - Total(ordersDone);
        r := Model().On(maker);
        BestIsFront(maker);
      }
      ResumeEnd(done, partial, partialQuantityProcessed, quantityLeft, r, AnyPrice, account);
    }

    // ---------- limit orders ----------

    /** Puts what is left of a limit order at its place on its own side and registers it. */
    method Rest(o: Orders.Order)
      requires Valid() && o.id !in orders
      requires Good(Model().With(o.side, Insert(o.side, Model().On(o.side), o), Model().VolumeOn(o.side) + o.quantity))
      modifies Repr
      ensures Valid() && fresh(Repr - old(Repr))
      ensures o.id in orders && fresh(orders[o.id]) && orders == old(orders)[o.id := orders[o.id]]
      ensures var b := old(Model());
              Model() == b.With(o.side, Insert(o.side, b.On(o.side), o), b.VolumeOn(o.side) + o.quantity)
    {
      hide OrderSide.Valid, Good, IdMap, Flatten, WellFormed, Insert, AppendedAt, Ids;
      ghost var b, s, other := Model(), OnSide(o.side), OnSide(o.side.Opposite());
      InsertedIds(b, o);
      s.LevelsOrdered();
      var e, i := OnSide(o.side).Append(o);
      Register(orders, old(asks.values), old(bids.values), e, o);
      AppendIsInsert(o.side, old(OnSide(o.side).book), i, o, s.book);
      orders := orders[o.id := e];
      Repr := Repr + s.Repr;
      assert s.Valid() && other.Valid();
    }

    /** The cost and quantity of a finished match, summed over its makers. */
    method TotalCost(done: seq<Orders.Order>, partial: Option<Orders.Order>, partialQuantityProcessed: int)
      returns (totalQuantity: int, totalPrice: int)
      requires partialQuantityProcessed > 0 ==> partial.Some?
      ensures totalQuantity == Total(done) + (if partialQuantityProcessed > 0 then partialQuantityProcessed else 0)
      ensures totalPrice == Value(done) +
                            (if partialQuantityProcessed > 0 then partial.value.price * partialQuantityProcessed else 0)
    {
      totalQuantity, totalPrice := 0, 0;
      for k := 0 to |done|
        invariant totalQuantity == Total(done[..k]) && totalPrice == Value(done[..k])
      {
        TotalConcat(done[..k], [done[k]]);
        ValueConcat(done[..k], [done[k]]);
        assert done[..k + 1] == done[..k] + [done[k]];
        totalQuantity := totalQuantity + done[k].quantity;
        totalPrice := totalPrice + done[k].price * done[k].quantity;
      }
      assert done[..|done|] == done;
      if partialQuantityProcessed > 0 {
        totalQuantity := totalQuantity + partialQuantityProcessed;
        totalPrice := totalPrice + partial.value.price * partialQuantityProcessed;
      }
    }

    /** The walk over the crossing levels: the whole match of the limit order against the other side. */
    method WalkLevels(account: Account, side: Side, quantity: int, price: int)
      returns (done: seq<Orders.Order>, partial: Option<Orders.Order>, partialQuantityProcessed: int,
          quantityToTrade: int)
      requires Valid() && quantity > 0
      modifies Repr
      ensures Valid() && Repr == old(Repr)
      ensures done == [] && partial.None? ==> orders == old(orders)
      ensures var b, maker := old(Model()), side.Opposite();
              var f := Match(b.On(maker), LimitOf(side, price), account, quantity);
              && f == Fill(done, partial, partialQuantityProcessed, quantityToTrade, Model().On(maker))
              && Model() == AfterMatch(b, maker, f)
    {
      hide OrderSide.Valid, Good, IdMap, Flatten, WellFormed, Front, Match, Resume, Total, AllPositive, Ids;
      var maker, comparator := side.Opposite(), LimitOf(side, price);
      done, partial, partialQuantityProcessed, quantityToTrade := [], None, 0, quantity;
      ghost var b := Model();
      ghost var r, volume := b.On(maker), b.VolumeOn(maker);
      ghost var f := Match(r, comparator, account, quantity);
      ResumeStart(r, quantity, comparator, account);
      BestIsFront(maker);
      var bestPrice := Best(maker);
      if OnSide(maker).Len() > 0 { FrontShare(maker, bestPrice); }
      while quantityToTrade > 0 && OnSide(maker).Len() > 0 && comparator.Accepts(bestPrice.price)
        invariant Valid() && Repr == old(Repr) && asks == old(asks) && bids == old(bids)
        invariant OnSide(maker).Len() > 0 ==>
                    bestPrice != null && Front(maker, bestPrice) && r != [] && r[0].price == bestPrice.price
        invariant OnSide(maker).Len() <= 0 ==> r == []
        invariant Model() == b.With(maker, r, volume) && volume == b.VolumeOn(maker) - Total(done)
        invariant done == [] && partial.None? ==> orders == old(orders)
        invariant quantityToTrade > 0 ==> partial.None? && partialQuantityProcessed == 0
        invariant f == Resume(done, partial, partialQuantityProcessed, quantityToTrade, r, comparator, account)
        decreases quantityToTrade
      {
        FrontShare(maker, bestPrice);
        ghost var n := |bestPrice.orders|;
        ResumeLevel(done, r[..n], r[n..], quantityToTrade, comparator, account);
        var ordersDone;
        ordersDone, partial, partialQuantityProcessed,
            quantityToTrade := ProcessQueue(account, bestPrice, quantityToTrade, maker);
        done := done + ordersDone;
        volume := volume - Total(ordersDone);
        r := Model().On(maker);
        bestPrice := Best(maker);
        BestIsFront(maker);
        if OnSide(maker).Len() > 0 { FrontShare(maker, bestPrice); }
      }
      ResumeEnd(done, partial, partialQuantityProcessed, quantityToTrade, r, comparator, account);
    }

    /** Whether an id is taken, seen from the map and from the two queues. */
    lemma FindIffMapped(id: OrderId)
      requires Valid()
      ensures id in orders <==> Find(Model().asks, id).Some? || Find(Model().bids, id).Some?
    {
      hide OrderSide.Valid, IdMap, Flatten, WellFormed;
      FindIffPresent(Model().asks, id);
      FindIffPresent(Model().bids, id);
    }

    method ProcessLimitOrder(account: Account, side: Side, orderID: OrderId, quantity: int, price: int, now: int)
      returns (done: seq<Orders.Order>, partial: Option<Orders.Order>, partialQuantityProcessed: int,
          err: Option<Error>)
      requires Valid()
      modifies Repr
      ensures Valid() && fresh(Repr - old(Repr))
      ensures PlaceLimit(old(Model()), account, side, orderID, quantity, price, now)
              == LimitResult(Model(), done, partial, partialQuantityProcessed, err)
      // one that meets no maker adds its own element to the id map and leaves all others
      ensures err.None? && done == [] && partial.None? ==>
                orderID in orders && fresh(orders[orderID]) && orders == old(orders)[orderID := orders[orderID]]
    {
      hide OrderSide.Valid, Good, IdMap, Flatten, WellFormed, Find, Match, Insert, Total, RoundDiv, Value;
      done, partial, partialQuantityProcessed, err := [], None, 0, None;
      FindIffMapped(orderID);
      if orderID in orders {
        err := Some(OrderExists);
        return;
      }
      if quantity <= 0 {
        err := Some(InvalidQuantity);
        return;
      }
      if price <= 0 {
        err := Some(InvalidPrice);
        return;
      }
      ghost var b := Model();
      ghost var f := Match(b.On(side.Opposite()), LimitOf(side, price), account, quantity);
      LimitKeepsGood(b, account, side, orderID, quantity, price, now);
      LimitIds(b, side, orderID, LimitOf(side, price), account, quantity);
      MatchShape(b, side.Opposite(), LimitOf(side, price), account, quantity);
      var quantityToTrade;
      done, partial, partialQuantityProcessed, quantityToTrade := WalkLevels(account, side, quantity, price);
      if quantityToTrade > 0 {
        var o := Orders.Order(orderID, side, quantityToTrade, price, account, now);
        if |done| > 0 {
          partialQuantityProcessed := quantity - quantityToTrade;
          partial := Some(o);
        }
        Rest(o);
      } else {
        var totalQuantity, totalPrice := TotalCost(done, partial, partialQuantityProcessed);
        done := done + [Orders.Order(orderID, side, quantity, RoundDiv(totalPrice, totalQuantity), account, now)];
      }
    }

    // ---------- depth and quotes ----------

    method SideDepth(s: OrderSide) returns (depth: seq<PriceLevel>)
      requires s.Valid()
      ensures depth == DepthOf(s.book)
    {
      hide OrderSide.Valid, WellFormed, Total;
      s.BestQueues();
      s.DepthIsLevels();
      var level := s.MaxPriceQueue();
      ghost var k := |s.levels| - 1;
      depth := [];
      while level != null
        invariant -1 <= k < |s.levels| == |s.book| && level == (if k < 0 then null else s.levels[k])
        invariant depth == DepthOf(s.book[k + 1..])
        decreases k
      {
        s.LevelFacts(k);
        s.Ascending();
        DepthLast(s.book, k);
        depth := depth + [PriceLevel(level.price, level.volume)];
        ghost var i;
        level, i := s.LessThan(level.price);
        assert k > 0 ==> s.levels[k - 1].price < s.levels[k].price;
        assert i == k - 1;
        k := i;
      }
    }

    /** Both sides, dearest level first. */
    method Depth() returns (askDepth: seq<PriceLevel>, bidDepth: seq<PriceLevel>)
      requires Valid()
      ensures ExactDepth(Model().asks, askDepth) && ExactDepth(Model().bids, bidDepth)
    {
      hide OrderSide.Valid, Good, IdMap, WellFormed, ExactDepth, DepthOf;
      asks.LevelsOrdered();
      bids.LevelsOrdered();
      DepthIsExact(Sell, asks.book);
      DepthIsExact(Buy, bids.book);
      askDepth := SideDepth(asks);
      bidDepth := SideDepth(bids);
    }

    /** The next level of a side after the one at `price`, walking away from the best. */
    method Next(maker: Side, price: int, ghost k: nat) returns (level: OrderQueue?, ghost next: int)
      requires OnSide(maker).Valid() && k < |OnSide(maker).levels| && OnSide(maker).levels[k].price == price
      ensures var s := OnSide(maker);
              && next == (if maker == Sell then k + 1 else k - 1)
              && level == if 0 <= next < |s.levels| then s.levels[next] else null
    {
      hide OrderSide.Valid;
      OnSide(maker).Ascending();
      ghost var s := OnSide(maker);
      assert k > 0 ==> s.levels[k - 1].price < s.levels[k].price;
      assert k + 1 < |s.levels| ==> s.levels[k].price < s.levels[k + 1].price;
      if maker == Sell {
        level, next := OnSide(maker).GreaterThan(price);
        assert next == k + 1;
      } else {
        level, next := OnSide(maker).LessThan(price);
        assert next == k - 1;
      }
    }

    /** The levels from number `k` on, walking away from the best. */
    ghost function From(maker: Side, k: int): seq<Level>
      reads this, OnSide(maker)
      requires 0 <= k + 1 && k <= |OnSide(maker).book|
    {
      if maker == Sell then (if k < 0 then [] else OnSide(maker).book[k..])
      else if k < |OnSide(maker).book| then OnSide(maker).book[..k + 1] else []
    }

    static lemma NoLevels(maker: Side)
      ensures Flatten(maker, []) == []
    {
    }

    lemma FromStep(maker: Side, k: nat)
      requires Valid() && k < |OnSide(maker).book|
      ensures var s := OnSide(maker);
              var next := if maker == Sell then k + 1 else k - 1;
              && Flatten(maker, From(maker, k)) == s.book[k].orders + Flatten(maker, From(maker, next))
              && AllPositive(s.book[k].orders)
    {
      hide OrderSide.Valid, IdMap, WellFormed, Flatten, SortedFor, DistinctIds;
      var s := OnSide(maker);
      s.LevelsOrdered();
      PartsWellFormed(s.book, if maker == Sell then 0 else k + 1, if maker == Sell then k else k + 1);
      var ls := From(maker, k);
      var behind := BestFirst(maker, ls);
      var low, high := s.book[..k], s.book[k + 1..];
      assert s.book == low + [s.book[k]] + high;
      FlattenAround(maker, low, s.book[k], high);
      var before := Before(maker, low, high);
      forall j | 0 <= j < |s.book[k].orders| ensures s.book[k].orders[j].quantity > 0 {
        assert s.book[k].orders[j] == Flatten(maker, s.book)[|before| + j] == Model().On(maker)[|before| + j];
      }
    }

    /** The total price for a quantity, level by level from the best: exactly what executing it as a market
        order would cost, with an error exactly when such an order would be left short. */
    method CalculateMarketPrice(side: Side, quantity: int, ghost account: Account)
      returns (price: int, err: Option<Error>)
      requires Valid()
      ensures var f := Match(Model().On(side.Opposite()), AnyPrice, account, quantity);
              && price == Cost(f)
              && err == (if f.left > 0 then Some(InsufficientQuantity) else None)
    {
      hide OrderSide.Valid, Good, IdMap, WellFormed, Flatten, Match, Total, Cost;
      var maker := side.Opposite();
      ghost var s := OnSide(maker);
      var level := Best(maker);
      s.BestQueues();
      s.DepthIsLevels();
      ghost var k := BestIndex(maker, |s.levels|);
      ghost var f := Match(Model().On(maker), AnyPrice, account, quantity);
      assert From(maker, k) == s.book;
      price, err := 0, None;
      var left := quantity;
      while left > 0 && level != null
        invariant -1 <= k <= |s.levels| == |s.book| && level == (if 0 <= k < |s.levels| then s.levels[k] else null)
        invariant var g := Match(Flatten(maker, From(maker, k)), AnyPrice, account, left);
                  f.left == g.left && Cost(f) == price + Cost(g)
        decreases left > 0, if maker == Sell then |s.levels| - k else k + 1
      {
        s.LevelFacts(k);
        FromStep(maker, k);
        QuoteStep(s.book[k].orders, Flatten(maker, From(maker, if maker == Sell then k + 1 else k - 1)), level.price,
            account, left);
        var levelVolume, levelPrice := level.volume, level.price;
        if left >= levelVolume {
          price := price + levelPrice * levelVolume;
          left := left - levelVolume;
          ghost var next;
          level, next := Next(maker, levelPrice, k);
          k := next;
        } else {
          price := price + levelPrice * left;
          left := 0;
          QuoteEnd(Flatten(maker, From(maker, k)), account, 0);
        }
      }
      assert left <= 0 || From(maker, k) == [];
      NoLevels(maker);
      QuoteEnd(Flatten(maker, From(maker, k)), account, left);
      if left > 0 {
        err := Some(InsufficientQuantity);
      }
    }

    // ---------- save and load ----------

    method Save() returns (r: BookRecord, ghost askLevels: seq<Level>, ghost bidLevels: seq<Level>)
      requires Valid()
      ensures Describes(r.asks, asks.book) && Describes(r.bids, bids.book)
      ensures SavedFrom(r, Model(), askLevels, bidLevels)
    {
      hide Good, IdMap, WellFormed, Describes;
      askLevels, bidLevels := asks.book, bids.book;
      asks.LevelsOrdered();
      bids.LevelsOrdered();
      var a := asks.Save();
      var b := bids.Save();
      r := BookRecord(a, b);
    }

    /** The book as read back from any record: both sides as recorded, and every element under its id. From the
        record of a good book `b` it is sound and holds the same orders in the same places, without owners and
        with the volume counters at zero. */
    constructor Load(r: BookRecord, ghost b: Book, ghost askLevels: seq<Level>, ghost bidLevels: seq<Level>)
      ensures fresh(Repr) && asks.LoadedFrom(r.asks) && bids.LoadedFrom(r.bids)
      ensures forall id :: id in orders ==>
                (asks.Holds(orders[id]) || bids.Holds(orders[id])) && orders[id].value.id == id
      ensures forall e :: asks.Holds(e) || bids.Holds(e) ==> e.value.id in orders
      // of two elements with one id, one of the bids' is kept
      ensures forall e :: bids.Holds(e) ==> bids.Holds(orders[e.value.id])
      ensures Good(b) && SavedFrom(r, b, askLevels, bidLevels) ==> Valid() && Model() == Reloaded(b)
    {
      hide OrderSide.Valid, Good, IdMap, SavedFrom, Reloaded, OrderSide.LoadedFrom, OrderSide.Holds, Flatten, Ids;
      var a, d := LoadSides(r, b, askLevels, bidLevels);
      var index := Index(a, d);
      asks, bids, orders := a, d, index;
      Repr := {this} + a.Repr + d.Repr;
      if Good(b) && SavedFrom(r, b, askLevels, bidLevels) {
        ReloadedGood(b);
      }
    }

    static method LoadSides(r: BookRecord, ghost b: Book, ghost askLevels: seq<Level>, ghost bidLevels: seq<Level>)
      returns (asks: OrderSide, bids: OrderSide)
      ensures asks.LoadedFrom(r.asks) && bids.LoadedFrom(r.bids)
      ensures fresh(asks) && fresh(bids) && fresh(asks.Repr) && fresh(bids.Repr)
      ensures SavedFrom(r, b, askLevels, bidLevels) ==>
                asks.Valid() && bids.Valid() && asks.Repr !! bids.Repr && BookOf(asks, bids) == Reloaded(b)
    {
      hide OrderSide.Valid, WellFormed, Describes, Flatten, EraseAll, EraseLevels, OrderSide.LoadedFrom;
      asks := new OrderSide.Load(r.asks, askLevels);
      bids := new OrderSide.Load(r.bids, bidLevels);
      EraseFlatten(Sell, askLevels);
      EraseFlatten(Buy, bidLevels);
    }

    /** The id map over two loaded sides. */
    static method Index(asks: OrderSide, bids: OrderSide) returns (orders: map<OrderId, Element>)
      ensures forall id :: id in orders ==>
                (asks.Holds(orders[id]) || bids.Holds(orders[id])) && orders[id].value.id == id
      ensures forall e :: asks.Holds(e) || bids.Holds(e) ==> e.value.id in orders
      ensures forall e :: bids.Holds(e) ==> bids.Holds(orders[e.value.id])
      ensures asks.Valid() && bids.Valid() && Good(BookOf(asks, bids)) ==>
                IdMap(orders, asks.values, bids.values) && orders.Keys == BookOf(asks, bids).AllIds()
    {
      hide OrderSide.Valid, Good, IdMap, Flatten;
      var found := asks.Elements();
      var more := bids.Elements();
      orders := IndexElements(found, more);
      if asks.Valid() && bids.Valid() && Good(BookOf(asks, bids)) {
        asks.HeldIsValued();
        bids.HeldIsValued();
        DistinctAcross(asks, bids);
        MappedBack(asks, bids, orders);
      }
    }

    /** No two elements of the book carry the same id. */
    static lemma DistinctAcross(asks: OrderSide, bids: OrderSide)
      requires asks.Valid() && bids.Valid() && Good(BookOf(asks, bids))
      ensures forall e, f :: (e in asks.values || e in bids.values) && (f in asks.values || f in bids.values)
                && e.value.id == f.value.id
                ==> e == f
    {
      hide OrderSide.Valid, Flatten, SortedFor, Uncrossed;
      asks.Identified(Sell);
      bids.Identified(Buy);
    }

    static lemma SideBack(s: OrderSide, side: Side, orders: map<OrderId, Element>)
      requires s.Valid() && SideOk(side, s.Queue(side))
      requires forall e :: e in s.values ==> e.value.id in orders && orders[e.value.id] == e
      ensures Registered(orders, s.values, side)
      ensures forall e :: e in s.values ==> e.value == s.values[e] && e.value.id in Ids(s.Queue(side))
      ensures forall id :: id in Ids(s.Queue(side)) ==> id in orders
    {
      hide OrderSide.Valid, Flatten, SortedFor, DistinctIds, AllPositive, Ids;
      s.Identified(side);
      forall id | id in Ids(s.Queue(side)) ensures id in orders {
        var e := s.Carrier(side, id);
      }
    }

    static lemma MappedBack(asks: OrderSide, bids: OrderSide, orders: map<OrderId, Element>)
      requires asks.Valid() && bids.Valid() && Good(BookOf(asks, bids))
      requires forall e :: e in asks.values || e in bids.values ==> e.value.id in orders && orders[e.value.id] == e
      requires forall id :: id in orders ==>
                 (orders[id] in asks.values || orders[id] in bids.values) && orders[id].value.id == id
      ensures IdMap(orders, asks.values, bids.values) && orders.Keys == BookOf(asks, bids).AllIds()
    {
      hide OrderSide.Valid, Flatten, SideOk, Uncrossed, Registered, Ids;
      SideBack(asks, Sell, orders);
      SideBack(bids, Buy, orders);
      assert forall id :: id in orders ==> id in BookOf(asks, bids).AllIds();
    }

    /** Each element under the id it carries; of two with one id the later is kept. */
    static method IndexElements(found: seq<Element>, more: seq<Element>) returns (orders: map<OrderId, Element>)
      ensures forall e :: e in found + more ==> e.value.id in orders
      ensures forall id :: id in orders ==> orders[id] in found + more && orders[id].value.id == id
      ensures forall e :: e in more ==> e.value.id in orders && orders[e.value.id] in more
    {
      orders := map[];
      var all := found + more;
      for k := 0 to |all|
        invariant forall j :: 0 <= j < k ==> all[j].value.id in orders
        invariant forall id :: id in orders ==> orders[id] in all && orders[id].value.id == id
        invariant forall j :: |found| <= j < k ==> orders[all[j].value.id] in more
      {
        orders := orders[all[k].value.id := all[k]];
      }
      forall e | e in more ensures e.value.id in orders && orders[e.value.id] in more {
        var j :| 0 <= j < |more| && more[j] == e;
        assert all[|found| + j] == e;
      }
    }
  }
}

/** What a match row and the trades made of it record, against what was traded. */
module Trades {
  import opened Orders
  import opened Matching
  import opened Books
  import opened BookLaws
  import BookRuns
  import opened Simulation
  import Lockstep
  import OrderBooks
  import opened MatchTables
  import opened Markets

  // ---------- the makers of a row ----------

  lemma {:induction false} ExceptNone(taker: OrderId, orders: seq<Order>)
    requires forall k :: 0 <= k < |orders| ==> orders[k].id != taker
    ensures Except(taker, orders) == orders
  {
    if orders != [] {
      ExceptNone(taker, orders[..|orders| - 1]);
      assert orders == orders[..|orders| - 1] + [orders[|orders| - 1]];
    }
  }

  lemma ExceptLast(taker: OrderId, orders: seq<Order>, o: Order)
    ensures Except(taker, orders + [o]) == Except(taker, orders) + (if o.id != taker then [o] else [])
  {
    assert (orders + [o])[..|orders|] == orders;
  }

  /** The makers in the order they were met: those filled whole, then the one filled in part. */
  function Met(f: Fill): seq<Order> {
    f.done + (if f.partial.Some? then [f.partial.value] else [])
  }

  lemma ReportedAs(b: Book, o: LimitOrder, now: int) returns (t: Order)
    requires Good(b) && PlaceLimit(b, o.creator, o.side, o.id, o.quantity, o.price, now).error.None?
    ensures var r := PlaceLimit(b, o.creator, o.side, o.id, o.quantity, o.price, now);
            var f := Match(b.On(o.side.Opposite()), LimitOf(o.side, o.price), o.creator, o.quantity);
            && t.id == o.id
            && r.done == (if f.left > 0 then f.done else f.done + [t])
            && r.partial == (if f.left > 0 && f.done != [] then Some(t) else f.partial)
  {
    hide Find, Match, Insert, Total, Value, Cost, RoundDiv, Good;
    var r := PlaceLimit(b, o.creator, o.side, o.id, o.quantity, o.price, now);
    var f := Match(b.On(o.side.Opposite()), LimitOf(o.side, o.price), o.creator, o.quantity);
    t := if f.left <= 0 then r.done[|r.done| - 1]
    else Order(o.id, o.side, f.left, o.price, o.creator, now);
  }

  lemma OthersDone(b: Book, o: LimitOrder)
    requires Good(b) && o.id !in b.AllIds() && o.quantity > 0
    ensures var f := Match(b.On(o.side.Opposite()), LimitOf(o.side, o.price), o.creator, o.quantity);
            && Except(o.id, f.done) == f.done && (f.partial.Some? ==> f.partial.value.id != o.id)
            && (f.left > 0 ==> f.partial.None?)
  {
    var resting, limit := b.On(o.side.Opposite()), LimitOf(o.side, o.price);
    var f := Match(resting, limit, o.creator, o.quantity);
    Lockstep.TakerNotMaker(resting, limit, o.creator, o.quantity, o.id);
    MatchTakesPrefix(resting, limit, o.creator, o.quantity);
    hide Match, Except;
    forall k | 0 <= k < |f.done| ensures f.done[k].id != o.id {
      assert f.done[k].id == resting[k].id && resting[k].id in Ids(resting);
    }
    ExceptNone(o.id, f.done);
  }

  lemma MakersMet(b: Book, o: LimitOrder, now: int)
    requires Good(b) && PlaceLimit(b, o.creator, o.side, o.id, o.quantity, o.price, now).error.None?
    ensures var f := Match(b.On(o.side.Opposite()), LimitOf(o.side, o.price), o.creator, o.quantity);
            Makers(o.id, PlaceLimit(b, o.creator, o.side, o.id, o.quantity, o.price, now)) == Met(f)
  {
    var k := BookRuns.LimitReports(b, o.creator, o.side, o.id, o.quantity, o.price, now);
    hide Match, PlaceLimit, Except, Good, BookRuns.Reported;
    var t := ReportedAs(b, o, now);
    OthersDone(b, o);
    var f := Match(b.On(o.side.Opposite()), LimitOf(o.side, o.price), o.creator, o.quantity);
    assert f.done + [] == f.done && (f.done + [t]) + [] == f.done + [t];
    ExceptLast(o.id, f.done, t);
    if f.left <= 0 && f.partial.Some? {
      ExceptLast(o.id, f.done + [t], f.partial.value);
    }
  }

  // ---------- what a row holds ----------

  /** The order's row names the orders in line opposite it, as many as it met. Of each it filled whole the amount is
      its quantity; of one it filled in part it is what is left of it. */
  ghost predicate Recorded(row: MatchRecord, market: MarketId, o: LimitOrder, resting: seq<Order>, f: Fill) {
    && row.market == market && row.account == o.creator && row.taker == o.id && row.takerSide == o.side
    && |row.makers| == |row.amounts| == |f.done| + (if f.partial.Some? then 1 else 0) <= |resting|
    && forall j :: 0 <= j < |row.makers| ==>
         && row.makers[j] == resting[j].id
         && row.amounts[j] == resting[j].quantity - (if j < |f.done| then 0 else f.processed)
  }

  lemma {:induction false} IdsOfAt(orders: seq<Order>)
    ensures |IdsOf(orders)| == |orders| && forall k :: 0 <= k < |orders| ==> IdsOf(orders)[k] == orders[k].id
  {
    if orders != [] {
      IdsOfAt(orders[1..]);
    }
  }

  lemma MetInLine(o: LimitOrder, resting: seq<Order>, f: Fill, row: MatchRecord, market: MarketId)
    requires TakesPrefix(resting, o.creator, f)
    requires row == MatchRecord(market, o.creator, o.id, IdsOf(Met(f)), Quantities(Met(f)), o.side, false)
    ensures Recorded(row, market, o, resting, f)
  {
    IdsOfAt(Met(f));
  }

  /** Placing an order that meets makers files one such row, not yet finished. */
  lemma RowRecorded(s: State, market: MarketId, o: LimitOrder, now: int)
    requires Good(s.book) && o.id !in s.filed
    requires PlaceLimit(s.book, o.creator, o.side, o.id, o.quantity, o.price, now).error.None?
    ensures var resting := s.book.On(o.side.Opposite());
            var f := Match(resting, LimitOf(o.side, o.price), o.creator, o.quantity);
            var after := Processed(s, market, o, true, now);
            && after.filed == s.filed[o.id := o]
            && if f.done == [] && f.partial.None? then after.rows == s.rows
               else
                 && |after.rows| == |s.rows| + 1 && after.rows[..|s.rows|] == s.rows
                 && !after.rows[|s.rows|].finished
                 && Recorded(after.rows[|s.rows|], market, o, resting, f)
  {
    var resting, limit := s.book.On(o.side.Opposite()), LimitOf(o.side, o.price);
    var f := Match(resting, limit, o.creator, o.quantity);
    MatchTakesPrefix(resting, limit, o.creator, o.quantity);
    MakersMet(s.book, o, now);
    MetNone(s.book, o, now);
    var row := MatchRecord(market, o.creator, o.id, IdsOf(Met(f)), Quantities(Met(f)), o.side, false);
    hide Match, PlaceLimit, Makers, IdsOf, Quantities, Recorded, TakesPrefix, Good;
    MetInLine(o, resting, f, row, market);
    TakenIs(s, market, o, now, Met(f), row, Request(market, o.id, IdsOf(Met(f))));
    assert (s.rows + [row])[..|s.rows|] == s.rows;
  }

  lemma MetNone(b: Book, o: LimitOrder, now: int)
    requires Good(b) && PlaceLimit(b, o.creator, o.side, o.id, o.quantity, o.price, now).error.None?
    ensures var r := PlaceLimit(b, o.creator, o.side, o.id, o.quantity, o.price, now);
            var f := Match(b.On(o.side.Opposite()), LimitOf(o.side, o.price), o.creator, o.quantity);
            r.done == [] && r.partial.None? <==> f.done == [] && f.partial.None?
  {
    var k := BookRuns.LimitReports(b, o.creator, o.side, o.id, o.quantity, o.price, now);
    var t := ReportedAs(b, o, now);
    Lockstep.TakerNotMaker(b.On(o.side.Opposite()), LimitOf(o.side, o.price), o.creator, o.quantity, o.id);
  }

  /** What each maker gave up, in the book: the amounts recorded say so exactly when no maker was filled in part, or
      one was by half. */
  lemma AmountsTradedIff(row: MatchRecord, market: MarketId, o: LimitOrder, resting: seq<Order>, f: Fill)
    requires Recorded(row, market, o, resting, f) && TakesPrefix(resting, o.creator, f)
    ensures (forall j :: 0 <= j < |row.amounts| ==>
              row.amounts[j] == if j < |f.done| then resting[j].quantity else f.processed)
            <==> f.partial.None? || 2 * f.processed == resting[|f.done|].quantity
  {
    if f.partial.Some? {
      var k := |f.done|;
      assert row.amounts[k] == resting[k].quantity - f.processed;
    }
  }

  // ---------- through any stream ----------

  /** Rows stay but for being finished, and filed orders stay as they are. */
  ghost predicate Keeps(s: State, after: State) {
    && |s.rows| <= |after.rows|
    && (forall k :: 0 <= k < |s.rows| ==> after.rows[k] == s.rows[k].(finished := after.rows[k].finished))
    && (forall id :: id in s.filed ==> id in after.filed && after.filed[id] == s.filed[id])
  }

  lemma HandledKeeps(s: State, market: MarketId, m: Message)
    requires Good(s.book)
    ensures Keeps(s, Handled(s, market, m))
  {
    hide PlaceLimit, Good, Makers, IdsOf, Quantities;
  }

  lemma {:induction false} StreamKeeps(s: State, market: MarketId, ms: seq<Message>)
    requires Good(s.book)
    ensures Keeps(s, HandledAll(s, market, ms))
    decreases |ms|
  {
    if ms != [] {
      HandledKeeps(s, market, ms[0]);
      StreamKeeps(Handled(s, market, ms[0]), market, ms[1..]);
      hide Handled, Good;
    }
  }

  /** Whatever comes between the match and its confirmation, the trades recorded are one for each order met, in line:
      between the taker's creator and the maker's, at the price the maker rested at, on the taker's side, over the
      row's amount. */
  lemma StreamTrades(s: State, market: MarketId, o: LimitOrder, now: int, ms: seq<Message>, j: nat)
    requires Good(s.book) && Filed(s) && o.id !in s.filed
    requires PlaceLimit(s.book, o.creator, o.side, o.id, o.quantity, o.price, now).error.None?
    requires var f := Match(s.book.On(o.side.Opposite()), LimitOf(o.side, o.price), o.creator, o.quantity);
             j < |f.done| + (if f.partial.Some? then 1 else 0)
    ensures var resting := s.book.On(o.side.Opposite());
            var f := Match(resting, LimitOf(o.side, o.price), o.creator, o.quantity);
            var taken := Processed(s, market, o, true, now);
            && Good(taken.book)
            && var later := HandledAll(taken, market, ms);
               && |s.rows| < |later.rows| && j < |resting| && resting[j].id in s.filed
               && var row := later.rows[|s.rows|];
                  && |row.amounts| == |row.makers|
                  && var trades := TradesOf(later.filed, row);
                     && j < |trades| == |f.done| + (if f.partial.Some? then 1 else 0)
                     && trades[j] == Trade(market, o.creator, s.filed[resting[j].id].creator,
                        resting[j].quantity - (if j < |f.done| then 0 else f.processed), resting[j].price, o.side)
  {
    LimitKeepsGood(s.book, o.creator, o.side, o.id, o.quantity, o.price, now);
    RowRecorded(s, market, o, now);
    var resting := s.book.On(o.side.Opposite());
    var f := Match(resting, LimitOf(o.side, o.price), o.creator, o.quantity);
    var taken := Processed(s, market, o, true, now);
    assert Recorded(taken.rows[|s.rows|], market, o, resting, f) && j < |resting|;
    EntryOf(s.book, o.side.Opposite(), j);
    assert resting[j].id in s.filed && s.filed[resting[j].id].price == resting[j].price;
    hide PlaceLimit, Match, Good, Entries, Processed, HandledAll, Recorded, TradesOf, Filed;
    StreamKeeps(taken, market, ms);
    var later := HandledAll(taken, market, ms);
    TradeAt(later.filed, taken.rows[|s.rows|], later.rows[|s.rows|], market, o, resting, f, j);
  }

  lemma TradeAt(filed: map<OrderId, LimitOrder>, row: MatchRecord, later: MatchRecord, market: MarketId, o: LimitOrder,
                resting: seq<Order>, f: Fill, j: nat)
    requires Recorded(row, market, o, resting, f) && later == row.(finished := later.finished) && j < |row.makers|
    requires resting[j].id in filed && filed[resting[j].id].price == resting[j].price
    ensures |later.amounts| == |later.makers| == |TradesOf(filed, later)| == |row.makers|
    ensures TradesOf(filed, later)[j]
              == Trade(market, o.creator, filed[resting[j].id].creator,
                       resting[j].quantity - (if j < |f.done| then 0 else f.processed), resting[j].price, o.side)
  {
  }

  // ---------- an amount that was not traded ----------

  /** A seller of three units and a buyer of one, at one price, in a fresh market. */
  const SELLER := LimitOrder(0, 3, 10, Sell, "s")
  const BUYER := LimitOrder(1, 1, 10, Buy, "b")
  const FRESH := State(EMPTY, map[], map[], [], [])

  lemma SellerRests(b: Book)
    requires b == EMPTY && Good(b)
    ensures var r := PlaceLimit(b, "s", Sell, 0, 3, 10, 0);
            && |r.book.asks| == 1 && r.book.asks[0] == Order(0, Sell, 3, 10, "s", 0) && r.book.bids == []
            && r.done == [] && r.partial.None?
  {
    hide Good;
    var f := Match([], AtLeast(10), "s", 3);
    assert f == Fill([], None, 0, 3, []);
  }

  lemma BuyerMeets(b: Book)
    requires Good(b) && |b.asks| == 1 && b.asks[0] == Order(0, Sell, 3, 10, "s", 0) && b.bids == []
    ensures var r := PlaceLimit(b, "b", Buy, 1, 1, 10, 0);
            r.error.None? && |r.book.asks| == 1 && r.book.asks[0] == Order(0, Sell, 2, 10, "b", 0)
    ensures var f := Match(b.asks, AtMost(10), "b", 1);
            f.done == [] && f.partial == Some(Order(0, Sell, 2, 10, "b", 0)) && f.processed == 1
  {
    hide Good, Cost, RoundDiv;
    assert Find(b.asks[1..], 1) == None;
  }

  lemma TwoMessages(s: State, market: MarketId, one: Message, two: Message)
    requires Good(s.book)
    ensures HandledAll(s, market, [one, two]) == Handled(Handled(s, market, one), market, two)
  {
    hide Good;
    var next := Handled(s, market, one);
    assert [one, two][1..] == [two] && [two][1..] == [];
    assert HandledAll(next, market, [two]) == Handled(next, market, two);
  }

  /** The buyer takes one unit of three, and the trade is recorded over the two that it left. */
  lemma PartFillMisrecorded()
    ensures Good(FRESH.book)
    ensures var s := HandledAll(FRESH, "m", [NewOrder(SELLER, true, 0), NewOrder(BUYER, true, 0)]);
            && |s.book.asks| == 1 && s.book.asks[0].id == 0 && s.book.asks[0].quantity == 2
            && |s.rows| == 1 && |s.rows[0].amounts| == |s.rows[0].makers|
            && |TradesOf(s.filed, s.rows[0])| == 1
            && TradesOf(s.filed, s.rows[0])[0] == Trade("m", "b", "s", 2, 10, Buy)
  {
    OrderBooks.EmptyIsGood();
    SellerRests(FRESH.book);
    TwoMessages(FRESH, "m", NewOrder(SELLER, true, 0), NewOrder(BUYER, true, 0));
    var one := SellerFiled(FRESH);
    hide *;
    BuyerTraded(one);
  }

  lemma SellerFiled(s: State) returns (one: State)
    requires s == FRESH && Good(s.book)
    ensures one == Handled(s, "m", NewOrder(SELLER, true, 0)) && Good(one.book)
    ensures |one.book.asks| == 1 && one.book.asks[0] == Order(0, Sell, 3, 10, "s", 0) && one.book.bids == []
    ensures one.rows == [] && one.filed == map[0 := SELLER]
  {
    SellerRests(s.book);
    LimitKeepsGood(s.book, "s", Sell, 0, 3, 10, 0);
    hide Good, PlaceLimit;
    one := Handled(s, "m", NewOrder(SELLER, true, 0));
  }

  lemma BuyerTraded(one: State)
    requires |one.book.asks| == 1 && one.book.asks[0] == Order(0, Sell, 3, 10, "s", 0) && one.book.bids == []
    requires one.rows == [] && one.filed == map[0 := SELLER] && Good(one.book)
    ensures var s := Handled(one, "m", NewOrder(BUYER, true, 0));
            && |s.book.asks| == 1 && s.book.asks[0].id == 0 && s.book.asks[0].quantity == 2
            && |s.rows| == 1 && |s.rows[0].amounts| == |s.rows[0].makers|
            && |TradesOf(s.filed, s.rows[0])| == 1
            && TradesOf(s.filed, s.rows[0])[0] == Trade("m", "b", "s", 2, 10, Buy)
  {
    BuyerMeets(one.book);
    RowRecorded(one, "m", BUYER, 0);
    hide Good, PlaceLimit, Match;
  }
}

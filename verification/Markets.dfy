/** A market: it feeds its book, records each match as pending, hands it on for the chain, and finishes
    the oldest pending match when the chain reports back. */
module Markets {
  import opened Orders
  import opened Books
  import opened BookLaws
  import opened Simulation
  import opened MatchTables
  import OrderSides
  import opened OrderBooks
  import opened Records
  import Fills
  import Lockstep
  import Pipeline

  datatype LimitOrder = LimitOrder(id: OrderId, quantity: int, price: int, side: Side, creator: Account)

  datatype Request = Request(market: MarketId, taker: OrderId, makers: seq<OrderId>)

  datatype Trade = Trade(market: MarketId, taker: Account, maker: Account, amount: int, price: int, takerSide: Side)

  /** `filed` is the order table, `rows` the match table, `requests` all that was ever handed to the launcher. */
  datatype State = State(book: Book, orders: map<OrderId, LimitOrder>, filed: map<OrderId, LimitOrder>,
                         rows: seq<MatchRecord>, requests: seq<Request>)

  /** `saved` is whether the database is there to take the order. */
  datatype Message = NewOrder(o: LimitOrder, saved: bool, now: int) | UpdateOrders

  /** The makers among the orders a placement reports, the taker's own entries left out. */
  function Except(taker: OrderId, orders: seq<Order>): seq<Order> {
    if orders == [] then []
    else
      Except(taker, orders[..|orders| - 1])
      + (if orders[|orders| - 1].id != taker then [orders[|orders| - 1]] else [])
  }

  function Makers(taker: OrderId, r: LimitResult): seq<Order> {
    Except(taker, r.done + (if r.partial.Some? then [r.partial.value] else []))
  }

  function Quantities(orders: seq<Order>): seq<int> {
    seq(|orders|, k requires 0 <= k < |orders| => orders[k].quantity)
  }

  /** The order table's answers; an id it does not have has no creator and no price. */
  function CreatorOf(filed: map<OrderId, LimitOrder>, id: OrderId): Account {
    if id in filed then filed[id].creator else ""
  }

  function PriceIn(filed: map<OrderId, LimitOrder>, id: OrderId): int {
    if id in filed then filed[id].price else 0
  }

  function Submitted(s: State, market: MarketId, o: LimitOrder, r: LimitResult): State {
    var makers := Makers(o.id, r);
    var ids := IdsOf(makers);
    s.(book := r.book, requests := s.requests + [Request(market, o.id, ids)],
       rows := s.rows + [MatchRecord(market, CreatorOf(s.filed, o.id), o.id, ids, Quantities(makers), o.side, false)])
  }

  /** The order table takes an id once, whatever market it comes from. An order it does not take is not placed;
      one that is refused by the book, or meets no maker, leaves match table and launcher alone. */
  function Processed(s: State, market: MarketId, o: LimitOrder, saved: bool, now: int): State
    requires Good(s.book)
  {
    var seen := s.(orders := s.orders[o.id := o]);
    if !saved || o.id in s.filed then seen
    else
      var taken := seen.(filed := s.filed[o.id := o]);
      var r := PlaceLimit(s.book, o.creator, o.side, o.id, o.quantity, o.price, now);
      if r.done != [] || r.partial.Some? then Submitted(taken, market, o, r) else taken.(book := r.book)
  }

  /** An order taken: its row and its request, if it met a maker. */
  lemma TakenIs(s: State, market: MarketId, o: LimitOrder, now: int, makers: seq<Order>, row: MatchRecord,
                request: Request)
    requires Good(s.book) && o.id !in s.filed
    requires var r := PlaceLimit(s.book, o.creator, o.side, o.id, o.quantity, o.price, now); makers == Makers(o.id, r)
    requires row == MatchRecord(market, CreatorOf(s.filed[o.id := o], o.id), o.id, IdsOf(makers), Quantities(makers),
                            o.side, false)
    requires request == Request(market, o.id, IdsOf(makers))
    ensures var r := PlaceLimit(s.book, o.creator, o.side, o.id, o.quantity, o.price, now);
            var met := r.done != [] || r.partial.Some?;
            Processed(s, market, o, true, now)
            == State(r.book, s.orders[o.id := o], s.filed[o.id := o], if met then s.rows + [row] else s.rows,
                     if met then s.requests + [request] else s.requests)
  {
    hide PlaceLimit, Good, IdsOf, Quantities, Except;
  }

  lemma RowAmounted(rows: seq<MatchRecord>, row: MatchRecord, makers: seq<Order>)
    requires Amounted(rows) && row.makers == IdsOf(makers) && row.amounts == Quantities(makers)
    ensures Amounted(rows + [row])
  {
    Lockstep.IdsOfLength(makers);
  }

  function Handled(s: State, market: MarketId, m: Message): (after: State)
    requires Good(s.book)
    ensures Good(after.book)
  {
    match m
    case NewOrder(o, saved, now) =>
      LimitKeepsGood(s.book, o.creator, o.side, o.id, o.quantity, o.price, now);
      Processed(s, market, o, saved, now)
    case UpdateOrders => s.(rows := Confirm(s.rows, market))
  }

  function HandledAll(s: State, market: MarketId, ms: seq<Message>): (after: State)
    requires Good(s.book)
    ensures Good(after.book)
    decreases |ms|
  {
    if ms == [] then s else HandledAll(Handled(s, market, ms[0]), market, ms[1..])
  }

  // ---------- what is submitted ----------

  lemma {:induction false} OthersSnoc(taker: OrderId, a: seq<Order>, o: Order)
    ensures Others(taker, a + [o]) == Others(taker, a) + (if o.id != taker then [o.id] else [])
  {
    if a == [] {
      assert (a + [o])[1..] == [];
    } else {
      assert (a + [o])[1..] == a[1..] + [o] && (a + [o])[0] == a[0];
      OthersSnoc(taker, a[1..], o);
      var head, last := if a[0].id != taker then [a[0].id] else [], if o.id != taker then [o.id] else [];
      assert head + (Others(taker, a[1..]) + last) == (head + Others(taker, a[1..])) + last;
    }
  }

  lemma {:induction false} ExceptNames(taker: OrderId, orders: seq<Order>)
    ensures IdsOf(Except(taker, orders)) == Others(taker, orders)
  {
    if orders != [] {
      var before, o := orders[..|orders| - 1], orders[|orders| - 1];
      assert orders == before + [o];
      ExceptNames(taker, before);
      OthersSnoc(taker, before, o);
      if o.id != taker {
        Lockstep.IdsOfSnoc(Except(taker, before), o);
      } else {
        assert Except(taker, before) + [] == Except(taker, before);
        assert Others(taker, before) + [] == Others(taker, before);
      }
    }
  }

  /** The maker list a market builds is the submission the chain is kept in step with. */
  lemma MakersSubmitted(taker: OrderId, r: LimitResult)
    ensures IdsOf(Makers(taker, r)) == MakersOf(taker, r.done, r.partial)
  {
    ExceptNames(taker, r.done + (if r.partial.Some? then [r.partial.value] else []));
    if r.partial.Some? {
      OthersSnoc(taker, r.done, r.partial.value);
    } else {
      assert r.done + [] == r.done;
    }
  }

  /** Processing the order a create event announces, whether the database takes it or not, is the delivery that
      keeps engine and chain in step. */
  lemma DeliveryIsProcessing(p: Pipeline.System, s: State, market: MarketId, now: int, saved: bool)
    requires p.created != [] && Fills.Base(p.created[0]) > 0 && Good(p.book) && s.book == p.book
    requires p.created[0].id !in s.filed
    ensures var c := p.created[0];
            var o := LimitOrder(c.id, if c.side == Sell then c.input else c.output, Pipeline.PriceOf(c), c.side,
                                c.creator);
            var after := Processed(s, market, o, saved, now);
            var delivered := Pipeline.Perform(p, Pipeline.Deliver(now, saved));
            && Pipeline.NearestPrice(o.price, c) && after.book == delivered.book
            && (|after.requests| > |s.requests| ==>
                  var q := after.requests[|s.requests|];
                  && after.requests == s.requests + [q]
                  && delivered.submitted == p.submitted + [Submission(q.taker, q.makers)])
            && (|after.requests| <= |s.requests| ==> after.requests == s.requests && delivered.submitted == p.submitted)
  {
    hide PlaceLimit, Pipeline.PriceOf, Makers, MakersOf, Quantities;
    var c := p.created[0];
    var r := PlaceLimit(p.book, c.creator, c.side, c.id, Fills.Base(c), Pipeline.PriceOf(c), now);
    MakersSubmitted(c.id, r);
    Pipeline.PriceIsNearest(c);
    assert p.submitted + [] == p.submitted;
  }

  // ---------- the table and the launcher agree ----------

  /** Row by row, the table names what the launcher was handed. */
  ghost predicate Agree(s: State) {
    && |s.rows| == |s.requests|
    && forall k :: 0 <= k < |s.rows| ==>
         var row, q := s.rows[k], s.requests[k];
         row.market == q.market && row.taker == q.taker && row.makers == q.makers && |row.amounts| == |row.makers|
  }

  ghost predicate Amounted(rows: seq<MatchRecord>) {
    forall k :: 0 <= k < |rows| ==> |rows[k].amounts| == |rows[k].makers|
  }

  lemma HandledAgrees(s: State, market: MarketId, m: Message, n: nat)
    requires Good(s.book) && Agree(s) && FirstFinished(s.rows, market, n)
    ensures Agree(Handled(s, market, m))
    ensures FirstFinished(Handled(s, market, m).rows, market,
                          if m.UpdateOrders? && n < Count(s.rows, market, |s.rows|) then n + 1 else n)
  {
    hide PlaceLimit, FirstFinished, Good, Makers, IdsOf, Count, OldestPending;
    match m
    case NewOrder(o, saved, now) =>
      var r := PlaceLimit(s.book, o.creator, o.side, o.id, o.quantity, o.price, now);
      if saved && (r.done != [] || r.partial.Some?) {
        Lockstep.IdsOfLength(Makers(o.id, r));
        var after := Handled(s, market, m);
        if |after.rows| > |s.rows| {
          AppendKeepsFinished(s.rows, after.rows[|s.rows|], market, n);
        }
      }
    case UpdateOrders =>
      ConfirmFinishesNext(s.rows, market, n);
  }

  /** Through any stream of messages the table and the launcher agree and finished rows are the oldest. */
  lemma {:induction false} StreamAgrees(s: State, market: MarketId, ms: seq<Message>, n: nat) returns (finished: nat)
    requires Good(s.book) && Agree(s) && FirstFinished(s.rows, market, n)
    ensures Agree(HandledAll(s, market, ms)) && n <= finished
    ensures FirstFinished(HandledAll(s, market, ms).rows, market, finished)
    decreases |ms|
  {
    finished := n;
    if ms != [] {
      HandledAgrees(s, market, ms[0], n);
      var next := if ms[0].UpdateOrders? && n < Count(s.rows, market, |s.rows|) then n + 1 else n;
      finished := StreamAgrees(Handled(s, market, ms[0]), market, ms[1..], next);
    }
  }

  // ---------- what the tables know ----------

  /** Every resting order is filed at the price it rests at, on its own side, and every order a row names is
      filed, the taker under the row's account and side. */
  ghost predicate Filed(s: State) {
    && (forall e :: e in Entries(s.book) ==> e.0 in s.filed && s.filed[e.0].price == e.1 && s.filed[e.0].side == e.2)
    && (forall k :: 0 <= k < |s.rows| ==> RowFiled(s.rows[k], s.filed))
  }

  ghost predicate RowFiled(row: MatchRecord, filed: map<OrderId, LimitOrder>) {
    && row.taker in filed && row.account == filed[row.taker].creator && row.takerSide == filed[row.taker].side
    && |row.amounts| == |row.makers| && forall id :: id in row.makers ==> id in filed
  }

  /** The makers of a submission were resting in the book. */
  lemma MakersWereResting(b: Book, o: LimitOrder, now: int)
    requires Good(b)
    ensures var r := PlaceLimit(b, o.creator, o.side, o.id, o.quantity, o.price, now);
            forall id :: id in IdsOf(Makers(o.id, r)) ==> id in b.AllIds()
  {
    var r := PlaceLimit(b, o.creator, o.side, o.id, o.quantity, o.price, now);
    MakersSubmitted(o.id, r);
    hide PlaceLimit, Good, Makers, IdsOf, Ids;
    if r.error.None? {
      Lockstep.SubmissionNames(b, o.creator, o.side, o.id, o.quantity, o.price, now);
      Lockstep.MakersRest(b.On(o.side.Opposite()), LimitOf(o.side, o.price), o.creator, o.quantity);
    } else {
      Lockstep.Refused(b, o.creator, o.side, o.id, o.quantity, o.price, now);
    }
  }

  lemma IdsHaveEntries(b: Book, id: OrderId)
    requires id in b.AllIds()
    ensures exists e :: e in Entries(b) && e.0 == id
  {
    if id in Ids(b.asks) {
      var k :| 0 <= k < |b.asks| && b.asks[k].id == id;
      EntryOf(b, Sell, k);
    } else {
      var k :| 0 <= k < |b.bids| && b.bids[k].id == id;
      EntryOf(b, Buy, k);
    }
  }

  lemma HandledFiled(s: State, market: MarketId, m: Message)
    requires Good(s.book) && Filed(s)
    ensures Filed(Handled(s, market, m))
  {
    hide PlaceLimit, Good, Makers, IdsOf, Entries;
    match m
    case NewOrder(o, saved, now) =>
      LimitEntries(s.book, o.creator, o.side, o.id, o.quantity, o.price, now);
      MakersWereResting(s.book, o, now);
      forall id | id in s.book.AllIds() ensures id in s.filed {
        IdsHaveEntries(s.book, id);
      }
      Lockstep.IdsOfLength(Makers(o.id, PlaceLimit(s.book, o.creator, o.side, o.id, o.quantity, o.price, now)));
    case UpdateOrders =>
  }

  /** Through any stream of messages: the price a trade is recorded at is the price its maker rested at, and
      its accounts are those of the orders' creators. */
  lemma {:induction false} StreamFiled(s: State, market: MarketId, ms: seq<Message>)
    requires Good(s.book) && Filed(s)
    ensures Filed(HandledAll(s, market, ms))
    decreases |ms|
  {
    if ms != [] {
      HandledFiled(s, market, ms[0]);
      StreamFiled(Handled(s, market, ms[0]), market, ms[1..]);
    }
  }

  /** The trades of a row, one per maker. */
  function TradesOf(filed: map<OrderId, LimitOrder>, row: MatchRecord): seq<Trade>
    requires |row.amounts| == |row.makers|
  {
    seq(|row.makers|, j requires 0 <= j < |row.makers| =>
      Trade(row.market, row.account, CreatorOf(filed, row.makers[j]), row.amounts[j], PriceIn(filed, row.makers[j]),
            row.takerSide))
  }

  // ---------- the objects ----------

  /** The tables, the launcher's channel and the published books, shared by all markets. */
  class Exchange {
    var filed: map<OrderId, LimitOrder>
    var rows: seq<MatchRecord>
    var requests: seq<Request>
    var views: map<MarketId, BookRecord>

    constructor ()
      ensures filed == map[] && rows == [] && requests == [] && views == map[]
    {
      filed, rows, requests, views := map[], [], [], map[];
    }
  }

  class Market {
    const market: MarketId
    const exchange: Exchange
    var orderbook: OrderBook
    var orders: map<OrderId, LimitOrder>

    ghost predicate Valid()
      reads this, exchange, orderbook, orderbook.Repr
    {
      && orderbook.Valid() && this !in orderbook.Repr && exchange !in orderbook.Repr
      && Amounted(exchange.rows)
    }

    ghost function View(): State
      reads this, exchange, orderbook, orderbook.asks, orderbook.bids
    {
      State(orderbook.Model(), orders, exchange.filed, exchange.rows, exchange.requests)
    }

    constructor (market: MarketId, exchange: Exchange)
      requires Amounted(exchange.rows)
      ensures Valid() && fresh(orderbook) && fresh(orderbook.Repr) && this.market == market && this.exchange == exchange
      ensures View() == State(EMPTY, map[], exchange.filed, exchange.rows, exchange.requests)
    {
      this.market, this.exchange := market, exchange;
      orderbook := new OrderBook();
      orders := map[];
    }

    /** Leaves the taker out of what the book reported. */
    static method CollectMakers(taker: OrderId, done: seq<Order>, partial: Option<Order>)
      returns (ids: seq<OrderId>, makers: seq<Order>)
      ensures makers == Except(taker, done + (if partial.Some? then [partial.value] else []))
      ensures ids == IdsOf(makers)
    {
      ids, makers := [], [];
      for k := 0 to |done|
        invariant makers == Except(taker, done[..k]) && ids == IdsOf(makers)
      {
        assert done[..k + 1][..k] == done[..k];
        if done[k].id != taker {
          Lockstep.IdsOfSnoc(makers, done[k]);
          ids, makers := ids + [done[k].id], makers + [done[k]];
        }
      }
      assert done[..|done|] == done && done + [] == done;
      if partial.Some? {
        assert (done + [partial.value])[..|done|] == done;
        if partial.value.id != taker {
          Lockstep.IdsOfSnoc(makers, partial.value);
          ids, makers := ids + [partial.value.id], makers + [partial.value];
        }
      }
    }

    /** The record describes the book as it stands. */
    ghost predicate Published(r: BookRecord)
      reads this, orderbook, orderbook.asks, orderbook.bids
    {
      Describes(r.asks, orderbook.asks.book) && Describes(r.bids, orderbook.bids.book)
    }

    method UpdateOrderbookView()
      requires Valid()
      modifies exchange`views
      ensures Valid() && market in exchange.views && Published(exchange.views[market])
    {
      hide OrderBook.Valid, Describes;
      var view;
      ghost var askLevels, bidLevels;
      view, askLevels, bidLevels := orderbook.Save();
      exchange.views := exchange.views[market := view];
    }

    lemma SoundBook()
      requires Valid()
      ensures Good(View().book)
    {
      hide OrderSides.OrderSide.Valid, Good;
    }

    method ProcessLimitOrder(o: LimitOrder, saved: bool, now: int)
      requires Valid()
      modifies this, exchange, orderbook.Repr
      ensures Valid() && orderbook == old(orderbook) && fresh(orderbook.Repr - old(orderbook.Repr))
      ensures View() == Processed(old(View()), market, o, saved, now)
      ensures orders == old(orders)[o.id := o]
      ensures saved && o.id !in old(exchange.filed) ==>
                && exchange.filed == old(exchange.filed)[o.id := o] && Good(old(View()).book)
                && View().book == PlaceLimit(old(View()).book, o.creator, o.side, o.id, o.quantity, o.price, now).book
      ensures !saved || o.id in old(exchange.filed) ==> View() == old(View()).(orders := orders)
      // the published book is the book's own record, unless the order was not taken
      ensures saved && o.id !in old(exchange.filed) ==> market in exchange.views && Published(exchange.views[market])
      ensures !saved || o.id in old(exchange.filed) ==> exchange.views == old(exchange.views)
    {
      hide OrderBook.Valid, Good, PlaceLimit, IdsOf, Except, RoundDiv, Describes, Quantities, Amounted;
      SoundBook();
      ghost var before := View();
      orders := orders[o.id := o];
      if !saved || o.id in exchange.filed {
        return;
      }
      hide Processed;
      exchange.filed := exchange.filed[o.id := o];
      var done, partial, processed, err :=
        orderbook.ProcessLimitOrder(o.creator, o.side, o.id, o.quantity, o.price, now);
      var makerIds, makers := CollectMakers(o.id, done, partial);
      var row := MatchRecord(market, CreatorOf(exchange.filed, o.id), o.id, makerIds, Quantities(makers), o.side,
          false);
      var request := Request(market, o.id, makerIds);
      TakenIs(before, market, o, now, makers, row, request);
      RowAmounted(exchange.rows, row, makers);
      if |done| > 0 || partial.Some? {
        exchange.rows := exchange.rows + [row];
        exchange.requests := exchange.requests + [request];
      }
      UpdateOrderbookView();
    }

    /** Finishes the oldest pending match and returns its trades, one per maker. */
    method ConfirmMatch() returns (trades: seq<Trade>)
      requires Valid()
      modifies exchange`rows
      ensures Valid() && View() == old(View()).(rows := Confirm(old(exchange.rows), market))
      ensures var k := OldestPending(old(exchange.rows), market);
              if k == |old(exchange.rows)| then trades == []
              else
                var row, filed := old(exchange.rows)[k], exchange.filed;
                && |trades| == |row.makers| == |row.amounts| && trades == TradesOf(filed, row)
                && forall j :: 0 <= j < |trades| ==>
                     && trades[j].market == row.market == market && trades[j].taker == row.account
                     && trades[j].takerSide == row.takerSide && trades[j].amount == row.amounts[j]
                     // an id the table does not have has no creator and no price
                     && (if row.makers[j] in filed
                         then trades[j].maker == filed[row.makers[j]].creator
                              && trades[j].price == filed[row.makers[j]].price
                         else trades[j].maker == "" && trades[j].price == 0)
    {
      hide OrderBook.Valid;
      trades := [];
      var k := OldestPending(exchange.rows, market);
      if k == |exchange.rows| {
        return;
      }
      var pending := exchange.rows[k];
      trades := CollectTrades(pending);
      exchange.rows := exchange.rows[k := pending.(finished := true)];
    }

    /** Looks up each maker of a match in the order table. */
    method CollectTrades(pending: MatchRecord) returns (trades: seq<Trade>)
      requires pending.market == market && |pending.amounts| == |pending.makers|
      ensures trades == TradesOf(exchange.filed, pending)
    {
      trades := [];
      for j := 0 to |pending.makers|
        invariant trades == TradesOf(exchange.filed, pending)[..j]
      {
        var maker := pending.makers[j];
        var creator, price := CreatorOf(exchange.filed, maker), PriceIn(exchange.filed, maker);
        trades := trades + [Trade(market, pending.account, creator, pending.amounts[j], price, pending.takerSide)];
      }
    }

    lemma GoodBook()
      requires Valid()
      ensures Good(View().book)
    {
    }

    /** Takes every message in the channel, oldest first. */
    method Run(messages: seq<Message>)
      requires Valid()
      modifies this, exchange, orderbook.Repr
      ensures Valid() && orderbook == old(orderbook) && fresh(orderbook.Repr - old(orderbook.Repr))
      ensures Good(old(View()).book) && View() == HandledAll(old(View()), market, messages)
    {
      hide OrderBook.Valid, Good, Processed, Confirm, OldestPending, Amounted;
      GoodBook();
      ghost var start := View();
      var k := 0;
      while k < |messages|
        decreases |messages| - k
        invariant 0 <= k <= |messages|
        invariant Valid() && orderbook == old(orderbook) && fresh(orderbook.Repr - old(orderbook.Repr))
        invariant Good(start.book) && Good(View().book)
        invariant HandledAll(View(), market, messages[k..]) == HandledAll(start, market, messages)
      {
        match messages[k] {
          case NewOrder(o, saved, now) => ProcessLimitOrder(o, saved, now);
          case UpdateOrders => var _ := ConfirmMatch();
        }
        assert messages[k..][1..] == messages[k + 1..];
        k := k + 1;
        GoodBook();
      }
    }
  }
}

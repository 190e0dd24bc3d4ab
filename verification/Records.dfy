/** The saved form of a book, and the book that comes back: the same orders without their owners. */
module Records {
  import opened Orders
  import opened Matching
  import opened Books
  import opened Levels

  datatype OrderRecord = OrderRecord(side: Side, id: OrderId, time: int, quantity: int, price: int)

  datatype QueueRecord = QueueRecord(volume: int, price: int, orders: seq<OrderRecord>)

  datatype SideRecord = SideRecord(numOrders: int, depth: int, prices: map<int, QueueRecord>)

  datatype BookRecord = BookRecord(asks: SideRecord, bids: SideRecord)

  function SaveOrder(o: Order): OrderRecord {
    OrderRecord(o.side, o.id, o.time, o.quantity, o.price)
  }

  function LoadOrder(r: OrderRecord): Order {
    Order(r.id, r.side, r.quantity, r.price, "", r.time)
  }

  function SaveOrders(orders: seq<Order>): (r: seq<OrderRecord>)
    ensures |r| == |orders| && forall k :: 0 <= k < |r| ==> r[k] == SaveOrder(orders[k])
  {
    if orders == [] then [] else [SaveOrder(orders[0])] + SaveOrders(orders[1..])
  }

  /** An order as it comes back from its record: only the owner is lost. */
  function Erase(o: Order): Order {
    o.(owner := "")
  }

  function EraseAll(orders: seq<Order>): (r: seq<Order>)
    ensures |r| == |orders| && forall k :: 0 <= k < |r| ==> r[k] == Erase(orders[k])
  {
    if orders == [] then [] else [Erase(orders[0])] + EraseAll(orders[1..])
  }

  function EraseLevels(levels: seq<Level>): (r: seq<Level>)
    ensures |r| == |levels| && forall k :: 0 <= k < |r| ==> r[k] == Level(levels[k].price, EraseAll(levels[k].orders))
  {
    if levels == [] then []
    else [Level(levels[0].price, EraseAll(levels[0].orders))] + EraseLevels(levels[1..])
  }

  /** The queue record of a level. */
  function SaveLevel(level: Level): QueueRecord {
    QueueRecord(Total(level.orders), level.price, SaveOrders(level.orders))
  }

  /** The side record of a list of levels, keyed by price. */
  ghost predicate Describes(r: SideRecord, levels: seq<Level>) {
    && r.numOrders == Count(levels) && r.depth == |levels|
    && (forall i :: 0 <= i < |levels| ==>
        levels[i].price in r.prices && r.prices[levels[i].price] == SaveLevel(levels[i]))
    && (forall p :: p in r.prices ==> exists i :: 0 <= i < |levels| && levels[i].price == p)
  }

  /** A reloaded book: owners are gone and the sides' volume counters start again from zero. */
  function Reloaded(b: Book): Book {
    Book(EraseAll(b.asks), EraseAll(b.bids), 0, 0)
  }

  // ---------- erasing owners commutes with everything the book does ----------

  lemma {:induction false} EraseConcat(a: seq<Order>, b: seq<Order>)
    ensures EraseAll(a + b) == EraseAll(a) + EraseAll(b)
  {
    if a == [] {
      assert a + b == b;
    } else {
      assert (a + b)[1..] == a[1..] + b;
      EraseConcat(a[1..], b);
    }
  }

  lemma {:induction false} EraseTotals(orders: seq<Order>)
    ensures Total(EraseAll(orders)) == Total(orders) && Value(EraseAll(orders)) == Value(orders)
  {
    if orders != [] {
      EraseTotals(orders[1..]);
    }
  }

  lemma {:induction false} EraseFlatten(side: Side, levels: seq<Level>)
    ensures Flatten(side, EraseLevels(levels)) == EraseAll(Flatten(side, levels))
    ensures Count(EraseLevels(levels)) == Count(levels)
  {
    if levels != [] {
      EraseFlatten(side, levels[1..]);
      EraseConcat(levels[0].orders, Flatten(side, levels[1..]));
      EraseConcat(Flatten(side, levels[1..]), levels[0].orders);
    }
  }

  lemma EraseWellFormed(levels: seq<Level>)
    requires WellFormed(levels)
    ensures WellFormed(EraseLevels(levels))
  {
    forall i | 0 <= i < |levels| ensures EraseLevels(levels)[i].orders != [] {
      assert |EraseLevels(levels)[i].orders| == |levels[i].orders|;
    }
  }

  lemma EraseIds(orders: seq<Order>)
    ensures Ids(EraseAll(orders)) == Ids(orders)
  {
    forall id | id in Ids(orders) ensures id in Ids(EraseAll(orders)) {
      var k :| 0 <= k < |orders| && orders[k].id == id;
      assert EraseAll(orders)[k].id == id;
    }
  }

  lemma EraseSide(side: Side, orders: seq<Order>)
    requires SideOk(side, orders)
    ensures SideOk(side, EraseAll(orders))
  {
  }

  /** Order by order, in the same places: only the owner is lost, and the volume counters start again. */
  lemma ReloadedKeeps(b: Book, side: Side)
    ensures var after := Reloaded(b);
            && after.askVolume == after.bidVolume == 0 && |after.On(side)| == |b.On(side)|
            && forall k :: 0 <= k < |b.On(side)| ==>
                 var o := b.On(side)[k]; after.On(side)[k] == Order(o.id, o.side, o.quantity, o.price, "", o.time)
  {
  }

  lemma ReloadedGood(b: Book)
    requires Good(b)
    ensures Good(Reloaded(b)) && Reloaded(b).AllIds() == b.AllIds()
  {
    EraseSide(Sell, b.asks);
    EraseSide(Buy, b.bids);
    EraseIds(b.asks);
    EraseIds(b.bids);
  }

  function EraseFill(f: Fill): Fill {
    Fill(EraseAll(f.done), if f.partial.Some? then Some(Erase(f.partial.value))
        else None, f.processed, f.left, EraseAll(f.resting))
  }

  lemma {:induction false} EraseMatch(resting: seq<Order>, limit: Limit, account: Account, quantity: int)
    ensures EraseFill(Match(EraseAll(resting), limit, account, quantity))
              == EraseFill(Match(resting, limit, account, quantity))
    decreases |resting|
  {
    var erased := EraseAll(resting);
    EraseTwice(resting);
    if quantity <= 0 || resting == [] || !limit.Accepts(resting[0].price) {
    } else {
      assert erased[1..] == EraseAll(resting[1..]);
      if quantity < resting[0].quantity {
        EraseTwice(resting[1..]);
      } else {
        EraseMatch(resting[1..], limit, account, quantity - resting[0].quantity);
        var f := Match(resting[1..], limit, account, quantity - resting[0].quantity);
        var g := Match(erased[1..], limit, account, quantity - resting[0].quantity);
        EraseAfter(f, g, resting[0]);
      }
    }
  }

  lemma EraseAfter(f: Fill, g: Fill, o: Order)
    requires EraseFill(f) == EraseFill(g)
    ensures EraseFill(f.After([o])) == EraseFill(g.After([Erase(o)]))
  {
    EraseConcat([o], f.done);
    EraseConcat([Erase(o)], g.done);
    EraseTwice([o]);
    assert EraseAll([o]) == [Erase(o)];
  }

  lemma EraseTwice(orders: seq<Order>)
    ensures EraseAll(EraseAll(orders)) == EraseAll(orders)
  {
  }

  lemma {:induction false} EraseInsert(side: Side, orders: seq<Order>, o: Order)
    ensures EraseAll(Insert(side, orders, o)) == Insert(side, EraseAll(orders), Erase(o))
  {
    if orders == [] || Ahead(side, o.price, orders[0].price) {
      EraseConcat([o], orders);
    } else {
      EraseInsert(side, orders[1..], o);
      assert EraseAll(orders)[1..] == EraseAll(orders[1..]);
    }
  }

  lemma {:induction false} EraseRemove(orders: seq<Order>, id: OrderId)
    ensures EraseAll(Remove(orders, id)) == Remove(EraseAll(orders), id)
    ensures Find(EraseAll(orders), id) == (match Find(orders, id) case None => None case Some(o) => Some(Erase(o)))
  {
    if orders != [] {
      assert EraseAll(orders)[1..] == EraseAll(orders[1..]);
      EraseRemove(orders[1..], id);
    }
  }
}

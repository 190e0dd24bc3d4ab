/** The pure part of a side's invariant: how queues, list elements and their orders fit together. */
module Links {
  import opened Orders
  import opened Levels
  import opened PriceTree
  import opened OrderQueues

  /** One queue: its distinct elements `row` hold, in order, the orders of `level`. */
  ghost predicate RowOk(price: int, row: seq<Element>, level: Level, values: map<Element, Order>) {
    && level.price == price && |level.orders| == |row|
    && (forall j, k :: 0 <= j < k < |row| ==> row[j] != row[k])
    && (forall k :: 0 <= k < |row| ==> row[k] in values && values[row[k]] == level.orders[k])
  }

  /** All queues of a side; `values` has exactly the elements in some queue. */
  ghost predicate Linked(levels: seq<OrderQueue>, rows: seq<seq<Element>>, book: seq<Level>,
                         values: map<Element, Order>) {
    && |rows| == |levels| == |book|
    && (forall i :: 0 <= i < |levels| ==> RowOk(levels[i].price, rows[i], book[i], values))
    && (forall e :: e in values ==> exists i :: 0 <= i < |rows| && e in rows[i])
  }

  /** Tree and price map hold exactly the queues of `levels`, each under its own price. */
  ghost predicate Indexed(tree: Tree<OrderQueue>, prices: map<int, OrderQueue>, levels: seq<OrderQueue>) {
    Listed(tree, levels) && Mapped(prices, levels)
  }

  ghost predicate Listed(tree: Tree<OrderQueue>, levels: seq<OrderQueue>) {
    && |Entries(tree)| == |levels|
    && forall i :: 0 <= i < |levels| ==> Entries(tree)[i] == Entry(levels[i].price, levels[i])
  }

  ghost predicate Mapped(prices: map<int, OrderQueue>, levels: seq<OrderQueue>) {
    && (forall i :: 0 <= i < |levels| ==> levels[i].price in prices && prices[levels[i].price] == levels[i])
    && (forall p :: p in prices ==> exists i :: 0 <= i < |levels| && levels[i].price == p)
  }

  // ---------- one more, one less ----------

  lemma WithIndex<T>(s: seq<T>, i: nat, x: T)
    requires i <= |s|
    ensures var l := s[..i] + [x] + s[i..];
            && |l| == |s| + 1 && l[i] == x
            && (forall k :: 0 <= k < |l| && k != i ==> l[k] == s[if k < i then k else k - 1])
  {
  }

  lemma WithoutIndex<T>(s: seq<T>, k: nat)
    requires k < |s|
    ensures |Without(s, k)| == |s| - 1
    ensures forall m :: 0 <= m < |s| - 1 ==> Without(s, k)[m] == s[if m < k then m else m + 1]
  {
  }

  // ---------- the index ----------

  lemma MappedInsert(prices: map<int, OrderQueue>, levels: seq<OrderQueue>, i: nat, q: OrderQueue)
    requires Mapped(prices, levels) && i <= |levels| && q.price !in prices
    ensures Mapped(prices[q.price := q], levels[..i] + [q] + levels[i..])
  {
    WithIndex(levels, i, q);
    var l, m := levels[..i] + [q] + levels[i..], prices[q.price := q];
    forall k | 0 <= k < |l| ensures l[k].price in m && m[l[k].price] == l[k] {
      if k != i {
        var j := if k < i then k else k - 1;
        assert l[k] == levels[j] && levels[j].price in prices;
      }
    }
    forall p | p in m ensures exists k :: 0 <= k < |l| && l[k].price == p {
      if p == q.price {
        assert l[i].price == p;
      } else {
        var k :| 0 <= k < |levels| && levels[k].price == p;
        assert l[if k < i then k else k + 1].price == p;
      }
    }
  }

  lemma IndexedInsert(tree: Tree<OrderQueue>, prices: map<int, OrderQueue>, levels: seq<OrderQueue>,
                      i: nat, q: OrderQueue, after: Tree<OrderQueue>)
    requires Indexed(tree, prices, levels) && i <= |levels| && q.price !in prices
    requires Entries(after) == Entries(tree)[..i] + [Entry(q.price, q)] + Entries(tree)[i..]
    ensures Indexed(after, prices[q.price := q], levels[..i] + [q] + levels[i..])
  {
    MappedInsert(prices, levels, i, q);
  }

  lemma MappedShorter(prices: map<int, OrderQueue>, levels: seq<OrderQueue>, i: nat, l: seq<OrderQueue>)
    requires Mapped(prices, levels) && i < |levels| == |l| + 1
    requires forall j, k :: 0 <= j < k < |levels| ==> levels[j].price < levels[k].price
    requires forall k :: 0 <= k < |l| ==> l[k] == levels[if k < i then k else k + 1]
    ensures Mapped(prices - {levels[i].price}, l)
  {
    var m := prices - {levels[i].price};
    forall k | 0 <= k < |l| ensures l[k].price in m && m[l[k].price] == l[k] {
      var j := if k < i then k else k + 1;
      assert if j < i then levels[j].price < levels[i].price else levels[i].price < levels[j].price;
    }
    forall p | p in m ensures exists k :: 0 <= k < |l| && l[k].price == p {
      var k :| 0 <= k < |levels| && levels[k].price == p;
      var j := if k < i then k else k - 1;
      assert l[j] == levels[k];
    }
  }

  lemma MappedDrop(prices: map<int, OrderQueue>, levels: seq<OrderQueue>, i: nat)
    requires Mapped(prices, levels) && i < |levels|
    requires forall j, k :: 0 <= j < k < |levels| ==> levels[j].price < levels[k].price
    ensures Mapped(prices - {levels[i].price}, levels[..i] + levels[i + 1..])
  {
    hide Mapped;
    WithoutIndex(levels, i);
    MappedShorter(prices, levels, i, Without(levels, i));
  }

  lemma IndexedDrop(tree: Tree<OrderQueue>, prices: map<int, OrderQueue>, levels: seq<OrderQueue>, i: nat,
                    after: Tree<OrderQueue>)
    requires Indexed(tree, prices, levels) && i < |levels|
    requires forall j, k :: 0 <= j < k < |levels| ==> levels[j].price < levels[k].price
    requires Entries(after) == Entries(tree)[..i] + Entries(tree)[i + 1..]
    ensures Indexed(after, prices - {levels[i].price}, levels[..i] + levels[i + 1..])
  {
    MappedDrop(prices, levels, i);
  }

  // ---------- the links ----------

  lemma LinkedPush(levels: seq<OrderQueue>, rows: seq<seq<Element>>, book: seq<Level>, values: map<Element, Order>,
                   i: nat, e: Element, o: Order)
    requires Linked(levels, rows, book, values) && i < |levels| && e !in values
    ensures Linked(levels, rows[i := rows[i] + [e]], book[i := Level(book[i].price, book[i].orders + [o])],
              values[e := o])
  {
    var rows', book', values' := rows[i := rows[i] + [e]], book[i := Level(book[i].price, book[i].orders + [o])],
        values[e := o];
    forall k | 0 <= k < |levels| ensures RowOk(levels[k].price, rows'[k], book'[k], values') {
      assert RowOk(levels[k].price, rows[k], book[k], values);
    }
    forall x | x in values' ensures exists k :: 0 <= k < |rows'| && x in rows'[k] {
      if x == e {
        assert rows'[i][|rows[i]|] == e;
      } else {
        var k :| 0 <= k < |rows| && x in rows[k];
        assert x in rows'[k];
      }
    }
  }

  lemma LinkedOpen(levels: seq<OrderQueue>, rows: seq<seq<Element>>, book: seq<Level>, values: map<Element, Order>,
                   i: nat, q: OrderQueue)
    requires Linked(levels, rows, book, values) && i <= |levels|
    ensures Linked(levels[..i] + [q] + levels[i..], rows[..i] + [[]] + rows[i..],
              book[..i] + [Level(q.price, [])] + book[i..], values)
  {
    var levels', rows', book' := levels[..i] + [q] + levels[i..], rows[..i] + [[]] + rows[i..],
        book[..i] + [Level(q.price, [])] + book[i..];
    assert RowOk(q.price, [], Level(q.price, []), values);
    hide RowOk;
    forall k | 0 <= k < |levels'| ensures RowOk(levels'[k].price, rows'[k], book'[k], values) {
      var j := if k < i then k else k - 1;
      if k != i {
        assert RowOk(levels[j].price, rows[j], book[j], values);
      }
    }
    forall x | x in values ensures exists k :: 0 <= k < |rows'| && x in rows'[k] {
      var k :| 0 <= k < |rows| && x in rows[k];
      assert x in rows'[if k < i then k else k + 1];
    }
  }

  lemma LinkedDrop(levels: seq<OrderQueue>, rows: seq<seq<Element>>, book: seq<Level>, values: map<Element, Order>,
                   i: nat)
    requires Linked(levels, rows, book, values) && i < |levels| && rows[i] == []
    ensures Linked(levels[..i] + levels[i + 1..], rows[..i] + rows[i + 1..], book[..i] + book[i + 1..], values)
  {
    var levels', rows', book' := levels[..i] + levels[i + 1..], rows[..i] + rows[i + 1..], book[..i] + book[i + 1..];
    hide RowOk;
    forall k | 0 <= k < |levels'| ensures RowOk(levels'[k].price, rows'[k], book'[k], values) {
      var j := if k < i then k else k + 1;
      assert RowOk(levels[j].price, rows[j], book[j], values);
    }
    forall x | x in values ensures exists k :: 0 <= k < |rows'| && x in rows'[k] {
      var k :| 0 <= k < |rows| && x in rows[k];
      assert x in rows'[if k < i then k else k - 1];
    }
  }

  /** Elements of different queues differ: an element's price tells its queue. */
  lemma RowsDisjoint(levels: seq<OrderQueue>, rows: seq<seq<Element>>, book: seq<Level>, values: map<Element, Order>,
                     i: nat, k: nat, j: nat)
    requires Linked(levels, rows, book, values) && Ordered(book)
    requires i < |rows| && k < |rows[i]| && j < |rows| && j != i
    ensures rows[i][k] !in rows[j]
  {
    assert RowOk(levels[i].price, rows[i], book[i], values) && RowOk(levels[j].price, rows[j], book[j], values);
    forall m | 0 <= m < |rows[j]| ensures rows[j][m] != rows[i][k] {
      assert book[i].orders[k].price == book[i].price && book[j].orders[m].price == book[j].price;
      assert if i < j then book[i].price < book[j].price else book[j].price < book[i].price;
    }
  }

  lemma RowTake(price: int, row: seq<Element>, level: Level, values: map<Element, Order>, k: nat)
    requires RowOk(price, row, level, values) && k < |row|
    ensures RowOk(price, Without(row, k), Level(price, Without(level.orders, k)), values - {row[k]})
    ensures forall x :: x in row && x != row[k] ==> x in Without(row, k)
  {
    WithoutIndex(row, k);
    WithoutIndex(level.orders, k);
    forall x | x in row && x != row[k] ensures x in Without(row, k) {
      var m :| 0 <= m < |row| && row[m] == x;
      assert Without(row, k)[if m < k then m else m - 1] == x;
    }
  }

  lemma LinkedTake(levels: seq<OrderQueue>, rows: seq<seq<Element>>, book: seq<Level>, values: map<Element, Order>,
                   i: nat, k: nat)
    requires Linked(levels, rows, book, values) && Ordered(book) && i < |levels| && k < |rows[i]|
    requires |book[i].orders| == |rows[i]|
    ensures Linked(levels, rows[i := Without(rows[i], k)], book[i := Level(book[i].price, Without(book[i].orders, k))],
              values - {rows[i][k]})
  {
    RowTake(levels[i].price, rows[i], book[i], values, k);
    hide Without, Ordered;
    var e, row := rows[i][k], Without(rows[i], k);
    var rows', book', values' := rows[i := row], book[i := Level(book[i].price, Without(book[i].orders, k))],
        values - {e};
    forall j | 0 <= j < |levels| ensures RowOk(levels[j].price, rows'[j], book'[j], values') {
      assert RowOk(levels[j].price, rows[j], book[j], values);
      if j != i {
        RowsDisjoint(levels, rows, book, values, i, k, j);
      }
    }
    forall x | x in values' ensures exists j :: 0 <= j < |rows'| && x in rows'[j] {
      var j :| 0 <= j < |rows| && x in rows[j];
      assert x in if j == i then row else rows'[j];
    }
  }

  lemma LinkedReplace(levels: seq<OrderQueue>, rows: seq<seq<Element>>, book: seq<Level>, values: map<Element, Order>,
                      i: nat, k: nat, o: Order)
    requires Linked(levels, rows, book, values) && Ordered(book) && i < |levels| && k < |rows[i]|
    requires |book[i].orders| == |rows[i]|
    ensures Linked(levels, rows, book[i := Level(book[i].price, book[i].orders[k := o])], values[rows[i][k] := o])
  {
    var e := rows[i][k];
    var book', values' := book[i := Level(book[i].price, book[i].orders[k := o])], values[e := o];
    forall j | 0 <= j < |levels| ensures RowOk(levels[j].price, rows[j], book'[j], values') {
      assert RowOk(levels[j].price, rows[j], book[j], values);
      if j != i {
        RowsDisjoint(levels, rows, book, values, i, k, j);
      }
    }
    assert forall x :: x in values' ==> x in values || x == e;
    assert e in rows[i];
  }

  // ---------- the id map ----------

  /** Every element of a side carries an order of that side and is what the id map holds for it. */
  ghost predicate Registered(orders: map<OrderId, Element>, values: map<Element, Order>, side: Side) {
    forall e :: e in values ==> values[e].side == side && values[e].id in orders && orders[values[e].id] == e
  }

  /** Every id leads to an element, on one of the sides, that carries it. */
  ghost predicate Resolved(orders: map<OrderId, Element>, asks: map<Element, Order>, bids: map<Element, Order>) {
    forall id :: id in orders ==>
      (orders[id] in asks && asks[orders[id]].id == id) || (orders[id] in bids && bids[orders[id]].id == id)
  }

  ghost predicate IdMap(orders: map<OrderId, Element>, asks: map<Element, Order>, bids: map<Element, Order>) {
    Registered(orders, asks, Sell) && Registered(orders, bids, Buy) && Resolved(orders, asks, bids)
  }

  lemma Deregister(orders: map<OrderId, Element>, asks: map<Element, Order>, bids: map<Element, Order>, side: Side,
                   id: OrderId)
    requires IdMap(orders, asks, bids) && asks.Keys !! bids.Keys
    requires id in orders
    requires var values := if side == Sell then asks else bids; orders[id] in values && values[orders[id]].id == id
    ensures if side == Sell then IdMap(orders - {id}, asks - {orders[id]}, bids)
              else IdMap(orders - {id}, asks, bids - {orders[id]})
  {
  }

  lemma Register(orders: map<OrderId, Element>, asks: map<Element, Order>, bids: map<Element, Order>, e: Element,
                 o: Order)
    requires IdMap(orders, asks, bids) && o.id !in orders && e !in asks && e !in bids
    ensures if o.side == Sell then IdMap(orders[o.id := e], asks[e := o], bids)
              else IdMap(orders[o.id := e], asks, bids[e := o])
  {
  }

  lemma Reregister(orders: map<OrderId, Element>, asks: map<Element, Order>, bids: map<Element, Order>, e: Element,
                   o: Order)
    requires IdMap(orders, asks, bids)
    requires var values := if o.side == Sell then asks else bids; e in values && values[e].id == o.id
    ensures if o.side == Sell then IdMap(orders, asks[e := o], bids) else IdMap(orders, asks, bids[e := o])
  {
  }

  // ---------- elements and positions in the side's queue ----------

  lemma PositionOf(side: Side, book: seq<Level>, i: nat, k: nat) returns (p: nat)
    requires i < |book| && k < |book[i].orders|
    ensures p < |Flatten(side, book)| && Flatten(side, book)[p] == book[i].orders[k]
  {
    var low, high := book[..i], book[i + 1..];
    assert book == low + [book[i]] + high;
    FlattenAround(side, low, book[i], high);
    p := |Before(side, low, high)| + k;
  }

  /** Orders at different places of the levels stand at different places of the queue. */
  lemma PositionsDiffer(side: Side, book: seq<Level>, i: nat, k: nat, j: nat, m: nat)
    requires i < |book| && k < |book[i].orders| && j < |book| && m < |book[j].orders|
    requires i < j || (i == j && k < m)
    ensures DistinctIds(Flatten(side, book)) ==> book[i].orders[k].id != book[j].orders[m].id
  {
    var low, high := book[..j], book[j + 1..];
    assert book == low + [book[j]] + high;
    FlattenAround(side, low, book[j], high);
    var before, after := Before(side, low, high), After(side, low, high);
    InMiddle(before, book[j].orders, after, m);
    if i == j {
      InMiddle(before, book[j].orders, after, k);
    } else {
      var p := PositionOf(side, low, i, k);
      InFirstOrLast(before, book[j].orders, after, p);
    }
    hide Flatten;
  }

  lemma InMiddle<T>(s: seq<T>, t: seq<T>, u: seq<T>, k: nat)
    requires k < |t|
    ensures (s + t + u)[|s| + k] == t[k]
  {
  }

  lemma InFirstOrLast<T>(s: seq<T>, t: seq<T>, u: seq<T>, k: nat)
    ensures k < |s| ==> (s + t + u)[k] == s[k]
    ensures k < |u| ==> (s + t + u)[|s| + |t| + k] == u[k]
  {
  }

  /** Distinct ids in the queue mean distinct ids on the elements. */
  lemma ElementIds(side: Side, levels: seq<OrderQueue>, rows: seq<seq<Element>>, book: seq<Level>,
                   values: map<Element, Order>)
    requires Linked(levels, rows, book, values) && DistinctIds(Flatten(side, book))
    ensures forall e, f :: e in values && f in values && values[e].id == values[f].id ==> e == f
    ensures forall e :: e in values ==> values[e].id in Ids(Flatten(side, book)) && values[e] in Flatten(side, book)
  {
    forall e, f | e in values && f in values && e != f ensures values[e].id != values[f].id {
      var i, k := ElementPlace(levels, rows, book, values, e);
      var j, m := ElementPlace(levels, rows, book, values, f);
      if i < j || (i == j && k < m) {
        PositionsDiffer(side, book, i, k, j, m);
      } else {
        PositionsDiffer(side, book, j, m, i, k);
      }
    }
    forall e | e in values ensures values[e].id in Ids(Flatten(side, book)) && values[e] in Flatten(side, book) {
      var i, k := ElementPlace(levels, rows, book, values, e);
      var p := PositionOf(side, book, i, k);
    }
  }

  lemma ElementPlace(levels: seq<OrderQueue>, rows: seq<seq<Element>>, book: seq<Level>, values: map<Element, Order>,
                     e: Element)
    returns (i: nat, k: nat)
    requires Linked(levels, rows, book, values) && e in values
    ensures i < |rows| == |book| && k < |rows[i]| == |book[i].orders| && rows[i][k] == e
    ensures values[e] == book[i].orders[k]
  {
    i :| 0 <= i < |rows| && e in rows[i];
    k :| 0 <= k < |rows[i]| && rows[i][k] == e;
    assert RowOk(levels[i].price, rows[i], book[i], values);
  }

  /** Every id of the queue sits on an element. */
  lemma {:induction false} IdsOnElements(side: Side, levels: seq<OrderQueue>, rows: seq<seq<Element>>, book: seq<Level>,
                                         values: map<Element, Order>, id: OrderId) returns (e: Element)
    requires Linked(levels, rows, book, values) && WellFormed(book) && id in Ids(Flatten(side, book))
    ensures e in values && values[e].id == id
  {
    var p :| 0 <= p < |Flatten(side, book)| && Flatten(side, book)[p].id == id;
    var i := FlattenPrices(side, book, p);
    var k :| 0 <= k < |book[i].orders| && book[i].orders[k] == Flatten(side, book)[p];
    assert RowOk(levels[i].price, rows[i], book[i], values);
    e := rows[i][k];
  }
}

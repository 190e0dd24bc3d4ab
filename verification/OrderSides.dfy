/** One side of the book: a price tree and a price map over the same queues, with cached counters. */
module OrderSides {
  import opened Orders
  import opened Levels
  import opened PriceTree
  import opened OrderQueues
  import opened Links
  import opened Records

  class OrderSide {
    var priceTree: Tree<OrderQueue>
    var prices: map<int, OrderQueue>
    var volume: int
    var numOrders: int
    var depth: int

    ghost var levels: seq<OrderQueue>       // the queues, lowest price first
    ghost var rows: seq<seq<Element>>       // the list elements of each queue
    ghost var book: seq<Level>              // the orders of each queue
    ghost var values: map<Element, Order>   // what each list element holds
    ghost var Repr: set<object>

    /** Every structure shows the same orders: the levels ascend and none is empty, the tree and the map
        hold the queues under their prices, each queue's list and volume are those of its level, and the
        counters are exact. */
    ghost predicate Valid()
      reads this, Repr
      ensures Valid() ==> this in Repr
      ensures Valid() ==>
                (forall i :: 0 <= i < |levels| ==> levels[i] in Repr) && (forall e :: e in values ==> e in Repr)
    {
      Shape() && WellFormed(book) && numOrders == Count(book)
    }

    /** Validity but for the order count and for levels without orders. */
    ghost predicate Shape()
      reads this`priceTree, this`prices, this`depth, this`levels, this`rows, this`book, this`values, this`Repr,
          Repr - {this}
      ensures Shape() ==> this in Repr
    {
      && this in Repr
      && (forall i :: 0 <= i < |levels| ==> levels[i] in Repr)
      && (forall e :: e in values ==> e in Repr && e.value == values[e])
      && |rows| == |levels| == |book|
      && Linked(levels, rows, book, values)
      && (forall i :: 0 <= i < |levels| ==> levels[i].orders == rows[i] && levels[i].volume == Total(book[i].orders))
      && Ordered(book)
      && Indexed(priceTree, prices, levels)
      && depth == |levels|
    }

    constructor ()
      ensures Valid() && fresh(Repr)
      ensures levels == [] && book == [] && values == map[] && volume == 0
    {
      priceTree := Leaf;
      prices := map[];
      volume, numOrders, depth := 0, 0, 0;
      levels, rows, book, values := [], [], [], map[];
      Repr := {this};
    }

    /** The side as read back from any record: the queues, the map and the tree are rebuilt, the counters are
        taken as they are, and the volume counter is not restored. When the record describes well-formed levels
        the side is sound and holds them. */
    constructor Load(r: SideRecord, ghost described: seq<Level>)
      ensures LoadedFrom(r) && volume == 0 && fresh(Repr)
      ensures WellFormed(described) && Describes(r, described) ==> Valid() && book == EraseLevels(described)
    {
      hide Linked, Indexed, Ordered, WellFormed, Describes, EraseLevels, Count, Total, OrderQueue.LoadedFrom, Binds;
      var queues, tree;
      ghost var queueList, elements, held, objects;
      queues, tree, queueList, elements, held, objects := LoadTree(r, described);
      numOrders := r.numOrders;
      depth := r.depth;
      volume := 0;
      prices := queues;
      priceTree := tree;
      levels, rows, book, values := queueList, elements, EraseLevels(described), held;
      Repr := {this} + objects;
    }

    /** The record's queues under their keys, in the map and in the tree, and its counters. */
    ghost predicate LoadedFrom(r: SideRecord)
      reads this, prices.Values, set p, k | p in prices && 0 <= k < |prices[p].orders| :: prices[p].orders[k]
    {
      && numOrders == r.numOrders && depth == r.depth && volume == 0
      && prices.Keys == r.prices.Keys && (forall p :: p in prices ==> prices[p].LoadedFrom(r.prices[p]))
      && Binds(priceTree, prices)
    }

    /** The side as one queue, best price first. */
    ghost function Queue(side: Side): seq<Order>
      reads this
    {
      Flatten(side, book)
    }

    function Len(): int
      reads this
    {
      numOrders
    }

    lemma Ascends()
      requires Shape()
      ensures forall i, j :: 0 <= i < j < |levels| ==> levels[i].price < levels[j].price
      ensures forall i :: 0 <= i < |levels| ==> levels[i].price == book[i].price
      ensures forall i, k :: 0 <= i < |book| && 0 <= k < |book[i].orders| ==> book[i].orders[k].price == book[i].price
      ensures forall i :: 0 <= i < |levels| ==> RowOk(levels[i].price, rows[i], book[i], values)
      ensures forall i :: 0 <= i < |levels| ==> levels[i].price in prices && prices[levels[i].price] == levels[i]
      ensures SearchTree(priceTree)
    {
      forall i, j | 0 <= i < j < |levels| ensures levels[i].price < levels[j].price {
        assert RowOk(levels[i].price, rows[i], book[i], values) && RowOk(levels[j].price, rows[j], book[j], values);
        assert book[i].price < book[j].price;
      }
    }

    lemma Ascending()
      requires Valid()
      ensures forall i, j :: 0 <= i < j < |levels| ==> levels[i].price < levels[j].price
    {
      Ascends();
    }

    /** What a queue shows of its level. */
    lemma LevelFacts(i: nat)
      requires Valid() && i < |levels|
      ensures |book| == |rows| == |levels| && WellFormed(book)
      ensures levels[i].orders == rows[i] && |rows[i]| == |book[i].orders| > 0
      ensures levels[i].price == book[i].price && levels[i].volume == Total(book[i].orders)
      ensures forall j :: 0 <= j < |rows[i]| ==>
                && rows[i][j] in values && rows[i][j].value == values[rows[i][j]] == book[i].orders[j]
                && book[i].orders[j].price == levels[i].price
      ensures forall j, k :: 0 <= j < k < |rows[i]| ==> rows[i][j] != rows[i][k]
    {
      hide Indexed;
      Ascends();
      assert RowOk(levels[i].price, rows[i], book[i], values);
    }

    /** Len is positive exactly when there is a level, so the best queue of a non-empty side exists. */
    lemma LenIffDepth()
      requires Valid()
      ensures Len() >= 0 && (Len() > 0 <==> depth > 0)
    {
      if levels != [] {
        assert book[0].orders != [];
      }
    }

    lemma LevelsOrdered()
      requires Valid()
      ensures WellFormed(book)
    {
    }

    lemma DepthIsLevels()
      requires Valid()
      ensures depth == |levels| == |book|
    {
    }

    function MinPriceQueue(): OrderQueue?
      reads this
    {
      if depth > 0 then
        match Min(priceTree)
        case Some(q) => q
        case None => null
      else null
    }

    function MaxPriceQueue(): OrderQueue?
      reads this
    {
      if depth > 0 then
        match Max(priceTree)
        case Some(q) => q
        case None => null
      else null
    }

    lemma BestQueues()
      requires Valid()
      ensures MinPriceQueue() == if levels == [] then null else levels[0]
      ensures MaxPriceQueue() == if levels == [] then null else levels[|levels| - 1]
    {
      hide Linked, Ordered, WellFormed, Mapped;
    }

    // ---------- append ----------

    lemma AbsentPrice(price: int)
      requires Shape() && price !in prices
      ensures SearchTree(priceTree) && |Entries(priceTree)| == |levels| == |book|
      ensures forall x :: x in Entries(priceTree) ==> x.key != price
      ensures forall k :: 0 <= k < |book| ==> Entries(priceTree)[k].key == book[k].price
    {
      Ascends();
      forall x | x in Entries(priceTree) ensures x.key != price {
        var k :| 0 <= k < |levels| && Entries(priceTree)[k] == x;
        assert levels[k].price in prices;
      }
    }

    /** Opens an empty level at a new price. */
    method OpenLevel(price: int) returns (ghost i: nat)
      requires Shape() && price !in prices
      modifies this
      ensures Shape() && fresh(Repr - old(Repr))
      ensures values == old(values) && volume == old(volume) && numOrders == old(numOrders)
      ensures i <= |old(book)| && book == old(book)[..i] + [Level(price, [])] + old(book)[i..]
      ensures forall j :: 0 <= j < |old(book)| ==>
                if j < i then old(book)[j].price < price else price < old(book)[j].price
      ensures i < |levels| && fresh(levels[i]) && levels[i].price == price
    {
      hide Linked, Indexed, Ordered, Entries, SearchTree, Total;
      AbsentPrice(price);
      var q := new OrderQueue(price);
      var tree;
      tree, i := Put(priceTree, price, q);
      OpenAt(i, q, tree);
    }

    static lemma TotalOfNone()
      ensures Total([]) == 0
    {
    }

    /** Publishes the new queue in the map and the tree. */
    method OpenAt(ghost i: nat, q: OrderQueue, tree: Tree<OrderQueue>)
      requires Shape() && q.price !in prices && i <= |levels|
      requires q.orders == [] && q.volume == 0
      requires Entries(tree) == Entries(priceTree)[..i] + [Entry(q.price, q)] + Entries(priceTree)[i..]
      requires forall j :: 0 <= j < |book| ==> if j < i then book[j].price < q.price else q.price < book[j].price
      modifies this
      ensures Shape() && Repr == old(Repr) + {q}
      ensures values == old(values) && volume == old(volume) && numOrders == old(numOrders)
      ensures book == old(book)[..i] + [Level(q.price, [])] + old(book)[i..]
      ensures levels == old(levels)[..i] + [q] + old(levels)[i..]
    {
      hide Linked, Indexed, Ordered, Total, Entries, WellFormed, Count;
      IndexedInsert(priceTree, prices, levels, i, q, tree);
      LinkedOpen(levels, rows, book, values, i, q);
      OrderedOpen(book, i, Level(q.price, []));
      ghost var l, r, b := OpenedLists(i, q);
      prices := prices[q.price := q];
      priceTree := tree;
      depth := depth + 1;
      levels, rows, book := l, r, b;
      Repr := Repr + {q};
    }

    /** The lists with an empty level put in, and what its queues show. */
    lemma OpenedLists(i: nat, q: OrderQueue) returns (l: seq<OrderQueue>, r: seq<seq<Element>>, b: seq<Level>)
      requires Shape() && i <= |levels| && q.orders == [] && q.volume == 0
      ensures l == levels[..i] + [q] + levels[i..] && r == rows[..i] + [[]] + rows[i..]
      ensures b == book[..i] + [Level(q.price, [])] + book[i..]
      ensures |l| == |r| == |b| == |levels| + 1
      ensures forall k :: 0 <= k < |l| ==>
                (l[k] == q || l[k] in levels) && l[k].orders == r[k] && l[k].volume == Total(b[k].orders)
    {
      hide Linked, Indexed, Ordered, Total;
      WithIndex(levels, i, q);
      WithIndex(rows, i, []);
      WithIndex(book, i, Level(q.price, []));
      l, r, b := levels[..i] + [q] + levels[i..], rows[..i] + [[]] + rows[i..],
      book[..i] + [Level(q.price, [])] + book[i..];
      ShownWith(i, q, l, r, b);
    }

    lemma ShownWith(i: nat, q: OrderQueue, l: seq<OrderQueue>, r: seq<seq<Element>>, b: seq<Level>)
      requires Shape() && i <= |levels| && q.orders == [] && q.volume == 0
      requires |l| == |r| == |b| == |levels| + 1 && l[i] == q && r[i] == [] && b[i].orders == []
      requires forall k :: 0 <= k < |l| && k != i ==>
                 var j := if k < i then k else k - 1; l[k] == levels[j] && r[k] == rows[j] && b[k] == book[j]
      ensures forall k :: 0 <= k < |l| ==>
                (l[k] == q || l[k] in levels) && l[k].orders == r[k] && l[k].volume == Total(b[k].orders)
    {
      TotalOfNone();
    }

    /** The queue of level `i` takes one more order. */
    method Push(o: Order, ghost i: nat) returns (e: Element)
      requires Shape() && i < |levels| && levels[i].price == o.price
      modifies this, levels[i]
      ensures Shape() && Repr == old(Repr) + {e}
      ensures fresh(e) && values == old(values)[e := o]
      ensures levels == old(levels) && volume == old(volume) && numOrders == old(numOrders)
      ensures book == old(book)[i := Level(o.price, old(book)[i].orders + [o])]
    {
      hide Linked, Indexed, Ordered, Total, Count;
      Ascends();
      OrderedReplace(book, i, Level(o.price, book[i].orders + [o]));
      e := prices[o.price].Append(o);
      LinkedPush(levels, rows, book, values, i, e, o);
      TotalSnoc(book[i].orders, o);
      rows := rows[i := rows[i] + [e]];
      book := book[i := Level(o.price, book[i].orders + [o])];
      values := values[e := o];
      Repr := Repr + {e};
    }

    method Append(o: Order) returns (e: Element, ghost i: nat)
      requires Valid()
      modifies this, levels
      ensures Valid() && fresh(Repr - old(Repr))
      ensures fresh(e) && values == old(values)[e := o]
      ensures AppendedAt(old(book), i, o, book)
      ensures volume == old(volume) + o.quantity
    {
      hide Shape, Linked, Indexed, Ordered, WellFormed, Total, Count;
      var price := o.price;
      if price in prices {
        i := LevelAt(price);
      } else {
        i := OpenLevel(price);
        OpenThenPush(old(book), i, o, book);
      }
      numOrders := numOrders + 1;
      volume := volume + o.quantity;
      e := Push(o, i);
      AppendKeepsLevels(old(book), i, o, book);
    }

    lemma LevelAt(price: int) returns (i: nat)
      requires Shape() && price in prices
      ensures i < |levels| && i < |book| && levels[i] == prices[price] && levels[i].price == book[i].price == price
    {
      Ascends();
      i :| 0 <= i < |levels| && levels[i].price == price;
    }

    // ---------- remove ----------

    /** Where a list element sits: its price names its queue. */
    lemma Place(e: Element) returns (i: nat, k: nat)
      requires Shape() && e in values
      ensures i < |levels| == |book| == |rows| && k < |rows[i]| == |book[i].orders|
      ensures forall j :: 0 <= j < |rows[i]| ==> (rows[i][j] == e <==> j == k)
      ensures levels[i].orders == rows[i] && book[i].orders[k] == values[e] == e.value
      ensures values[e].price in prices && prices[values[e].price] == levels[i]
      ensures levels[i].price == book[i].price == values[e].price
    {
      Ascends();
      i :| 0 <= i < |rows| && e in rows[i];
      k :| 0 <= k < |rows[i]| && rows[i][k] == e;
      assert RowOk(levels[i].price, rows[i], book[i], values);
      assert book[i].orders[k].price == book[i].price;
    }

    /** The queue of level `i` gives up its order `k`. */
    method Unlink(e: Element, ghost i: nat, ghost k: nat) returns (o: Order)
      requires Shape() && e in values
      requires i < |levels| && k < |rows[i]| == |book[i].orders|
      requires forall j :: 0 <= j < |rows[i]| ==> (rows[i][j] == e <==> j == k)
      requires levels[i].orders == rows[i] && book[i].orders[k] == values[e]
      requires levels[i].price == book[i].price == values[e].price
      modifies this, levels[i]
      ensures Shape() && Repr == old(Repr)
      ensures o == old(values)[e] && values == old(values) - {e}
      ensures levels == old(levels) && volume == old(volume) && numOrders == old(numOrders)
      ensures rows == old(rows)[i := Without(old(rows)[i], k)] && levels[i].orders == rows[i]
      ensures book == old(book)[i := Level(old(book)[i].price, Without(old(book)[i].orders, k))]
    {
      hide Linked, Indexed, Ordered, Total, Without;
      Ascends();
      TakePrices(book, i, k);
      LinkedTake(levels, rows, book, values, i, k);
      TotalWithout(book[i].orders, k);
      o := prices[e.value.price].Remove(e, k);
      rows := rows[i := Without(rows[i], k)];
      book := book[i := Level(book[i].price, Without(book[i].orders, k))];
      values := values - {e};
    }

    /** Forgets level `i`, which has run empty. */
    method CloseLevel(price: int, ghost i: nat)
      requires Shape() && i < |levels| && levels[i].price == price && rows[i] == []
      modifies this
      ensures Shape() && Repr == old(Repr)
      ensures values == old(values) && volume == old(volume) && numOrders == old(numOrders)
      ensures book == old(book)[..i] + old(book)[i + 1..]
    {
      hide Linked, Ordered, Mapped;
      Ascends();
      assert Entries(priceTree)[i].key == price;
      var tree := Delete(priceTree, price, i);
      CloseAt(price, i, tree);
    }

    method CloseAt(price: int, ghost i: nat, tree: Tree<OrderQueue>)
      requires Shape() && i < |levels| && levels[i].price == price && rows[i] == []
      requires Entries(tree) == Entries(priceTree)[..i] + Entries(priceTree)[i + 1..]
      modifies this
      ensures Shape() && Repr == old(Repr)
      ensures values == old(values) && volume == old(volume) && numOrders == old(numOrders)
      ensures book == old(book)[..i] + old(book)[i + 1..]
    {
      hide Linked, Ordered, Indexed, Total;
      Ascends();
      IndexedDrop(priceTree, prices, levels, i, tree);
      LinkedDrop(levels, rows, book, values, i);
      OrderedDrop(book, i);
      ghost var l, r, b := ClosedLists(i);
      prices := prices - {price};
      priceTree := tree;
      depth := depth - 1;
      levels, rows, book := l, r, b;
    }

    /** The lists without a level, and what the queues left show. */
    lemma ClosedLists(i: nat) returns (l: seq<OrderQueue>, r: seq<seq<Element>>, b: seq<Level>)
      requires Shape() && i < |levels|
      ensures l == levels[..i] + levels[i + 1..] && r == rows[..i] + rows[i + 1..]
      ensures b == book[..i] + book[i + 1..]
      ensures |l| == |r| == |b| == |levels| - 1
      ensures forall k :: 0 <= k < |l| ==>
                l[k] in levels && l[k].orders == r[k] && l[k].volume == Total(b[k].orders)
    {
      hide Linked, Indexed, Ordered, Total;
      WithoutIndex(levels, i);
      WithoutIndex(rows, i);
      WithoutIndex(book, i);
      l, r, b := Without(levels, i), Without(rows, i), Without(book, i);
    }

    method Remove(e: Element) returns (o: Order, ghost i: nat, ghost k: nat)
      requires Valid() && e in values
      modifies this, levels
      ensures Valid() && Repr == old(Repr)
      ensures o == old(values)[e] && values == old(values) - {e}
      ensures i < |old(book)| == |old(levels)| == |old(rows)| && k < |old(book)[i].orders|
      ensures old(book)[i].orders[k] == o
      ensures old(levels)[i].price == o.price && old(levels[i].orders) == old(rows)[i]
      ensures book == RemovedAt(old(book), i, k)
      ensures k < |old(rows)[i]| && old(rows)[i][k] == e && old(levels)[i].orders == Without(old(rows)[i], k)
      ensures old(levels)[i].orders != [] ==> levels == old(levels)
      ensures volume == old(volume) - o.quantity
    {
      hide Shape, Linked, Indexed, Ordered, WellFormed, RowOk, Total, Count;
      i, k := Place(e);
      var price := e.value.price;
      var priceQueue := prices[price];
      RemoveKeepsLevels(book, i, k);
      o := Unlink(e, i, k);
      if priceQueue.Len() == 0 {
        CloseLevel(price, i);
      }
      numOrders := numOrders - 1;
      volume := volume - o.quantity;
    }

    // ---------- partial fill ----------

    /** A partial fill goes to the queue directly: it overwrites the element and corrects the queue's
        volume, while the side's own volume keeps its old value. */
    method Overwrite(q: OrderQueue, e: Element, o: Order, ghost i: nat, ghost k: nat)
      requires Valid() && i < |levels| && levels[i] == q && i < |rows| && k < |rows[i]| && rows[i][k] == e
      requires o.price == q.price
      modifies this`book, this`values, q`volume, e
      ensures Valid()
      ensures |old(book)| == |levels| && k < |old(book)[i].orders| && old(book)[i].orders[k] == old(e.value)
      ensures book == old(book)[i := Level(o.price, old(book)[i].orders[k := o])]
      ensures values == old(values)[e := o]
    {
      hide Linked, Indexed, Ordered, WellFormed, Total, Count;
      Ascends();
      assert RowOk(levels[i].price, rows[i], book[i], values);
      var level := Level(o.price, book[i].orders[k := o]);
      LinkedReplace(levels, rows, book, values, i, k, o);
      TotalReplace(book[i].orders, k, o);
      ReplaceKeepsBook(i, k, o);
      q.Update(e, o);
      book := book[i := level];
      values := values[e := o];
    }

    lemma ReplaceKeepsBook(i: nat, k: nat, o: Order)
      requires Valid() && i < |book| && k < |book[i].orders| && o.price == book[i].price
      ensures var after := book[i := Level(o.price, book[i].orders[k := o])];
              Ordered(after) && WellFormed(after) && Count(after) == Count(book)
    {
      hide Linked, Indexed;
      ReplaceKeepsLevels(book, i, Level(o.price, book[i].orders[k := o]));
    }

    // ---------- nearest levels ----------

    /** The nearest queue below `price`. */
    method LessThan(price: int) returns (r: OrderQueue?, ghost i: int)
      requires Valid()
      ensures -1 <= i < |levels|
      ensures forall j :: 0 <= j < |levels| ==> (levels[j].price < price <==> j <= i)
      ensures r == if i < 0 then null else levels[i]
      ensures r == null <==> forall q :: q in levels ==> price <= q.price
      ensures r != null ==>
                && r in levels && r.price < price
                && forall q :: q in levels && q.price < price ==> q.price <= r.price
    {
      hide Linked, Indexed, Ordered, WellFormed, SearchTree, Entries, IsFloor, IsCeiling;
      ghost var es := EntryPrices();
      var floor;
      floor, i := Floor(priceTree, price);
      r := if floor.Some? then floor.value.value else null;
    }

    /** The nearest queue above `price`. */
    method GreaterThan(price: int) returns (r: OrderQueue?, ghost i: nat)
      requires Valid()
      ensures i <= |levels|
      ensures forall j :: 0 <= j < |levels| ==> (price < levels[j].price <==> i <= j)
      ensures r == if i == |levels| then null else levels[i]
      ensures r == null <==> forall q :: q in levels ==> q.price <= price
      ensures r != null ==>
                && r in levels && price < r.price
                && forall q :: q in levels && price < q.price ==> r.price <= q.price
    {
      hide Linked, Indexed, Ordered, WellFormed, SearchTree, Entries, IsFloor, IsCeiling;
      ghost var es := EntryPrices();
      var ceiling;
      ceiling, i := Ceiling(priceTree, price);
      r := if ceiling.Some? then ceiling.value.value else null;
    }

    lemma EntryPrices() returns (es: seq<Entry<OrderQueue>>)
      requires Shape()
      ensures SearchTree(priceTree) && es == Entries(priceTree) && |es| == |levels|
      ensures forall i :: 0 <= i < |levels| ==> es[i].key == levels[i].price && es[i].value == levels[i]
      ensures forall i, j :: 0 <= i < j < |es| ==> es[i].key < es[j].key
    {
      es := Entries(priceTree);
      Ascends();
      hide Linked, Ordered;
    }

    /** Some queue of the price map has the element. */
    ghost predicate Holds(e: Element)
      reads this, prices.Values
    {
      exists p :: p in prices && e in prices[p].orders
    }

    /** Every list element of the side, queue by queue in any order. */
    method Elements() returns (found: seq<Element>)
      ensures forall e :: e in found <==> Holds(e)
    {
      found := [];
      var rest := prices.Keys;
      while exists p :: p in rest
        invariant rest <= prices.Keys
        invariant forall e :: e in found <==> exists p :: p in prices && p !in rest && e in prices[p].orders
        decreases rest
      {
        var price :| price in rest;
        found := found + prices[price].orders;
        rest := rest - {price};
      }
    }

    /** On a sound side these are the elements its levels have. */
    lemma HeldIsValued()
      requires Valid()
      ensures forall e :: Holds(e) <==> e in values
    {
      hide Indexed, Ordered, WellFormed;
      forall e ensures Holds(e) <==> e in values {
        if e in values {
          var i, k := Place(e);
          RowIsPrice(values[e].price);
        }
        if Holds(e) {
          var p :| p in prices && e in prices[p].orders;
          RowIsPrice(p);
        }
      }
    }

    lemma RowIsPrice(price: int)
      requires Valid() && price in prices
      ensures forall e :: e in prices[price].orders <==> e in values && values[e].price == price
    {
      hide WellFormed;
      var i := LevelAt(price);
      LevelFacts(i);
      forall e | e in values && values[e].price == price ensures e in prices[price].orders {
        var j, k := Place(e);
        assert rows[j][k] == e;
      }
    }

    /** When the side's ids are distinct, each element is the only one with its id. */
    lemma Identified(side: Side)
      requires Valid() && DistinctIds(Queue(side))
      ensures forall e, f :: e in values && f in values && e.value.id == f.value.id ==> e == f
      ensures forall e :: e in values ==>
                e.value == values[e] && e.value.id in Ids(Queue(side)) && e.value in Queue(side)
    {
      hide Linked, Indexed, Ordered, WellFormed, Flatten, DistinctIds;
      ElementIds(side, levels, rows, book, values);
    }

    lemma Carrier(side: Side, id: OrderId) returns (e: Element)
      requires Valid() && id in Ids(Queue(side))
      ensures e in values && e.value.id == id
    {
      hide Linked, Indexed, Ordered, WellFormed, Flatten;
      e := IdsOnElements(side, levels, rows, book, values, id);
    }

    // ---------- save and load ----------

    method SaveQueue(price: int) returns (q: QueueRecord)
      requires Valid() && price in prices
      ensures forall i :: 0 <= i < |levels| && levels[i].price == price ==> i < |book| && q == SaveLevel(book[i])
    {
      hide Linked, Ordered, WellFormed, RowOk, Indexed, Total, Count, SaveOrders;
      Ascends();
      q := prices[price].Save();
      ghost var i := LevelAt(price);
      LevelFacts(i);
      SavedOrders(q.orders, book[i].orders);
    }

    static lemma SavedOrders(saved: seq<OrderRecord>, orders: seq<Order>)
      requires |saved| == |orders| && forall k :: 0 <= k < |orders| ==> saved[k] == SaveOrder(orders[k])
      ensures saved == SaveOrders(orders)
    {
    }

    lemma PricesAreLevels()
      requires Valid()
      ensures |levels| == |book| == depth && numOrders == Count(book)
      ensures forall i :: 0 <= i < |levels| ==> levels[i].price == book[i].price && levels[i].price in prices
      ensures forall p :: p in prices ==> exists i :: 0 <= i < |levels| && levels[i].price == p
    {
      hide Linked, Ordered, WellFormed;
      Ascends();
    }

    /** The record of the side: its counters and every queue under its price, visited in any order. */
    method Save() returns (r: SideRecord)
      requires Valid()
      ensures Describes(r, book)
    {
      hide Valid, Shape, SaveLevel;
      PricesAreLevels();
      var saved: map<int, QueueRecord> := map[];
      var rest := prices.Keys;
      while exists p :: p in rest
        invariant rest <= prices.Keys && saved.Keys == prices.Keys - rest
        invariant forall i :: 0 <= i < |levels| && levels[i].price in saved ==>
                    i < |book| && saved[levels[i].price] == SaveLevel(book[i])
        decreases rest
      {
        var price :| price in rest;
        var q := SaveQueue(price);
        saved := saved[price := q];
        rest := rest - {price};
      }
      r := SideRecord(numOrders, depth, saved);
    }
  }

  method LoadQueues(records: map<int, QueueRecord>) returns (prices: map<int, OrderQueue>, ghost objects: set<object>)
    ensures prices.Keys == records.Keys && fresh(objects)
    ensures forall p :: p in prices ==> prices[p].LoadedFrom(records[p]) && prices[p] in objects
    ensures forall p, k :: p in prices && 0 <= k < |prices[p].orders| ==> prices[p].orders[k] in objects
  {
    prices, objects := map[], {};
    var rest := records.Keys;
    while exists p :: p in rest
      invariant rest <= records.Keys && prices.Keys == records.Keys - rest && fresh(objects)
      invariant forall p :: p in prices ==> prices[p].LoadedFrom(records[p]) && prices[p] in objects
      invariant forall p, k :: p in prices && 0 <= k < |prices[p].orders| ==> prices[p].orders[k] in objects
      decreases rest
    {
      var p :| p in rest;
      var q := new OrderQueue.Load(records[p]);
      prices := prices[p := q];
      objects := objects + {q} + set k | 0 <= k < |q.orders| :: q.orders[k];
      rest := rest - {p};
    }
  }

  /** The queues of a record and a tree over them, with the ghost view of both. */
  method LoadTree(r: SideRecord, ghost described: seq<Level>)
    returns (queues: map<int, OrderQueue>, tree: Tree<OrderQueue>, ghost levels: seq<OrderQueue>,
        ghost rows: seq<seq<Element>>,
             ghost values: map<Element, Order>, ghost objects: set<object>)
    ensures fresh(objects)
    ensures queues.Keys == r.prices.Keys && forall p :: p in queues ==> queues[p].LoadedFrom(r.prices[p])
    ensures Binds(tree, queues)
    ensures WellFormed(described) && Describes(r, described) ==>
              Assembled(queues, tree, r, EraseLevels(described), levels, rows, values, objects)
  {
    hide WellFormed, Describes, EraseLevels, Count, SearchTree, OrderQueue.LoadedFrom, Entries, Assembled;
    queues, objects := LoadQueues(r.prices);
    tree := Build(queues);
    BuiltEntries(queues, Entries(tree));
    levels, rows, values := [], [], map[];
    if WellFormed(described) && Describes(r, described) {
      levels, rows, values := Assemble(queues, tree, r, described, objects);
    }
  }

  /** Lists that fit a map and a tree of queues: the ghost view of a side with the levels of `book`. */
  ghost predicate Assembled(queues: map<int, OrderQueue>, tree: Tree<OrderQueue>, r: SideRecord, book: seq<Level>,
                            levels: seq<OrderQueue>, rows: seq<seq<Element>>, values: map<Element, Order>,
                            objects: set<object>)
    reads levels, values.Keys
  {
    && |levels| == |rows| == |book| == r.depth && WellFormed(book) && Ordered(book) && r.numOrders == Count(book)
    && Linked(levels, rows, book, values) && Indexed(tree, queues, levels)
    && (forall i :: 0 <= i < |levels| ==>
        levels[i].orders == rows[i] && levels[i].volume == Total(book[i].orders) && levels[i] in objects)
    && (forall e :: e in values ==> e.value == values[e] && e in objects)
  }

  lemma DescribedCounts(r: SideRecord, described: seq<Level>)
    requires WellFormed(described) && Describes(r, described)
    ensures WellFormed(EraseLevels(described)) && Ordered(EraseLevels(described))
    ensures r.numOrders == Count(EraseLevels(described)) && r.depth == |EraseLevels(described)| == |described|
    ensures forall i :: 0 <= i < |described| ==> described[i].price in r.prices
    ensures forall p :: p in r.prices ==> exists i :: 0 <= i < |described| && described[i].price == p
  {
    EraseWellFormed(described);
    EraseFlatten(Sell, described);
  }

  /** The queues of a map in the order of the described prices, with their elements and what these hold. */
  lemma Gather(queues: map<int, OrderQueue>, described: seq<Level>, objects: set<object>)
    returns (levels: seq<OrderQueue>, rows: seq<seq<Element>>, values: map<Element, Order>)
    requires forall i :: 0 <= i < |described| ==> described[i].price in queues
    requires forall p :: p in queues ==> queues[p] in objects
    requires forall p, k :: p in queues && 0 <= k < |queues[p].orders| ==> queues[p].orders[k] in objects
    ensures |levels| == |rows| == |described|
    ensures forall i :: 0 <= i < |levels| ==>
              levels[i] == queues[described[i].price] && levels[i].orders == rows[i] && levels[i] in objects
    ensures forall i, k :: 0 <= i < |rows| && 0 <= k < |rows[i]| ==> rows[i][k] in values
    ensures forall e :: e in values ==>
              e.value == values[e] && e in objects && exists i :: 0 <= i < |rows| && e in rows[i]
  {
    var n := |described|;
    levels := seq(n, i requires 0 <= i < n && described[i].price in queues => queues[described[i].price]);
    rows := [];
    for k := 0 to n
      invariant |rows| == k && forall j :: 0 <= j < k ==> rows[j] == levels[j].orders
    {
      rows := rows + [levels[k].orders];
    }
    var elements := set i, k | 0 <= i < n && 0 <= k < |rows[i]| :: rows[i][k];
    values := map e | e in elements :: e.value;
    forall e | e in values ensures e in objects && exists i :: 0 <= i < |rows| && e in rows[i] {
      var i, k :| 0 <= i < n && 0 <= k < |rows[i]| && rows[i][k] == e;
      assert queues[described[i].price].orders[k] in objects;
      assert e in rows[i];
    }
  }

  /** The ghost view of a side just read back. */
  lemma Assemble(queues: map<int, OrderQueue>, tree: Tree<OrderQueue>, r: SideRecord, described: seq<Level>,
                 objects: set<object>)
    returns (levels: seq<OrderQueue>, rows: seq<seq<Element>>, values: map<Element, Order>)
    requires WellFormed(described) && Describes(r, described)
    requires queues.Keys == r.prices.Keys
    requires forall p :: p in queues ==> queues[p].LoadedFrom(r.prices[p]) && queues[p] in objects
    requires forall p, k :: p in queues && 0 <= k < |queues[p].orders| ==> queues[p].orders[k] in objects
    requires Binds(tree, queues)
    ensures Assembled(queues, tree, r, EraseLevels(described), levels, rows, values, objects)
  {
    hide *;
    DescribedCounts(r, described);
    levels, rows, values := Gather(queues, described, objects);
    LoadedRows(levels, rows, values, r, described);
    BuiltIndex(queues, tree, described, levels);
    Fits(queues, tree, r, EraseLevels(described), levels, rows, values, objects);
  }

  lemma Fits(queues: map<int, OrderQueue>, tree: Tree<OrderQueue>, r: SideRecord, book: seq<Level>,
             levels: seq<OrderQueue>, rows: seq<seq<Element>>, values: map<Element, Order>, objects: set<object>)
    requires |levels| == |rows| == |book| == r.depth && WellFormed(book) && Ordered(book) && r.numOrders == Count(book)
    requires Linked(levels, rows, book, values) && Indexed(tree, queues, levels)
    requires forall i :: 0 <= i < |levels| ==>
               levels[i].orders == rows[i] && levels[i].volume == Total(book[i].orders) && levels[i] in objects
    requires forall e :: e in values ==> e.value == values[e] && e in objects
    ensures Assembled(queues, tree, r, book, levels, rows, values, objects)
  {
    hide WellFormed, Ordered, Count, Linked, Indexed, Total;
  }

  lemma LoadedRows(levels: seq<OrderQueue>, rows: seq<seq<Element>>, values: map<Element, Order>, r: SideRecord,
                   described: seq<Level>)
    requires Describes(r, described) && |levels| == |rows| == |described|
    requires forall i :: 0 <= i < |levels| ==>
               levels[i].LoadedFrom(r.prices[described[i].price]) && levels[i].orders == rows[i]
    requires forall i, k :: 0 <= i < |rows| && 0 <= k < |rows[i]| ==> rows[i][k] in values
    requires forall e :: e in values ==> e.value == values[e] && exists i :: 0 <= i < |rows| && e in rows[i]
    ensures Linked(levels, rows, EraseLevels(described), values)
    ensures forall i :: 0 <= i < |levels| ==>
              levels[i].price == described[i].price && levels[i].volume == Total(EraseLevels(described)[i].orders)
  {
    hide Total, RowOk, OrderQueue.LoadedFrom;
    forall i | 0 <= i < |levels|
      ensures RowOk(levels[i].price, rows[i], EraseLevels(described)[i], values)
      ensures levels[i].volume == Total(EraseLevels(described)[i].orders) && levels[i].price == described[i].price
    {
      LoadedRow(levels[i], r.prices[described[i].price], described[i], values);
    }
  }

  lemma LoadedRow(q: OrderQueue, r: QueueRecord, level: Level, values: map<Element, Order>)
    requires q.LoadedFrom(r) && r == SaveLevel(level)
    requires forall k :: 0 <= k < |q.orders| ==> q.orders[k] in values && values[q.orders[k]] == q.orders[k].value
    ensures q.price == level.price && q.volume == Total(EraseAll(level.orders))
    ensures RowOk(q.price, q.orders, Level(level.price, EraseAll(level.orders)), values)
  {
    EraseTotals(level.orders);
    assert forall k :: 0 <= k < |q.orders| ==> q.orders[k].value == EraseAll(level.orders)[k];
  }

  function Keys(es: seq<Entry<OrderQueue>>): seq<int> {
    seq(|es|, i requires 0 <= i < |es| => es[i].key)
  }

  function Prices(levels: seq<Level>): seq<int> {
    seq(|levels|, i requires 0 <= i < |levels| => levels[i].price)
  }

  lemma TreeKeys(queues: map<int, OrderQueue>, es: seq<Entry<OrderQueue>>)
    requires forall i :: 0 <= i < |es| ==> es[i].key in queues
    requires forall key :: key in queues ==> HasKey(es, key)
    ensures forall x :: x in Keys(es) <==> x in queues
  {
    forall x | x in queues ensures x in Keys(es) {
      var i :| 0 <= i < |es| && es[i].key == x;
      assert Keys(es)[i] == x;
    }
  }

  lemma LevelKeys(queues: map<int, OrderQueue>, levels: seq<Level>)
    requires forall i :: 0 <= i < |levels| ==> levels[i].price in queues
    requires forall p :: p in queues ==> exists i :: 0 <= i < |levels| && levels[i].price == p
    ensures forall x :: x in Prices(levels) <==> x in queues
  {
    forall x | x in queues ensures x in Prices(levels) {
      var i :| 0 <= i < |levels| && levels[i].price == x;
      assert Prices(levels)[i] == x;
    }
  }

  /** Two ascending listings of the same keys agree. */
  lemma KeyOrder(queues: map<int, OrderQueue>, es: seq<Entry<OrderQueue>>, levels: seq<Level>)
    requires Ascending(es) && Ordered(levels)
    requires forall x :: x in Keys(es) <==> x in queues
    requires forall x :: x in Prices(levels) <==> x in queues
    ensures |es| == |levels| && forall i :: 0 <= i < |es| ==> es[i].key == levels[i].price
  {
    SameAscending(Keys(es), Prices(levels));
    assert |Keys(es)| == |es| && |Prices(levels)| == |levels|;
    forall i | 0 <= i < |es| ensures es[i].key == levels[i].price {
      assert Keys(es)[i] == es[i].key && Prices(levels)[i] == levels[i].price;
    }
  }

  lemma MappedPrices(queues: map<int, OrderQueue>, described: seq<Level>, levels: seq<OrderQueue>)
    requires |levels| == |described|
    requires forall p :: p in queues ==> exists i :: 0 <= i < |described| && described[i].price == p
    requires forall i :: 0 <= i < |levels| ==> levels[i].price == described[i].price
    requires forall i :: 0 <= i < |levels| ==> levels[i].price in queues && queues[levels[i].price] == levels[i]
    ensures Mapped(queues, levels)
  {
    forall p | p in queues ensures exists i :: 0 <= i < |levels| && levels[i].price == p {
      var j :| 0 <= j < |described| && described[j].price == p;
      assert levels[j].price == p;
    }
  }

  /** The tree of a map over the described prices lists its queues in that order. */
  lemma BuiltIndex(queues: map<int, OrderQueue>, tree: Tree<OrderQueue>, described: seq<Level>, levels: seq<OrderQueue>)
    requires WellFormed(described) && |levels| == |described|
    requires forall i :: 0 <= i < |described| ==> described[i].price in queues
    requires forall p :: p in queues ==> exists i :: 0 <= i < |described| && described[i].price == p
    requires forall i :: 0 <= i < |levels| ==>
               levels[i].price == described[i].price && levels[i] == queues[described[i].price]
    requires Binds(tree, queues)
    ensures Indexed(tree, queues, levels)
  {
    hide Entries, HasKey, Mapped, Keys, Prices, Ordered;
    TreeKeys(queues, Entries(tree));
    LevelKeys(queues, described);
    KeyOrder(queues, Entries(tree), described);
    MappedPrices(queues, described, levels);
  }
}

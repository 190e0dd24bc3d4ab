/** The FIFO queue of one price level. List elements are objects shared with the book's id map. */
module OrderQueues {
  import opened Orders
  import opened Books
  import opened Levels
  import opened Records

  /** A list element: the queue overwrites its value in place and every holder sees it. */
  class Element {
    var value: Order

    constructor (o: Order)
      ensures value == o
    {
      value := o;
    }
  }

  lemma TotalReplace(orders: seq<Order>, k: nat, o: Order)
    requires k < |orders|
    ensures Total(orders[k := o]) == Total(orders) - orders[k].quantity + o.quantity
  {
    hide Total;
    assert orders[k := o] == orders[..k] + [o] + orders[k + 1..];
    assert orders == orders[..k] + [orders[k]] + orders[k + 1..];
    TotalAround(orders[..k], o, orders[k + 1..]);
    TotalAround(orders[..k], orders[k], orders[k + 1..]);
  }

  lemma TotalWithout(orders: seq<Order>, k: nat)
    requires k < |orders|
    ensures Total(Without(orders, k)) == Total(orders) - orders[k].quantity
  {
    hide Total;
    assert orders == orders[..k] + [orders[k]] + orders[k + 1..];
    TotalAround(orders[..k], orders[k], orders[k + 1..]);
  }

  class OrderQueue {
    const price: int
    var volume: int
    var orders: seq<Element>

    constructor (price: int)
      ensures this.price == price && orders == [] && volume == 0
    {
      this.price := price;
      volume := 0;
      orders := [];
    }

    function Len(): nat
      reads this
    {
      |orders|
    }

    function Head(): Element?
      reads this
    {
      if orders == [] then null else orders[0]
    }

    method Append(o: Order) returns (e: Element)
      modifies this
      ensures fresh(e) && e.value == o
      ensures orders == old(orders) + [e] && volume == old(volume) + o.quantity
    {
      volume := volume + o.quantity;
      e := new Element(o);
      orders := orders + [e];
    }

    /** Replaces the order an element holds; the element keeps its place. */
    method Update(e: Element, o: Order)
      modifies this`volume, e
      ensures e.value == o && volume == old(volume) - old(e.value.quantity) + o.quantity
    {
      volume := volume - e.value.quantity;
      volume := volume + o.quantity;
      e.value := o;
    }

    /** Unlinks an element the list holds once; the others keep their order. */
    method Remove(e: Element, ghost k: nat) returns (o: Order)
      requires k < |orders| && forall j :: 0 <= j < |orders| ==> (orders[j] == e <==> j == k)
      modifies this
      ensures o == e.value && volume == old(volume) - o.quantity
      ensures orders == Without(old(orders), k)
    {
      volume := volume - e.value.quantity;
      assert orders[k] == e;
      var at :| 0 <= at < |orders| && orders[at] == e;
      orders := Without(orders, at);
      o := e.value;
    }

    method Save() returns (r: QueueRecord)
      ensures r.volume == volume && r.price == price && |r.orders| == |orders|
      ensures forall k :: 0 <= k < |orders| ==> r.orders[k] == SaveOrder(orders[k].value)
    {
      var saved: seq<OrderRecord> := [];
      for k := 0 to |orders|
        invariant |saved| == k && forall j :: 0 <= j < k ==> saved[j] == SaveOrder(orders[j].value)
      {
        saved := saved + [SaveOrder(orders[k].value)];
      }
      r := QueueRecord(volume, price, saved);
    }

    /** The queue as read back: new elements in the recorded order, volume and price as recorded. */
    constructor Load(r: QueueRecord)
      ensures LoadedFrom(r) && forall k :: 0 <= k < |orders| ==> fresh(orders[k])
    {
      volume := r.volume;
      price := r.price;
      orders := [];
      new;
      for k := 0 to |r.orders|
        invariant volume == r.volume && |orders| == k
        invariant forall j :: 0 <= j < k ==> fresh(orders[j]) && orders[j].value == LoadOrder(r.orders[j])
        invariant forall i, j :: 0 <= i < j < k ==> orders[i] != orders[j]
      {
        var e := new Element(LoadOrder(r.orders[k]));
        orders := orders + [e];
      }
    }

    ghost predicate LoadedFrom(r: QueueRecord)
      reads this, orders
    {
      && price == r.price && volume == r.volume && |orders| == |r.orders|
      && (forall k :: 0 <= k < |orders| ==> orders[k].value == LoadOrder(r.orders[k]))
      && (forall j, k :: 0 <= j < k < |orders| ==> orders[j] != orders[k])
    }
  }
}

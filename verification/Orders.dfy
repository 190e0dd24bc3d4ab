/** The order record of the matching engine and the small vocabulary every module shares. */
module Orders {

  datatype Option<+T> = None | Some(value: T)

  datatype Side = Buy | Sell {
    function Opposite(): Side { if Buy? then Sell else Buy }
  }

  /** Engine ids are the decimal text of the contract's ids, so a number names them uniquely. */
  type OrderId = nat

  type Account = string

  /** Orders are never written after construction; queues replace them. */
  datatype Order = Order(id: OrderId, side: Side, quantity: int, price: int, owner: Account, time: int)

  datatype Error = InvalidQuantity | InvalidPrice | OrderExists | InsufficientQuantity

  /** What a taker accepts from the other side: any price, at most, or at least the given one. */
  datatype Limit = AnyPrice | AtMost(ceiling: int) | AtLeast(floor: int) {
    predicate Accepts(price: int) {
      match this
      case AnyPrice => true
      case AtMost(ceiling) => price <= ceiling
      case AtLeast(floor) => price >= floor
    }
  }

  function LimitOf(side: Side, price: int): Limit {
    if side == Buy then AtMost(price) else AtLeast(price)
  }

  /** On the resting side `side`, price `p` is strictly ahead of price `q`. */
  predicate Ahead(side: Side, p: int, q: int) {
    if side == Sell then p < q else p > q
  }

  ghost function Ids(orders: seq<Order>): set<OrderId> {
    set k | 0 <= k < |orders| :: orders[k].id
  }

  ghost predicate DistinctIds(orders: seq<Order>) {
    forall i, j :: 0 <= i < j < |orders| ==> orders[i].id != orders[j].id
  }

  ghost predicate AllPositive(orders: seq<Order>) {
    forall k :: 0 <= k < |orders| ==> orders[k].quantity > 0
  }

  /** Best price first; orders at one price may come in any (arrival) order. */
  ghost predicate SortedFor(side: Side, orders: seq<Order>) {
    forall i, j :: 0 <= i < j < |orders| ==> !Ahead(side, orders[j].price, orders[i].price)
  }

  ghost predicate AllOn(side: Side, orders: seq<Order>) {
    forall k :: 0 <= k < |orders| ==> orders[k].side == side
  }

  function Total(orders: seq<Order>): int {
    if orders == [] then 0 else orders[0].quantity + Total(orders[1..])
  }

  function Value(orders: seq<Order>): int {
    if orders == [] then 0 else orders[0].price * orders[0].quantity + Value(orders[1..])
  }

  lemma {:induction false} TotalConcat(a: seq<Order>, b: seq<Order>)
    ensures Total(a + b) == Total(a) + Total(b)
  {
    if a == [] {
      assert a + b == b;
    } else {
      assert (a + b)[1..] == a[1..] + b;
      TotalConcat(a[1..], b);
    }
  }

  lemma TotalSnoc(orders: seq<Order>, o: Order)
    ensures Total(orders + [o]) == Total(orders) + o.quantity
  {
    TotalConcat(orders, [o]);
  }

  lemma {:induction false} ValueConcat(a: seq<Order>, b: seq<Order>)
    ensures Value(a + b) == Value(a) + Value(b)
  {
    if a == [] {
      assert a + b == b;
    } else {
      assert (a + b)[1..] == a[1..] + b;
      ValueConcat(a[1..], b);
    }
  }

  lemma {:induction false} TotalPositive(orders: seq<Order>)
    requires AllPositive(orders)
    ensures Total(orders) >= |orders|
  {
    if orders != [] {
      TotalPositive(orders[1..]);
    }
  }

  lemma IdsConcat(a: seq<Order>, b: seq<Order>)
    ensures Ids(a + b) == Ids(a) + Ids(b)
  {
    var s := a + b;
    forall id | id in Ids(a) + Ids(b) ensures id in Ids(s) {
      if id in Ids(a) {
        var k :| 0 <= k < |a| && a[k].id == id;
        assert s[k].id == id;
      } else {
        var k :| 0 <= k < |b| && b[k].id == id;
        assert s[|a| + k].id == id;
      }
    }
  }

  /** The decimal library's division at sixteen digits: round half away from zero. */
  function RoundDiv(n: nat, d: nat): nat
    requires d > 0
  {
    (2 * n + d) / (2 * d)
  }

  /** The nearest whole number, the upper one of two equally near. */
  lemma RoundsToNearest(n: nat, d: nat)
    requires d > 0
    ensures 0 - d < 2 * (RoundDiv(n, d) * d - n) <= d
  {
    var r := RoundDiv(n, d);
    assert 2 * n + d == (2 * d) * r + (2 * n + d) % (2 * d);
    assert (2 * d) * r == 2 * (r * d);
  }
}

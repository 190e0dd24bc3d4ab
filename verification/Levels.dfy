/** One side as price levels, lowest price first, and how it reads as a single queue in either direction. */
module Levels {
  import opened Orders
  import opened Books

  datatype Level = Level(price: int, orders: seq<Order>)

  /** Prices strictly ascend and every order sits at its own price. */
  ghost predicate Ordered(levels: seq<Level>) {
    && (forall i, j :: 0 <= i < j < |levels| ==> levels[i].price < levels[j].price)
    && (forall i, j :: 0 <= i < |levels| && 0 <= j < |levels[i].orders| ==>
        levels[i].orders[j].price == levels[i].price)
  }

  /** In addition no level is empty. */
  ghost predicate WellFormed(levels: seq<Level>) {
    Ordered(levels) && forall i :: 0 <= i < |levels| ==> levels[i].orders != []
  }

  /** The side's queue, best price first: cheapest asks first, dearest bids first. */
  function Flatten(side: Side, levels: seq<Level>): seq<Order> {
    if levels == [] then []
    else if side == Sell then levels[0].orders + Flatten(side, levels[1..])
    else Flatten(side, levels[1..]) + levels[0].orders
  }

  function Count(levels: seq<Level>): nat {
    if levels == [] then 0 else |levels[0].orders| + Count(levels[1..])
  }

  lemma Regroup<T>(a: seq<T>, b: seq<T>, c: seq<T>)
    ensures (a + b) + c == a + (b + c)
  {
  }

  lemma {:induction false} FlattenAsks(low: seq<Level>, high: seq<Level>)
    ensures Flatten(Sell, low + high) == Flatten(Sell, low) + Flatten(Sell, high)
  {
    if low == [] {
      assert low + high == high;
    } else {
      assert (low + high)[1..] == low[1..] + high && (low + high)[0] == low[0];
      FlattenAsks(low[1..], high);
      Regroup(low[0].orders, Flatten(Sell, low[1..]), Flatten(Sell, high));
    }
  }

  lemma {:induction false} FlattenBids(low: seq<Level>, high: seq<Level>)
    ensures Flatten(Buy, low + high) == Flatten(Buy, high) + Flatten(Buy, low)
  {
    if low == [] {
      assert low + high == high;
    } else {
      assert (low + high)[1..] == low[1..] + high && (low + high)[0] == low[0];
      FlattenBids(low[1..], high);
      Regroup(Flatten(Buy, high), Flatten(Buy, low[1..]), low[0].orders);
    }
  }

  lemma FlattenConcat(side: Side, low: seq<Level>, high: seq<Level>)
    ensures Flatten(side, low + high) ==
            if side == Sell then Flatten(side, low) + Flatten(side, high) else Flatten(side, high) + Flatten(side, low)
  {
    hide Flatten;
    FlattenAsks(low, high);
    FlattenBids(low, high);
  }

  lemma {:induction false} CountConcat(low: seq<Level>, high: seq<Level>)
    ensures Count(low + high) == Count(low) + Count(high)
  {
    if low == [] {
      assert low + high == high;
    } else {
      assert (low + high)[1..] == low[1..] + high;
      CountConcat(low[1..], high);
    }
  }

  lemma {:induction false} CountIsLength(side: Side, levels: seq<Level>)
    ensures Count(levels) == |Flatten(side, levels)|
  {
    if levels != [] {
      CountIsLength(side, levels[1..]);
    }
  }

  /** The levels before and after one level, in the order the side's queue reads them. */
  function Before(side: Side, low: seq<Level>, high: seq<Level>): seq<Order> {
    Flatten(side, if side == Sell then low else high)
  }

  function After(side: Side, low: seq<Level>, high: seq<Level>): seq<Order> {
    Flatten(side, if side == Sell then high else low)
  }

  lemma FlattenAround(side: Side, low: seq<Level>, level: Level, high: seq<Level>)
    ensures Flatten(side, low + [level] + high) == Before(side, low, high) + level.orders + After(side, low, high)
  {
    FlattenConcat(side, low + [level], high);
    FlattenConcat(side, low, [level]);
    assert Flatten(side, [level]) == level.orders;
  }

  lemma CountAround(low: seq<Level>, level: Level, high: seq<Level>)
    ensures Count(low + [level] + high) == Count(low) + |level.orders| + Count(high)
  {
    CountConcat(low + [level], high);
    CountConcat(low, [level]);
  }

  /** Everything in a queue flattened from levels carries the price of one of them. */
  lemma {:induction false} FlattenPrices(side: Side, levels: seq<Level>, k: nat) returns (i: nat)
    requires WellFormed(levels) && k < |Flatten(side, levels)|
    ensures i < |levels| && Flatten(side, levels)[k].price == levels[i].price
    ensures Flatten(side, levels)[k] in levels[i].orders
  {
    var first, rest := levels[0].orders, Flatten(side, levels[1..]);
    if side == Sell && k < |first| {
      i := 0;
    } else if side == Buy && k >= |rest| {
      i := 0;
    } else {
      var j := FlattenPrices(side, levels[1..], if side == Sell then k - |first| else k);
      i := j + 1;
    }
  }

  lemma Splice(levels: seq<Level>, i: nat, level: Level)
    requires i < |levels|
    ensures levels[i := level] == levels[..i] + [level] + levels[i + 1..]
  {
  }

  lemma ReplaceCounts(levels: seq<Level>, i: nat, level: Level)
    requires i < |levels|
    ensures Count(levels[i := level]) == Count(levels) - |levels[i].orders| + |level.orders|
  {
    hide Count;
    assert levels[i := levels[i]] == levels;
    Splice(levels, i, levels[i]);
    Splice(levels, i, level);
    CountAround(levels[..i], levels[i], levels[i + 1..]);
    CountAround(levels[..i], level, levels[i + 1..]);
  }

  lemma ReplaceKeepsLevels(levels: seq<Level>, i: nat, level: Level)
    requires WellFormed(levels) && i < |levels| && level.price == levels[i].price
    requires level.orders != [] && forall k :: 0 <= k < |level.orders| ==> level.orders[k].price == level.price
    ensures WellFormed(levels[i := level])
    ensures Count(levels[i := level]) == Count(levels) - |levels[i].orders| + |level.orders|
  {
    hide Count;
    ReplaceCounts(levels, i, level);
  }

  // ---------- appending ----------

  /** The level list after an order joins the level at its price, or opens one at position `i`. */
  ghost predicate AppendedAt(levels: seq<Level>, i: nat, o: Order, after: seq<Level>) {
    && i <= |levels|
    && if i < |levels| && levels[i].price == o.price
       then after == levels[i := Level(o.price, levels[i].orders + [o])]
       else && after == levels[..i] + [Level(o.price, [o])] + levels[i..]
            && (forall j :: 0 <= j < i ==> levels[j].price < o.price)
            && (forall j :: i <= j < |levels| ==> o.price < levels[j].price)
  }

  lemma OpenThenPush(levels: seq<Level>, i: nat, o: Order, wider: seq<Level>)
    requires i <= |levels| && wider == levels[..i] + [Level(o.price, [])] + levels[i..]
    requires forall j :: 0 <= j < |levels| ==> if j < i then levels[j].price < o.price else o.price < levels[j].price
    ensures AppendedAt(levels, i, o, wider[i := Level(o.price, wider[i].orders + [o])])
  {
    assert wider[i].orders + [o] == [o];
    assert wider[i := Level(o.price, [o])] == levels[..i] + [Level(o.price, [o])] + levels[i..];
  }

  /** The price levels of the side's queue that come no later than price `p`. */
  lemma FlattenNotBehind(side: Side, levels: seq<Level>, p: int)
    requires WellFormed(levels)
    requires forall i :: 0 <= i < |levels| ==> !Ahead(side, p, levels[i].price)
    ensures forall k :: 0 <= k < |Flatten(side, levels)| ==> !Ahead(side, p, Flatten(side, levels)[k].price)
  {
    forall k | 0 <= k < |Flatten(side, levels)| ensures !Ahead(side, p, Flatten(side, levels)[k].price) {
      var i := FlattenPrices(side, levels, k);
    }
  }

  lemma FlattenBehind(side: Side, levels: seq<Level>, p: int)
    requires WellFormed(levels)
    requires forall i :: 0 <= i < |levels| ==> Ahead(side, p, levels[i].price)
    ensures forall k :: 0 <= k < |Flatten(side, levels)| ==> Ahead(side, p, Flatten(side, levels)[k].price)
  {
    forall k | 0 <= k < |Flatten(side, levels)| ensures Ahead(side, p, Flatten(side, levels)[k].price) {
      var i := FlattenPrices(side, levels, k);
    }
  }

  lemma PartsWellFormed(levels: seq<Level>, i: nat, j: nat)
    requires WellFormed(levels) && i <= j <= |levels|
    ensures WellFormed(levels[..i]) && WellFormed(levels[j..])
  {
  }

  lemma JoinIsInsert(side: Side, levels: seq<Level>, i: nat, o: Order)
    requires WellFormed(levels) && i < |levels| && levels[i].price == o.price
    ensures Flatten(side, levels[i := Level(o.price, levels[i].orders + [o])]) == Insert(side, Flatten(side, levels), o)
  {
    hide Flatten;
    var low, high, level := levels[..i], levels[i + 1..], levels[i];
    assert levels == low + [level] + high;
    PartsWellFormed(levels, i, i + 1);
    FlattenAround(side, low, level, high);
    FlattenAround(side, low, Level(o.price, level.orders + [o]), high);
    Splice(levels, i, Level(o.price, level.orders + [o]));
    var before, after := Before(side, low, high), After(side, low, high);
    FlattenNotBehind(side, if side == Sell then low else high, o.price);
    FlattenBehind(side, if side == Sell then high else low, o.price);
    assert forall k :: 0 <= k < |level.orders| ==> level.orders[k].price == o.price;
    InsertBetween(side, before + level.orders, after, o);
    Regroup(before, level.orders, [o]);
  }

  lemma OpenIsInsert(side: Side, levels: seq<Level>, i: nat, o: Order)
    requires WellFormed(levels) && i <= |levels|
    requires forall j :: 0 <= j < i ==> levels[j].price < o.price
    requires forall j :: i <= j < |levels| ==> o.price < levels[j].price
    ensures Flatten(side, levels[..i] + [Level(o.price, [o])] + levels[i..]) == Insert(side, Flatten(side, levels), o)
  {
    var low, high := levels[..i], levels[i..];
    assert levels == low + high;
    PartsWellFormed(levels, i, i);
    FlattenConcat(side, low, high);
    FlattenAround(side, low, Level(o.price, [o]), high);
    FlattenNotBehind(side, if side == Sell then low else high, o.price);
    FlattenBehind(side, if side == Sell then high else low, o.price);
    InsertBetween(side, Before(side, low, high), After(side, low, high), o);
  }

  /** Joining or opening a level is inserting behind every order of the same or a better price. */
  lemma AppendIsInsert(side: Side, levels: seq<Level>, i: nat, o: Order, after: seq<Level>)
    requires WellFormed(levels) && AppendedAt(levels, i, o, after)
    ensures Flatten(side, after) == Insert(side, Flatten(side, levels), o)
  {
    if i < |levels| && levels[i].price == o.price {
      JoinIsInsert(side, levels, i, o);
    } else {
      OpenIsInsert(side, levels, i, o);
    }
  }

  lemma AppendKeepsLevels(levels: seq<Level>, i: nat, o: Order, after: seq<Level>)
    requires WellFormed(levels) && AppendedAt(levels, i, o, after)
    ensures WellFormed(after) && Count(after) == Count(levels) + 1
  {
    if i < |levels| && levels[i].price == o.price {
      ReplaceKeepsLevels(levels, i, Level(o.price, levels[i].orders + [o]));
    } else {
      assert levels == levels[..i] + levels[i..];
      CountConcat(levels[..i], levels[i..]);
      CountAround(levels[..i], Level(o.price, [o]), levels[i..]);
      OpenKeepsLevels(levels, i, Level(o.price, [o]));
    }
  }

  lemma OrderedOpen(levels: seq<Level>, i: nat, level: Level)
    requires Ordered(levels) && i <= |levels|
    requires forall k :: 0 <= k < |level.orders| ==> level.orders[k].price == level.price
    requires forall j :: 0 <= j < |levels| ==>
               if j < i then levels[j].price < level.price else level.price < levels[j].price
    ensures Ordered(levels[..i] + [level] + levels[i..])
  {
    var after := levels[..i] + [level] + levels[i..];
    assert forall k :: 0 <= k < |after| ==>
             after[k] == if k < i then levels[k] else if k == i then level else levels[k - 1];
  }

  lemma OrderedReplace(levels: seq<Level>, i: nat, level: Level)
    requires Ordered(levels) && i < |levels| && level.price == levels[i].price
    requires forall k :: 0 <= k < |level.orders| ==> level.orders[k].price == level.price
    ensures Ordered(levels[i := level])
  {
  }

  lemma OrderedDrop(levels: seq<Level>, i: nat)
    requires Ordered(levels) && i < |levels|
    ensures Ordered(levels[..i] + levels[i + 1..])
  {
    var after := levels[..i] + levels[i + 1..];
    assert forall k :: 0 <= k < |after| ==> after[k] == if k < i then levels[k] else levels[k + 1];
  }

  lemma TakePrices(levels: seq<Level>, i: nat, j: nat)
    requires Ordered(levels) && i < |levels| && j < |levels[i].orders|
    ensures Ordered(levels[i := Level(levels[i].price, Without(levels[i].orders, j))])
  {
    var rest := Without(levels[i].orders, j);
    assert forall k :: 0 <= k < |rest| ==> rest[k] == levels[i].orders[if k < j then k else k + 1];
    OrderedReplace(levels, i, Level(levels[i].price, rest));
  }

  lemma OpenKeepsLevels(levels: seq<Level>, i: nat, level: Level)
    requires WellFormed(levels) && i <= |levels|
    requires level.orders != [] && forall k :: 0 <= k < |level.orders| ==> level.orders[k].price == level.price
    requires forall j :: 0 <= j < i ==> levels[j].price < level.price
    requires forall j :: i <= j < |levels| ==> level.price < levels[j].price
    ensures WellFormed(levels[..i] + [level] + levels[i..])
  {
    var after := levels[..i] + [level] + levels[i..];
    assert forall k :: 0 <= k < |after| ==>
             after[k] == if k < i then levels[k] else if k == i then level else levels[k - 1];
  }

  // ---------- removing ----------

  function Without<T>(orders: seq<T>, j: nat): seq<T>
    requires j < |orders|
  {
    orders[..j] + orders[j + 1..]
  }

  /** The level list after order `j` of level `i` leaves; an emptied level goes with it. */
  function RemovedAt(levels: seq<Level>, i: nat, j: nat): seq<Level>
    requires i < |levels| && j < |levels[i].orders|
  {
    var rest := Without(levels[i].orders, j);
    if rest == [] then levels[..i] + levels[i + 1..] else levels[i := Level(levels[i].price, rest)]
  }

  lemma RemovedAtFlat(side: Side, levels: seq<Level>, i: nat, j: nat)
    requires i < |levels| && j < |levels[i].orders|
    ensures var low, high := levels[..i], levels[i + 1..];
            Flatten(side, RemovedAt(levels, i, j)) ==
            (Before(side, low, high) + levels[i].orders[..j]) + (levels[i].orders[j + 1..] + After(side, low, high))
  {
    hide Flatten;
    var low, high, orders := levels[..i], levels[i + 1..], levels[i].orders;
    var rest := Without(orders, j);
    var before, after := Before(side, low, high), After(side, low, high);
    if rest == [] {
      FlattenConcat(side, low, high);
      assert orders[..j] == [] && orders[j + 1..] == [];
      assert (before + []) + ([] + after) == before + after;
    } else {
      FlattenAround(side, low, Level(levels[i].price, rest), high);
      Splice(levels, i, Level(levels[i].price, rest));
      Regroup(before, orders[..j], orders[j + 1..]);
      Regroup(before + orders[..j], orders[j + 1..], after);
    }
  }

  /** Taking an order out of its level is removing it, by id, from the side's queue. */
  lemma SplitAt(side: Side, levels: seq<Level>, i: nat, j: nat)
    requires i < |levels| && j < |levels[i].orders|
    ensures var low, high, orders := levels[..i], levels[i + 1..], levels[i].orders;
            Flatten(side, levels) ==
            (Before(side, low, high) + orders[..j]) + [orders[j]] + (orders[j + 1..] + After(side, low, high))
  {
    hide Flatten, Before, After;
    var low, high, orders := levels[..i], levels[i + 1..], levels[i].orders;
    assert levels == low + [levels[i]] + high;
    FlattenAround(side, low, levels[i], high);
    assert orders == orders[..j] + [orders[j]] + orders[j + 1..];
    Regroup(Before(side, low, high), orders[..j], [orders[j]]);
    Regroup(Before(side, low, high), orders[..j] + [orders[j]], orders[j + 1..]);
    Regroup((Before(side, low, high) + orders[..j]) + [orders[j]], orders[j + 1..], After(side, low, high));
  }

  lemma RemoveIsRemove(side: Side, levels: seq<Level>, i: nat, j: nat)
    requires i < |levels| && j < |levels[i].orders|
    requires DistinctIds(Flatten(side, levels))
    ensures Flatten(side, RemovedAt(levels, i, j)) == Remove(Flatten(side, levels), levels[i].orders[j].id)
    ensures Find(Flatten(side, levels), levels[i].orders[j].id) == Some(levels[i].orders[j])
  {
    hide Flatten, RemovedAt, Before, After;
    var low, high, orders := levels[..i], levels[i + 1..], levels[i].orders;
    var before, after := Before(side, low, high), After(side, low, high);
    RemovedAtFlat(side, levels, i, j);
    var head, tail := before + orders[..j], orders[j + 1..] + after;
    SplitAt(side, levels, i, j);
    forall k | 0 <= k < |head| ensures head[k].id != orders[j].id {
      assert Flatten(side, levels)[k] == head[k] && Flatten(side, levels)[|head|] == orders[j];
    }
    RemoveBetween(head, orders[j], tail);
  }

  lemma RemoveKeepsLevels(levels: seq<Level>, i: nat, j: nat)
    requires WellFormed(levels) && i < |levels| && j < |levels[i].orders|
    ensures WellFormed(RemovedAt(levels, i, j)) && Count(RemovedAt(levels, i, j)) == Count(levels) - 1
  {
    var rest := Without(levels[i].orders, j);
    if rest == [] {
      assert levels == levels[..i] + [levels[i]] + levels[i + 1..];
      CountAround(levels[..i], levels[i], levels[i + 1..]);
      CountConcat(levels[..i], levels[i + 1..]);
      DropKeepsLevels(levels, i);
    } else {
      ReplaceKeepsLevels(levels, i, Level(levels[i].price, rest));
    }
  }

  lemma DropKeepsLevels(levels: seq<Level>, i: nat)
    requires WellFormed(levels) && i < |levels|
    ensures WellFormed(levels[..i] + levels[i + 1..])
  {
    var after := levels[..i] + levels[i + 1..];
    assert forall k :: 0 <= k < |after| ==> after[k] == if k < i then levels[k] else levels[k + 1];
  }

  // ---------- the best level ----------

  function BestIndex(side: Side, n: nat): int {
    if side == Sell then 0 else n - 1
  }

  lemma LastFirst(levels: seq<Level>)
    requires levels != []
    ensures Flatten(Buy, levels) == levels[|levels| - 1].orders + Flatten(Buy, levels[..|levels| - 1])
  {
    var before, last := levels[..|levels| - 1], levels[|levels| - 1];
    assert levels == before + [last];
    FlattenConcat(Buy, before, [last]);
    assert Flatten(Buy, [last]) == last.orders;
  }

  /** The queue of the best level opens the side's queue. */
  lemma BestFirst(side: Side, levels: seq<Level>) returns (rest: seq<Order>)
    requires WellFormed(levels) && levels != []
    ensures Flatten(side, levels) == levels[BestIndex(side, |levels|)].orders + rest
    ensures rest == Flatten(side, if side == Sell then levels[1..] else levels[..|levels| - 1])
  {
    hide WellFormed;
    var n := |levels|;
    if side == Sell {
      rest := Flatten(side, levels[1..]);
    } else {
      rest := Flatten(side, levels[..n - 1]);
      LastFirst(levels);
    }
  }

  // ---------- ascending prices are determined by their set ----------

  ghost predicate AscendingPrices(s: seq<int>) {
    forall i, j :: 0 <= i < j < |s| ==> s[i] < s[j]
  }

  lemma TailMember(a: seq<int>, b: seq<int>, x: int)
    requires AscendingPrices(a) && a != [] && b != [] && a[0] == b[0]
    requires x in a[1..] && x in b
    ensures x in b[1..]
  {
    var k :| 0 <= k < |a[1..]| && a[1..][k] == x;
    assert a[0] < a[k + 1] == x;
    var m :| 0 <= m < |b| && b[m] == x;
    assert b[1..][m - 1] == x;
  }

  lemma {:induction false} SameAscending(a: seq<int>, b: seq<int>)
    requires AscendingPrices(a) && AscendingPrices(b)
    requires forall x :: x in a <==> x in b
    ensures a == b
  {
    assert |a| > 0 ==> |b| > 0 by {
      if |a| > 0 { assert a[0] in a; }
    }
    assert |b| > 0 ==> |a| > 0 by {
      if |b| > 0 { assert b[0] in b; }
    }
    if |a| > 0 {
      assert a[0] in a && b[0] in b;
      assert a[0] == b[0];
      forall x ensures x in a[1..] <==> x in b[1..] {
        if x in a[1..] {
          assert x in a;
          TailMember(a, b, x);
        }
        if x in b[1..] {
          assert x in b;
          TailMember(b, a, x);
        }
      }
      SameAscending(a[1..], b[1..]);
    }
  }

  // ---------- a queue has one reading as levels ----------

  lemma SameFront(p: int, a: seq<Order>, more: seq<Order>, b: seq<Order>, rest: seq<Order>)
    requires a + more == b + rest
    requires (forall k :: 0 <= k < |a| ==> a[k].price == p) && (forall k :: 0 <= k < |b| ==> b[k].price == p)
    requires (forall k :: 0 <= k < |more| ==> more[k].price != p)
    requires (forall k :: 0 <= k < |rest| ==> rest[k].price != p)
    ensures a == b && more == rest
  {
    var all := a + more;
    assert forall k :: 0 <= k < |a| ==> all[k].price == p;
    assert forall k :: 0 <= k < |b| ==> all[k].price == p;
    assert |a| < |all| ==> all[|a|].price != p;
    assert |b| < |all| ==> all[|b|].price != p;
    assert a == all[..|a|] && more == all[|a|..] && b == all[..|b|] && rest == all[|b|..];
  }

  function ButBest(side: Side, levels: seq<Level>): seq<Level>
    requires levels != []
  {
    if side == Sell then levels[1..] else levels[..|levels| - 1]
  }

  /** The best level, and that no order behind it has its price. */
  lemma BestApart(side: Side, levels: seq<Level>)
    requires WellFormed(levels) && levels != []
    ensures var best, behind := levels[BestIndex(side, |levels|)], Flatten(side, ButBest(side, levels));
            && WellFormed(ButBest(side, levels)) && Flatten(side, levels) == best.orders + behind
            && (forall k :: 0 <= k < |best.orders| ==> best.orders[k].price == best.price)
            && (forall k :: 0 <= k < |behind| ==> behind[k].price != best.price)
  {
    var behind := BestFirst(side, levels);
    var others := ButBest(side, levels);
    PartsWellFormed(levels, |levels| - 1, |levels|);
    PartsWellFormed(levels, 1, 1);
    forall k | 0 <= k < |behind| ensures behind[k].price != levels[BestIndex(side, |levels|)].price {
      var i := FlattenPrices(side, others, k);
    }
  }

  /** Two well-formed level lists that make the same queue are the same. */
  lemma {:induction false} FlattenInjective(side: Side, a: seq<Level>, b: seq<Level>)
    requires WellFormed(a) && WellFormed(b) && Flatten(side, a) == Flatten(side, b)
    ensures a == b
    decreases |a|
  {
    if a == [] || b == [] {
      OnlyEmpty(side, a);
      OnlyEmpty(side, b);
    } else {
      hide Flatten, WellFormed;
      BestApart(side, a);
      BestApart(side, b);
      SameBest(side, a, b);
      FlattenInjective(side, ButBest(side, a), ButBest(side, b));
      Rebuilt(side, a);
      Rebuilt(side, b);
    }
  }

  lemma OnlyEmpty(side: Side, levels: seq<Level>)
    requires WellFormed(levels)
    ensures Flatten(side, levels) == [] <==> levels == []
  {
  }

  lemma SameBest(side: Side, a: seq<Level>, b: seq<Level>)
    requires WellFormed(a) && WellFormed(b) && a != [] && b != [] && Flatten(side, a) == Flatten(side, b)
    ensures a[BestIndex(side, |a|)] == b[BestIndex(side, |b|)]
    ensures Flatten(side, ButBest(side, a)) == Flatten(side, ButBest(side, b))
  {
    BestApart(side, a);
    BestApart(side, b);
    hide Flatten;
    var x, y := a[BestIndex(side, |a|)], b[BestIndex(side, |b|)];
    assert x.orders[0] == Flatten(side, a)[0] && y.orders[0] == Flatten(side, b)[0];
    SameFront(x.price, x.orders, Flatten(side, ButBest(side, a)), y.orders, Flatten(side, ButBest(side, b)));
  }

  lemma Rebuilt(side: Side, levels: seq<Level>)
    requires levels != []
    ensures levels == if side == Sell then [levels[BestIndex(side, |levels|)]] + ButBest(side, levels)
                      else ButBest(side, levels) + [levels[BestIndex(side, |levels|)]]
  {
  }
}

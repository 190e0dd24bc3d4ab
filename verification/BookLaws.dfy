/** What holds of the reference book over every run of limit, market and cancel commands. */
module BookLaws {
  import opened Orders
  import opened Matching
  import opened Books

  // ---------- one match ----------

  lemma SuffixKeepsSide(side: Side, orders: seq<Order>, k: nat)
    requires SideOk(side, orders) && k <= |orders|
    ensures SideOk(side, orders[k..])
  {
    assert forall i :: 0 <= i < |orders| - k ==> orders[k..][i] == orders[k + i];
  }

  lemma SuffixIds(orders: seq<Order>, k: nat)
    requires k <= |orders|
    ensures Ids(orders) == Ids(orders[..k]) + Ids(orders[k..])
  {
    IdsConcat(orders[..k], orders[k..]);
    assert orders == orders[..k] + orders[k..];
  }

  lemma ReplaceHeadKeepsSide(side: Side, orders: seq<Order>, o: Order)
    requires SideOk(side, orders) && orders != []
    requires o.id == orders[0].id && o.price == orders[0].price && o.side == side && o.quantity > 0
    ensures SideOk(side, [o] + orders[1..])
  {
    var r := [o] + orders[1..];
    assert forall i :: 0 <= i < |r| ==> r[i] == if i == 0 then o else orders[i];
  }

  /** The side after a match: the unfilled suffix of the queue, its head perhaps reduced. */
  lemma MatchKeepsSide(side: Side, resting: seq<Order>, limit: Limit, account: Account, quantity: int)
    requires SideOk(side, resting)
    ensures var f := Match(resting, limit, account, quantity);
            && SideOk(side, f.resting) && |f.done| + |f.resting| == |resting|
            && forall i :: 0 <= i < |f.resting| ==>
                 f.resting[i].id == resting[|f.done| + i].id && f.resting[i].price == resting[|f.done| + i].price
  {
    hide Match, SortedFor, DistinctIds;
    MatchTakesPrefix(resting, limit, account, quantity);
    var f := Match(resting, limit, account, quantity);
    var k := |f.done|;
    SuffixKeepsSide(side, resting, k);
    if f.partial.Some? {
      assert resting[k..][1..] == resting[k + 1..];
      ReplaceHeadKeepsSide(side, resting[k..], f.partial.value);
    }
  }

  lemma SameIds(a: seq<Order>, b: seq<Order>)
    requires |a| == |b| && forall i :: 0 <= i < |a| ==> a[i].id == b[i].id
    ensures Ids(a) == Ids(b)
  {
  }

  /** The ids on the side lose exactly the fully filled makers. */
  lemma MatchIds(side: Side, resting: seq<Order>, limit: Limit, account: Account, quantity: int)
    requires SideOk(side, resting)
    ensures var f := Match(resting, limit, account, quantity);
            Ids(resting) == Ids(f.done) + Ids(f.resting) && Ids(f.done) !! Ids(f.resting)
  {
    MatchKeepsSide(side, resting, limit, account, quantity);
    MatchTakesPrefix(resting, limit, account, quantity);
    var f := Match(resting, limit, account, quantity);
    var k := |f.done|;
    SuffixIds(resting, k);
    SameIds(f.resting, resting[k..]);
    DisjointPrefix(resting, k);
  }

  lemma DisjointPrefix(orders: seq<Order>, k: nat)
    requires DistinctIds(orders) && k <= |orders|
    ensures Ids(orders[..k]) !! Ids(orders[k..])
  {
    forall id | id in Ids(orders[..k]) ensures id !in Ids(orders[k..]) {
      var i :| 0 <= i < k && orders[..k][i].id == id;
      forall j | 0 <= j < |orders| - k ensures orders[k..][j].id != id {
        assert orders[i].id != orders[k + j].id;
      }
    }
  }

  lemma FindIffPresent(orders: seq<Order>, id: OrderId)
    requires DistinctIds(orders)
    ensures Find(orders, id).Some? <==> id in Ids(orders)
  {
    if id in Ids(orders) {
      var k :| 0 <= k < |orders| && orders[k].id == id;
      RemoveAt(orders, k);
    } else {
      RemoveAbsent(orders, id);
    }
  }

  // ---------- every operation keeps a good book good ----------

  /** A side whose best price did not improve cannot newly cross the other. */
  lemma WorseSideKeepsGood(b: Book, side: Side, orders: seq<Order>, volume: int)
    requires Good(b) && SideOk(side, orders) && Ids(orders) <= Ids(b.On(side))
    requires orders != [] ==> b.On(side) != [] && !Ahead(side, orders[0].price, b.On(side)[0].price)
    ensures Good(b.With(side, orders, volume))
  {
  }

  lemma MatchedSideKeepsGood(b: Book, maker: Side, limit: Limit, account: Account, quantity: int)
    requires Good(b)
    ensures Good(AfterMatch(b, maker, Match(b.On(maker), limit, account, quantity)))
  {
    var resting := b.On(maker);
    MatchKeepsSide(maker, resting, limit, account, quantity);
    MatchIds(maker, resting, limit, account, quantity);
    var f := Match(resting, limit, account, quantity);
    if f.resting != [] {
      assert f.resting[0].price == resting[|f.done|].price;
      assert |f.done| > 0 ==> !Ahead(maker, resting[|f.done|].price, resting[0].price);
    }
    WorseSideKeepsGood(b, maker, f.resting, b.VolumeOn(maker) - Total(f.done));
  }

  /** An order that accepts no maker can rest. */
  lemma RestKeepsGood(b: Book, o: Order, volume: int)
    requires Good(b) && o.quantity > 0 && o.price > 0 && o.id !in b.AllIds()
    requires var maker := o.side.Opposite();
             b.On(maker) == [] || !LimitOf(o.side, o.price).Accepts(b.On(maker)[0].price)
    ensures Good(b.With(o.side, Insert(o.side, b.On(o.side), o), volume))
  {
    InsertKeepsSide(o.side, b.On(o.side), o);
    InsertHead(o.side, b.On(o.side), o);
    hide Insert, SideOk, Ids;
  }

  lemma LimitKeepsGood(b: Book, account: Account, side: Side, id: OrderId, quantity: int, price: int, now: int)
    requires Good(b)
    ensures Good(PlaceLimit(b, account, side, id, quantity, price, now).book)
  {
    var r := PlaceLimit(b, account, side, id, quantity, price, now);
    if r.error.None? {
      var maker, limit := side.Opposite(), LimitOf(side, price);
      var f := Match(b.On(maker), limit, account, quantity);
      MatchedSideKeepsGood(b, maker, limit, account, quantity);
      if f.left > 0 {
        var matched := AfterMatch(b, maker, f);
        var o := Order(id, side, f.left, price, account, now);
        FindIffPresent(b.asks, id);
        FindIffPresent(b.bids, id);
        MatchIds(maker, b.On(maker), limit, account, quantity);
        MatchTradesMaximum(b.On(maker), limit, account, quantity);
        RestKeepsGood(matched, o, matched.VolumeOn(side) + f.left);
      }
    }
  }

  lemma InsertHead(side: Side, orders: seq<Order>, o: Order)
    requires SortedFor(side, orders)
    ensures var r := Insert(side, orders, o);
            r != [] && (r[0] == o || (orders != [] && r[0] == orders[0]))
  {
  }

  lemma MarketKeepsGood(b: Book, account: Account, side: Side, quantity: int)
    requires Good(b)
    ensures Good(PlaceMarket(b, account, side, quantity).book)
  {
    if quantity > 0 {
      MatchedSideKeepsGood(b, side.Opposite(), AnyPrice, account, quantity);
    }
  }

  /** Cancelling takes out the one order with that id and leaves all others in their places. */
  lemma CancelRemovesOne(b: Book, id: OrderId)
    requires Good(b)
    ensures var (after, o) := Cancel(b, id);
            && (o.Some? <==> id in b.AllIds())
            && (o.None? ==> after == b)
            && (o.Some? ==>
                  var side := o.value.side;
                  && o.value.id == id
                  && (exists k :: 0 <= k < |b.On(side)| && b.On(side)[k] == o.value
                                  && after.On(side) == b.On(side)[..k] + b.On(side)[k + 1..])
                  && after.On(side.Opposite()) == b.On(side.Opposite())
                  && after.VolumeOn(side) == b.VolumeOn(side) - o.value.quantity
                  && after.VolumeOn(side.Opposite()) == b.VolumeOn(side.Opposite())
                  && after.AllIds() == b.AllIds() - {id})
  {
    hide SortedFor, AllPositive, Uncrossed, Total, Find, Books.Remove;
    FindIffPresent(b.asks, id);
    FindIffPresent(b.bids, id);
    var side := if id in Ids(b.asks) then Sell else Buy;
    if id in b.AllIds() {
      var orders := b.On(side);
      var k :| 0 <= k < |orders| && orders[k].id == id;
      RemoveAt(orders, k);
      RemoveIds(orders, k);
    }
  }

  lemma CancelIds(b: Book, id: OrderId)
    requires Good(b)
    ensures Cancel(b, id).0.AllIds() == b.AllIds() - {id}
  {
    CancelRemovesOne(b, id);
  }

  lemma CancelKeepsGood(b: Book, id: OrderId)
    requires Good(b)
    ensures Good(Cancel(b, id).0)
  {
    hide Find, Books.Remove, Total, SideOk, Uncrossed, Ids;
    CancelRemovesOne(b, id);
    var (after, o) := Cancel(b, id);
    if o.Some? {
      var side := o.value.side;
      var orders := b.On(side);
      var k :| 0 <= k < |orders| && orders[k] == o.value && after.On(side) == orders[..k] + orders[k + 1..];
      DropKeepsGood(b, side, k, after.VolumeOn(side));
      assert after == b.With(side, after.On(side), after.VolumeOn(side));
    }
  }

  lemma DropKeepsGood(b: Book, side: Side, k: nat, volume: int)
    requires Good(b) && k < |b.On(side)|
    ensures Good(b.With(side, b.On(side)[..k] + b.On(side)[k + 1..], volume))
  {
    hide Total, SortedFor, AllPositive, AllOn, Ids, Uncrossed;
    var orders := b.On(side);
    RemoveKeepsSide(side, orders, k);
    RemoveIds(orders, k);
    HeadAfterRemove(side, orders, k);
    WorseSideKeepsGood(b, side, orders[..k] + orders[k + 1..], volume);
  }

  lemma HeadAfterRemove(side: Side, orders: seq<Order>, k: nat)
    requires SortedFor(side, orders) && k < |orders|
    ensures var r := orders[..k] + orders[k + 1..];
            r != [] ==> !Ahead(side, r[0].price, orders[0].price)
  {
    var r := orders[..k] + orders[k + 1..];
    if r != [] {
      assert r[0] == if k == 0 then orders[1] else orders[0];
    }
  }

  // ---------- what an order keeps while it rests ----------

  /** Under which id, at what price and on which side orders rest. */
  ghost function EntriesOf(orders: seq<Order>): set<(OrderId, int, Side)> {
    set k | 0 <= k < |orders| :: (orders[k].id, orders[k].price, orders[k].side)
  }

  ghost function Entries(b: Book): set<(OrderId, int, Side)> {
    EntriesOf(b.asks) + EntriesOf(b.bids)
  }

  lemma EntryOf(b: Book, side: Side, k: nat)
    requires k < |b.On(side)|
    ensures var o := b.On(side)[k]; (o.id, o.price, o.side) in Entries(b)
  {
  }

  lemma MatchEntries(resting: seq<Order>, limit: Limit, account: Account, quantity: int)
    ensures EntriesOf(Match(resting, limit, account, quantity).resting) <= EntriesOf(resting)
  {
    MatchTakesPrefix(resting, limit, account, quantity);
    var f := Match(resting, limit, account, quantity);
    forall k | 0 <= k < |f.resting|
      ensures (f.resting[k].id, f.resting[k].price, f.resting[k].side) in EntriesOf(resting)
    {
      var o := resting[|f.done| + k];
      assert (o.id, o.price, o.side) in EntriesOf(resting);
    }
  }

  lemma InsertEntries(side: Side, orders: seq<Order>, o: Order)
    requires SortedFor(side, orders)
    ensures EntriesOf(Insert(side, orders, o)) <= EntriesOf(orders) + {(o.id, o.price, o.side)}
  {
    var k := InsertSplits(side, orders, o);
  }

  /** A limit order leaves every order it does not use up under its id, at its price and on its side; only the
      taker itself can be new. */
  lemma LimitEntries(b: Book, account: Account, side: Side, id: OrderId, quantity: int, price: int, now: int)
    requires Good(b)
    ensures Entries(PlaceLimit(b, account, side, id, quantity, price, now).book) <= Entries(b) + {(id, price, side)}
  {
    hide Match, Insert, Find, EntriesOf, Total, Value, RoundDiv;
    var maker := side.Opposite();
    MatchEntries(b.On(maker), LimitOf(side, price), account, quantity);
    var f := Match(b.On(maker), LimitOf(side, price), account, quantity);
    InsertEntries(side, b.On(side), Order(id, side, f.left, price, account, now));
  }
}

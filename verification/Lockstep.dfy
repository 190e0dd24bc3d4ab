/** One limit order on both sides: what the engine submits for it, what the contract makes of the submission, and
    that the book and the chain agree again afterwards. */
module Lockstep {
  import opened Orders
  import opened Matching
  import opened Books
  import opened BookLaws
  import opened Settlement
  import opened Fills
  import opened Ownership
  import opened Simulation

  // ---------- a limit order on both sides ----------

  lemma {:induction false} OthersAll(taker: nat, done: seq<Order>)
    requires forall k :: 0 <= k < |done| ==> done[k].id != taker
    ensures Others(taker, done) == IdsOf(done)
  {
    if done != [] {
      OthersAll(taker, done[1..]);
    }
  }

  lemma {:induction false} OthersConcat(taker: nat, a: seq<Order>, b: seq<Order>)
    ensures Others(taker, a + b) == Others(taker, a) + Others(taker, b)
  {
    if a == [] {
      assert a + b == b;
    } else {
      assert (a + b)[1..] == a[1..] + b;
      OthersConcat(taker, a[1..], b);
    }
  }

  lemma {:induction false} IdsOfMembers(orders: seq<Order>)
    ensures forall id :: id in IdsOf(orders) <==> id in Ids(orders)
  {
    if orders != [] {
      IdsOfMembers(orders[1..]);
      assert orders == [orders[0]] + orders[1..];
      IdsConcat([orders[0]], orders[1..]);
      assert [orders[0]][0] == orders[0];
    }
  }

  lemma {:induction false} IdsOfLength(orders: seq<Order>)
    ensures |IdsOf(orders)| == |orders|
  {
    if orders != [] {
      IdsOfLength(orders[1..]);
    }
  }

  lemma {:induction false} IdsOfSnoc(a: seq<Order>, o: Order)
    ensures IdsOf(a + [o]) == IdsOf(a) + [o.id]
  {
    if a == [] {
      assert (a + [o])[1..] == [];
    } else {
      assert (a + [o])[1..] == a[1..] + [o];
      IdsOfSnoc(a[1..], o);
    }
  }

  /** The makers a match touches all rest on the maker side. */
  lemma MakersRest(resting: seq<Order>, limit: Limit, account: Account, quantity: int)
    ensures var f := Matching.Match(resting, limit, account, quantity);
            forall id :: id in MakersIn(f) ==> id in Ids(resting)
  {
    var f := Matching.Match(resting, limit, account, quantity);
    MatchTakesPrefix(resting, limit, account, quantity);
    IdsOfMembers(f.done);
    SuffixIds(resting, |f.done|);
    if f.partial.Some? {
      assert resting[|f.done|].id in Ids(resting);
    }
  }

  /** The taker is not among the makers of its own match. */
  lemma TakerNotMaker(resting: seq<Order>, limit: Limit, account: Account, quantity: int, id: OrderId)
    requires AllPositive(resting) && quantity > 0 && id !in Ids(resting)
    ensures var f := Matching.Match(resting, limit, account, quantity);
            && Others(id, f.done) == IdsOf(f.done) && |IdsOf(f.done)| == |f.done|
            && (f.partial.Some? ==> f.partial.value.id != id)
            && (f.left > 0 ==> f.partial.None?)
            && (f.left <= 0 ==> f.done != [] || f.partial.Some?)
  {
    var f := Matching.Match(resting, limit, account, quantity);
    MatchTakesPrefix(resting, limit, account, quantity);
    MatchConserves(resting, limit, account, quantity);
    MatchTradesMaximum(resting, limit, account, quantity);
    forall k | 0 <= k < |f.done| ensures f.done[k].id != id {
      assert resting[k].id in Ids(resting);
    }
    if f.partial.Some? {
      assert resting[|f.done|].id in Ids(resting);
    }
    OthersAll(id, f.done);
    IdsOfLength(f.done);
  }

  lemma FilledSubmission(id: nat, f: Matching.Fill, t: Order)
    requires t.id == id && Others(id, f.done) == IdsOf(f.done) && (f.partial.Some? ==> f.partial.value.id != id)
    ensures MakersOf(id, f.done + [t], f.partial) == MakersIn(f)
  {
    OthersConcat(id, f.done, [t]);
    assert [t][1..] == [] && Others(id, [t]) == [];
    assert IdsOf(f.done) + [] == IdsOf(f.done);
  }

  /** The submission names exactly the makers the match touched, and there is one exactly when there are any. */
  lemma SubmissionNames(b: Book, account: Account, side: Side, id: OrderId, quantity: int, price: int, now: int)
    requires Good(b) && PlaceLimit(b, account, side, id, quantity, price, now).error.None?
    ensures var r := PlaceLimit(b, account, side, id, quantity, price, now);
            var f := Matching.Match(b.On(side.Opposite()), LimitOf(side, price), account, quantity);
            SubmissionOf(id, r) == if MakersIn(f) == [] then None else Some(Submission(id, MakersIn(f)))
  {
    hide Find, Matching.Match, Insert, IdsOf, Others, Total, Value, Cost, RoundDiv;
    var r := PlaceLimit(b, account, side, id, quantity, price, now);
    var f := Matching.Match(b.On(side.Opposite()), LimitOf(side, price), account, quantity);
    FindIffPresent(b.asks, id);
    FindIffPresent(b.bids, id);
    TakerNotMaker(b.On(side.Opposite()), LimitOf(side, price), account, quantity, id);
    if f.left <= 0 {
      FilledSubmission(id, f, r.done[|r.done| - 1]);
      assert r.done == f.done + [r.done[|r.done| - 1]];
    }
  }

  lemma {:induction false} MatchesInsert(side: Side, orders: seq<Order>, o: Order, chain: map<nat, ChainOrder>)
    requires Matches(orders, chain) && Mirrors(o, chain)
    ensures Matches(Insert(side, orders, o), chain)
  {
    if orders == [] || Ahead(side, o.price, orders[0].price) {
    } else {
      assert Mirrors(orders[0], chain);
      forall k | 0 <= k < |orders[1..]| ensures Mirrors(orders[1..][k], chain) {
        assert Mirrors(orders[k + 1], chain);
      }
      MatchesInsert(side, orders[1..], o, chain);
    }
  }

  lemma MatchesFrame(orders: seq<Order>, chain: map<nat, ChainOrder>, after: map<nat, ChainOrder>)
    requires Matches(orders, chain)
    requires forall id :: id in Ids(orders) && id in chain ==> id in after && after[id] == chain[id]
    ensures Matches(orders, after)
  {
    forall k | 0 <= k < |orders| ensures Mirrors(orders[k], after) {
      assert Mirrors(orders[k], chain) && orders[k].id in Ids(orders);
    }
  }

  ghost predicate BookMatches(b: Book, chain: map<nat, ChainOrder>) {
    Matches(b.asks, chain) && Matches(b.bids, chain)
  }

  /** Executing a submission on the order storage, its transfers assumed to go through. */
  function Exec(chain: map<nat, ChainOrder>, m: Submission): Option<map<nat, ChainOrder>> {
    if m.taker !in chain then None
    else
      match MatchLoop(chain, chain[m.taker], m.makers, "", "")
      case None => None
      case Some(s) => Some(s.orders)
  }

  ghost predicate ChainStep(chain: map<nat, ChainOrder>, m: Submission, after: map<nat, ChainOrder>) {
    && after.Keys == chain.Keys
    && (forall id :: id in chain ==> SameIdentity(chain[id], after[id]))
    && (forall id :: id in chain && id != m.taker && id !in m.makers ==> after[id] == chain[id])
  }

  lemma LeftBounds(resting: seq<Order>, limit: Limit, account: Account, quantity: nat)
    requires AllPositive(resting)
    ensures var f := Matching.Match(resting, limit, account, quantity);
            && 0 <= f.left <= quantity && (f.left > 0 ==> f.partial.None?)
            && (f.done == [] && f.partial.None? ==> f.left == quantity)
  {
    MatchTradesMaximum(resting, limit, account, quantity);
    MatchTakesPrefix(resting, limit, account, quantity);
    var f := Matching.Match(resting, limit, account, quantity);
    TotalPositive(f.done);
    MatchConserves(resting, limit, account, quantity);
  }

  /** The contract's side of a delivered order: the submitted match runs through, touches only the taker
      and resting makers, and leaves both sides of the book as the match did. */
  lemma MatchOnChain(b: Book, chain: map<nat, ChainOrder>, o: ChainOrder, limit: Limit, account: Account)
    requires Good(b) && BookMatches(b, chain)
    requires o.id in chain && chain[o.id] == o && o.id !in b.AllIds() && Base(o) > 0
    ensures var f := Matching.Match(b.On(o.side.Opposite()), limit, account, Base(o));
            var m := Submission(o.id, MakersIn(f));
            var r := MatchLoop(chain, o, MakersIn(f), "", "");
            && Exec(chain, m).Some? && r.Some? && Exec(chain, m).value == r.value.orders
            && ChainStep(chain, m, r.value.orders)
            && Matches(f.resting, r.value.orders) && Matches(b.On(o.side), r.value.orders)
            && (forall id :: id in m.makers ==> id in Ids(b.On(o.side.Opposite())))
            && 0 <= f.left <= Base(o)
            && (f.left > 0 ==> f.partial.None? && Base(r.value.orders[o.id]) == f.left)
            && (m.makers == [] ==> r.value.orders == chain)
  {
    var resting := b.On(o.side.Opposite());
    var f := Matching.Match(resting, limit, account, Base(o));
    hide Matching.Match, Settlement.Fill, Uncrossed, SortedFor, Store;
    forall k | 0 <= k < |resting| ensures resting[k].id != o.id {
      assert resting[k].id in Ids(resting);
    }
    MatchInStep(resting, limit, account, Base(o), chain, o, "", "");
    MakersRest(resting, limit, account, Base(o));
    LeftBounds(resting, limit, account, Base(o));
    IdsOfLength(f.done);
    var s := MatchLoop(chain, o, MakersIn(f), "", "").value;
    MatchesFrame(b.On(o.side), chain, s.orders);
  }

  /** The engine processes a delivered order, the contract executes what is submitted for it, and the book
      again has exactly the chain's quantities. */
  lemma DeliverInStep(b: Book, chain: map<nat, ChainOrder>, o: ChainOrder, account: Account, price: int, now: int)
    requires Good(b) && BookMatches(b, chain)
    requires o.id in chain && chain[o.id] == o && o.id !in b.AllIds() && Base(o) > 0
    ensures var r := PlaceLimit(b, account, o.side, o.id, Base(o), price, now);
            match SubmissionOf(o.id, r)
            case None => BookMatches(r.book, chain)
            case Some(m) =>
              && m.taker == o.id && (forall id :: id in m.makers ==> id in Ids(b.On(o.side.Opposite())))
              && Exec(chain, m).Some? && BookMatches(r.book, Exec(chain, m).value)
                  && ChainStep(chain, m, Exec(chain, m).value)
  {
    hide Matching.Match, Good, Find, Insert, Matches, Exec, ChainStep, SubmissionOf, MakersIn;
    var r := PlaceLimit(b, account, o.side, o.id, Base(o), price, now);
    var limit := LimitOf(o.side, price);
    if r.error.None? {
      var f := Matching.Match(b.On(o.side.Opposite()), limit, account, Base(o));
      MatchOnChain(b, chain, o, limit, account);
      SubmissionNames(b, account, o.side, o.id, Base(o), price, now);
      var s := MatchLoop(chain, o, MakersIn(f), "", "").value;
      if f.left > 0 {
        var rested := Order(o.id, o.side, f.left, price, account, now);
        RestedMirrors(chain, o, s.orders, rested, Submission(o.id, MakersIn(f)));
        MatchesInsert(o.side, b.On(o.side), rested, s.orders);
      }
    } else {
      Refused(b, account, o.side, o.id, Base(o), price, now);
    }
  }

  lemma Refused(b: Book, account: Account, side: Side, id: OrderId, quantity: int, price: int, now: int)
    requires Good(b) && PlaceLimit(b, account, side, id, quantity, price, now).error.Some?
    ensures var r := PlaceLimit(b, account, side, id, quantity, price, now);
            r.book == b && SubmissionOf(id, r) == None
  {
  }

  lemma RestedMirrors(chain: map<nat, ChainOrder>, o: ChainOrder, after: map<nat, ChainOrder>, rested: Order,
                      m: Submission)
    requires o.id in chain && chain[o.id] == o && ChainStep(chain, m, after)
    requires rested.id == o.id && rested.side == o.side && Base(after[o.id]) == rested.quantity
    ensures Mirrors(rested, after)
  {
  }
}

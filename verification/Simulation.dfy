/** The engine decides fills, the contract recomputes them: the two stay in step on every resting order. */
module Simulation {
  import opened Orders
  import opened Matching
  import opened Books
  import opened Settlement
  import opened Fills
  import opened Ownership

  /** A match as the market submits it: the taker, then the makers in the order they were filled. */
  datatype Submission = Submission(taker: nat, makers: seq<nat>)

  function IdsOf(orders: seq<Order>): seq<nat> {
    if orders == [] then [] else [orders[0].id] + IdsOf(orders[1..])
  }

  /** The makers of a processed limit order: everything done or partly done but the taker itself. */
  function MakersOf(taker: nat, done: seq<Order>, partial: Option<Order>): seq<nat> {
    Others(taker, done) + (if partial.Some? && partial.value.id != taker then [partial.value.id] else [])
  }

  function Others(taker: nat, done: seq<Order>): seq<nat> {
    if done == [] then [] else (if done[0].id != taker then [done[0].id] else []) + Others(taker, done[1..])
  }

  function SubmissionOf(taker: nat, r: LimitResult): Option<Submission> {
    if r.done != [] || r.partial.Some? then Some(Submission(taker, MakersOf(taker, r.done, r.partial))) else None
  }

  // ---------- the correspondence ----------

  /** Each order has, on chain, its own type and its own quantity still to trade. */
  ghost predicate Matches(resting: seq<Order>, chain: map<nat, ChainOrder>) {
    forall k :: 0 <= k < |resting| ==> Mirrors(resting[k], chain)
  }

  ghost predicate Mirrors(o: Order, chain: map<nat, ChainOrder>) {
    o.id in chain && chain[o.id].id == o.id && chain[o.id].side == o.side && Base(chain[o.id]) == o.quantity
  }

  /** How many legs, from the first, serve the maker in full. */
  function FullLegs(orders: map<nat, ChainOrder>, taker: ChainOrder, makers: seq<nat>): nat
    decreases |makers|
  {
    if makers == [] || makers[0] !in orders then 0
    else
      match Settlement.Fill(taker, orders[makers[0]])
      case None => 0
      case Some(leg) => if leg.writesTaker then 1 + FullLegs(Store(orders, leg), leg.taker, makers[1..]) else 0
  }

  function MakersIn(f: Matching.Fill): seq<nat> {
    IdsOf(f.done) + (if f.partial.Some? then [f.partial.value.id] else [])
  }

  /** What the contract makes of a match: it runs through, serves exactly the done makers in full, and
      leaves the taker, the makers still resting and nobody else as the engine has them. */
  ghost predicate InStep(chain: map<nat, ChainOrder>, taker: ChainOrder, f: Matching.Fill, r: Option<Settled>) {
    && r.Some?
    && r.value.orders.Keys == chain.Keys
    && FullLegs(chain, taker, MakersIn(f)) == |f.done|
    && Matches(f.resting, r.value.orders)
    && r.value.taker.side == taker.side && r.value.taker.id == taker.id
    && (f.partial.None? ==> Base(r.value.taker) == f.left)
    && (f.done != [] && f.partial.None? && taker.id in chain ==> r.value.orders[taker.id] == r.value.taker)
    && (forall id :: id in chain && id != taker.id && id !in MakersIn(f) ==> r.value.orders[id] == chain[id])
    && (forall id :: id in chain ==> SameIdentity(chain[id], r.value.orders[id]))
  }

  lemma RestMirrors(resting: seq<Order>, chain: map<nat, ChainOrder>, id: nat, o: ChainOrder)
    requires resting != [] && Matches(resting, chain) && forall k :: 0 <= k < |resting| ==> resting[k].id != id
    ensures Matches(resting[1..], chain[id := o])
  {
    forall k | 0 <= k < |resting[1..]| ensures Mirrors(resting[1..][k], chain[id := o]) {
      assert Mirrors(resting[k + 1], chain);
    }
  }

  /** One match, engine and contract side by side. */
  lemma {:induction false} MatchInStep(resting: seq<Order>, limit: Limit, account: Account, quantity: nat,
                                       chain: map<nat, ChainOrder>, taker: ChainOrder, first: Token, second: Token)
    requires AllOn(taker.side.Opposite(), resting) && AllPositive(resting) && DistinctIds(resting)
    requires forall k :: 0 <= k < |resting| ==> resting[k].id != taker.id
    requires Matches(resting, chain) && taker.id in chain && SameIdentity(chain[taker.id], taker)
    requires Base(taker) == quantity
    ensures var f := Matching.Match(resting, limit, account, quantity);
            InStep(chain, taker, f, MatchLoop(chain, taker, MakersIn(f), first, second))
    decreases |resting|
  {
    hide InStep, Total;
    var f := Matching.Match(resting, limit, account, quantity);
    if quantity <= 0 || resting == [] || !limit.Accepts(resting[0].price) {
      NoneInStep(resting, chain, taker, first, second);
    } else {
      var head, rest := resting[0], resting[1..];
      assert Mirrors(head, chain);
      var maker := chain[head.id];
      FillFailsIffEmpty(taker, maker);
      FillShrinksOne(taker, maker);
      var leg := Settlement.Fill(taker, maker).value;
      LegKeepsIdentity(taker, maker);
      hide Settlement.Fill, MatchLoop, Store, Base;
      if quantity < head.quantity {
        assert MakersIn(f) == [head.id];
        PartInStep(resting, chain, taker, account, quantity, first, second);
      } else {
        var g := Matching.Match(rest, limit, account, quantity - head.quantity);
        assert MakersIn(f) == [head.id] + MakersIn(g);
        assert MakersIn(f)[1..] == MakersIn(g);
        var stored := chain[taker.id := leg.taker];
        RestMirrors(resting, chain, taker.id, leg.taker);
        MatchInStep(rest, limit, account, quantity - head.quantity, stored, leg.taker, first, second);
        FullInStep(resting, chain, taker, leg, f, g, first, second);
      }
    }
  }

  lemma NoneInStep(resting: seq<Order>, chain: map<nat, ChainOrder>, taker: ChainOrder, first: Token, second: Token)
    requires Matches(resting, chain) && taker.id in chain
    ensures var f := Matching.Fill.Fill([], None, 0, Base(taker), resting);
            InStep(chain, taker, f, MatchLoop(chain, taker, MakersIn(f), first, second))
  {
    assert MakersIn(Matching.Fill.Fill([], None, 0, Base(taker), resting)) == [];
  }

  lemma PartInStep(resting: seq<Order>, chain: map<nat, ChainOrder>, taker: ChainOrder, account: Account, quantity: nat,
                   first: Token, second: Token)
    requires resting != [] && resting[0].side == taker.side.Opposite() && DistinctIds(resting)
    requires resting[0].id != taker.id
    requires Matches(resting, chain) && taker.id in chain && SameIdentity(chain[taker.id], taker)
    requires 0 < Base(taker) == quantity < resting[0].quantity
    ensures var p := PartlyFilled(resting[0], account, quantity);
            var f := Matching.Fill.Fill([], Some(p), quantity, 0, [p] + resting[1..]);
            InStep(chain, taker, f, MatchLoop(chain, taker, MakersIn(f), first, second))
  {
    var head := resting[0];
    assert Mirrors(head, chain);
    var maker := chain[head.id];
    FillFailsIffEmpty(taker, maker);
    FillShrinksOne(taker, maker);
    LegKeepsIdentity(taker, maker);
    var leg := Settlement.Fill(taker, maker).value;
    hide Settlement.Fill;
    var stored := chain[head.id := leg.maker];
    var p := PartlyFilled(head, account, quantity);
    var f := Matching.Fill.Fill([], Some(p), quantity, 0, [p] + resting[1..]);
    assert MakersIn(f) == [head.id] && MakersIn(f)[1..] == [];
    assert MakersIn(f)[0] in chain && Store(chain, leg) == stored;
    assert MatchLoop(stored, leg.taker, [], first, second) == Some(Settled(stored, leg.taker, []));
    forall k | 0 <= k < |f.resting| ensures Mirrors(f.resting[k], stored) {
      if k > 0 {
        assert f.resting[k] == resting[k] && Mirrors(resting[k], chain) && resting[k].id != head.id;
      }
    }
  }

  lemma FullInStep(resting: seq<Order>, chain: map<nat, ChainOrder>, taker: ChainOrder, leg: Leg, f: Matching.Fill,
                   g: Matching.Fill,
                   first: Token, second: Token)
    requires resting != [] && Mirrors(resting[0], chain) && taker.id in chain && SameIdentity(chain[taker.id], taker)
    requires Settlement.Fill(taker, chain[resting[0].id]) == Some(leg) && leg.writesTaker
    requires SameIdentity(taker, leg.taker)
    requires f == g.After([resting[0]])
    requires MakersIn(f) == [resting[0].id] + MakersIn(g)
    requires InStep(chain[taker.id := leg.taker], leg.taker, g,
               MatchLoop(chain[taker.id := leg.taker], leg.taker, MakersIn(g), first, second))
    requires g.done == [] && g.partial.None? ==> MakersIn(g) == []
    ensures InStep(chain, taker, f, MatchLoop(chain, taker, MakersIn(f), first, second))
  {
    var stored := chain[taker.id := leg.taker];
    assert MakersIn(f)[1..] == MakersIn(g) && MakersIn(f)[0] == resting[0].id;
    assert Store(chain, leg) == stored;
    var s := MatchLoop(stored, leg.taker, MakersIn(g), first, second).value;
    var r := MatchLoop(chain, taker, MakersIn(f), first, second).value;
    assert r.orders == s.orders && r.taker == s.taker;
    forall id | id in chain && id != taker.id && id !in MakersIn(f) ensures r.orders[id] == chain[id] {
      assert id !in MakersIn(g);
    }
    forall id | id in chain ensures SameIdentity(chain[id], r.orders[id]) {
      assert SameIdentity(stored[id], r.orders[id]);
    }
  }
}

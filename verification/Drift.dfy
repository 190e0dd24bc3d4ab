/** The rounding drift of every stored order, over every run of the contract. */
module Drift {
  import opened Orders
  import opened Settlement
  import opened Fills
  import opened Ownership

  /** How an order began, and how often it has been filled and written back since. */
  datatype Origin = Origin(quote: nat, base: nat, fills: nat)

  type History = map<nat, Origin>

  function Filled(h: History, id: nat): History {
    if id in h then h[id := h[id].(fills := h[id].fills + 1)] else h
  }

  /** One more fill for the order each leg writes back. */
  function MatchHistory(orders: map<nat, ChainOrder>, taker: ChainOrder, makers: seq<nat>, h: History): History
    decreases |makers|
  {
    if makers == [] || makers[0] !in orders || Fill(taker, orders[makers[0]]).None? then h
    else
      var leg := Fill(taker, orders[makers[0]]).value;
      MatchHistory(Store(orders, leg), leg.taker, makers[1..], Filled(h, Touched(leg).id))
  }

  function ApplyHistory(c: Chain, tx: Tx, h: History): History {
    if Apply(c, tx).1.Reverted? then h
    else
      match tx
      case Create(caller, epoch, token, paid, requested, matchProvider, side) =>
        h[c.counter := if side == Sell then Origin(requested, paid, 0) else Origin(paid, requested, 0)]
      case Match(taker, makers) => if taker in c.orders then MatchHistory(c.orders, c.orders[taker], makers, h) else h
      case _ => h
  }

  function RunHistory(c: Chain, txs: seq<Tx>, h: History): History
    decreases |txs|
  {
    if txs == [] then h else RunHistory(Apply(c, txs[0]).0, txs[1..], ApplyHistory(c, txs[0], h))
  }

  ghost predicate Tracked(orders: map<nat, ChainOrder>, h: History) {
    forall id :: id in orders ==> id in h && WithinDrift(orders[id], h[id].quote, h[id].base, h[id].fills)
  }

  // ---------- one leg ----------

  /** The quote a maker of the taker's own type has left after a partial leg; the contract takes the two amounts
      the other way round. */
  function QuoteLeft(taker: ChainOrder, maker: ChainOrder): int {
    Quote(maker) - Base(taker)
  }

  /** What the contract rounds away there. */
  function Remainder(taker: ChainOrder, maker: ChainOrder): int
    requires Quote(maker) > 0
  {
    (Base(maker) * Base(taker)) % Quote(maker)
  }

  /** A leg between opposite types, or one that fills the maker, never hurts. A partial leg within one type needs
      what it rounds away to be covered by the rise the maker has had. */
  predicate Steady(taker: ChainOrder, maker: ChainOrder, origin: Origin) {
    Fill(taker, maker).Some? ==>
      || Fill(taker, maker).value.writesTaker || taker.side != maker.side
      || (0 < Base(maker) && Base(taker) < Quote(maker)
          && origin.quote * Remainder(taker, maker)
             <= QuoteLeft(taker, maker) * (Quote(maker) * origin.base - origin.quote * Base(maker)))
  }

  function Touched(leg: Leg): ChainOrder {
    if leg.writesTaker then leg.taker else leg.maker
  }

  /** In the full-fill branches the taker shrinks by what the maker still asks for, whatever the types. */
  lemma FullLegShrinks(taker: ChainOrder, maker: ChainOrder)
    requires Fill(taker, maker).Some? && Fill(taker, maker).value.writesTaker
    ensures Shrunk(taker, Fill(taker, maker).value.taker, if taker.side == Sell then maker.output else maker.input)
  {
    hide RuleOfThree;
  }

  lemma SameTypeLeg(taker: ChainOrder, maker: ChainOrder)
    requires taker.side == maker.side && Fill(taker, maker).Some? && !Fill(taker, maker).value.writesTaker
    ensures Base(taker) < Quote(maker) && RuleOfThree(Base(maker), Quote(maker), Base(taker)) <= Base(maker)
    ensures var after := Fill(taker, maker).value.maker;
            && Quote(after) == QuoteLeft(taker, maker)
            && Base(after) == Base(maker) - RuleOfThree(Base(maker), Quote(maker), Base(taker))
  {
    hide RuleOfThree;
  }

  lemma Minus(x: int, y: int, z: int)
    ensures x * (y - z) == x * y - z * x && (y - z) * x == x * y - z * x
  {
  }

  lemma Regrouped(x: int, y: int, z: int)
    ensures (x * y) * z == x * (y * z) == (x * z) * y
  {
  }

  /** Giving up the rounded-down share of the base for `t` of the quote, by exact division. */
  lemma ShareOf(q: nat, b: nat, t: nat)
    requires t < q && b > 0
    ensures var share := RuleOfThree(b, q, t);
            && share < b
            && (q - t) * b + (b * t) % q == q * (b - share)
  {
    var share, rest := b * t / q, (b * t) % q;
    assert b * t == share * q + rest;
    Minus(q, b, share);
    Minus(b, q, t);
    MulStrict(t, q, b);
    if share >= b {
      MulMono(b, share, q);
    }
  }

  /** The ratio falls below the original one exactly when what is rounded away outweighs the rise so far. */
  lemma RatioKept(q: nat, b: nat, q': nat, b': nat, r: nat, Q: nat, B: nat)
    requires q > 0 && q' * b + r == q * b'
    ensures Q * b' <= q' * B <==> Q * r <= q' * (q * B - Q * b)
  {
    Regrouped(Q, b', q);
    Regrouped(q', B, q);
    Regrouped(Q, q', b);
    Minus(q', q * B, Q * b);
    assert Q * (q' * b + r) == Q * (q' * b) + Q * r;
    assert q' * (Q * b) == Q * (q' * b) by {
      Regrouped(q', Q, b);
    }
    assert (Q * b') * q == Q * (q' * b) + Q * r;
    assert (q' * B) * q == q' * (q * B);
    if Q * b' <= q' * B {
      MulMono(Q * b', q' * B, q);
    } else {
      MulStrict(q' * B, Q * b', q);
    }
  }

  lemma SameTypeDriftIff(taker: ChainOrder, maker: ChainOrder, origin: Origin)
    requires taker.side == maker.side && Fill(taker, maker).Some? && !Fill(taker, maker).value.writesTaker
    requires WithinDrift(maker, origin.quote, origin.base, origin.fills)
    ensures WithinDrift(Fill(taker, maker).value.maker, origin.quote, origin.base, origin.fills + 1)
            <==> Steady(taker, maker, origin)
  {
    SameTypeLeg(taker, maker);
    var after := Fill(taker, maker).value.maker;
    var q, b, t := Quote(maker), Base(maker), Base(taker);
    hide Fill, RuleOfThree;
    if b > 0 {
      ShareOf(q, b, t);
      RatioKept(q, b, Quote(after), Base(after), (b * t) % q, origin.quote, origin.base);
      UpperKept(q, b, Quote(after), Base(after), origin);
    }
  }

  lemma UpperKept(q: nat, b: nat, q': nat, b': nat, origin: Origin)
    requires 0 < b <= origin.base && b' <= b && q' * b <= q * b'
    requires origin.fills == 0 ==> q == origin.quote && b == origin.base
    requires origin.fills > 0 ==> q * origin.base < origin.quote * b + origin.fills * origin.base
    ensures q' * origin.base < origin.quote * b' + (origin.fills + 1) * origin.base
  {
    DriftUpper(q, b, q', b', origin.quote, origin.base, origin.fills);
  }

  /** Whatever the types: the order a leg writes back is within its drift, one fill on, exactly when the leg is
      steady for it. */
  lemma LegKeepsDriftIff(taker: ChainOrder, maker: ChainOrder, origin: Origin)
    requires Fill(taker, maker).Some?
    requires var before := if Fill(taker, maker).value.writesTaker then taker else maker;
             WithinDrift(before, origin.quote, origin.base, origin.fills)
    ensures WithinDrift(Touched(Fill(taker, maker).value), origin.quote, origin.base, origin.fills + 1)
            <==> Steady(taker, maker, origin)
  {
    hide WithinDrift, RuleOfThree;
    var leg := Fill(taker, maker).value;
    if leg.writesTaker {
      FullLegShrinks(taker, maker);
      DriftStep(taker, leg.taker, if taker.side == Sell then maker.output else maker.input,
                origin.quote, origin.base, origin.fills);
    } else if taker.side != maker.side {
      FillShrinksOne(taker, maker);
      DriftStep(maker, leg.maker, Base(taker), origin.quote, origin.base, origin.fills);
    } else {
      SameTypeDriftIff(taker, maker, origin);
    }
  }

  /** An even share is steady for every maker, whatever its history. */
  lemma EvenIsSteady(taker: ChainOrder, maker: ChainOrder, origin: Origin)
    requires WithinDrift(maker, origin.quote, origin.base, origin.fills)
    requires 0 < Base(maker) && Base(taker) < Quote(maker) && Remainder(taker, maker) == 0
    ensures Steady(taker, maker, origin)
  {
    hide Fill, Remainder;
    NonNegative(QuoteLeft(taker, maker), Quote(maker) * origin.base - origin.quote * Base(maker));
  }

  // ---------- every run ----------

  /** Each leg of the match is steady, and none writes the taker as a maker of its own. */
  predicate SteadyMatch(orders: map<nat, ChainOrder>, taker: ChainOrder, makers: seq<nat>, h: History)
    decreases |makers|
  {
    if makers == [] || makers[0] !in orders || makers[0] !in h || Fill(taker, orders[makers[0]]).None? then true
    else
      var maker := orders[makers[0]];
      var leg := Fill(taker, maker).value;
      && (leg.writesTaker || (makers[0] != taker.id && Steady(taker, maker, h[makers[0]])))
      && SteadyMatch(Store(orders, leg), leg.taker, makers[1..], Filled(h, Touched(leg).id))
  }

  predicate SteadyTx(c: Chain, tx: Tx, h: History) {
    tx.Match? && tx.taker in c.orders ==> SteadyMatch(c.orders, c.orders[tx.taker], tx.makers, h)
  }

  predicate SteadyRun(c: Chain, txs: seq<Tx>, h: History)
    decreases |txs|
  {
    txs == [] || (SteadyTx(c, txs[0], h) && SteadyRun(Apply(c, txs[0]).0, txs[1..], ApplyHistory(c, txs[0], h)))
  }

  /** In particular a match between a taker and makers of the other type is steady. */
  lemma {:induction false} OpposedIsSteady(orders: map<nat, ChainOrder>, taker: ChainOrder, makers: seq<nat>,
                                           h: History)
    requires forall id :: id in orders ==> orders[id].id == id
    requires taker.id in orders && orders[taker.id].side == taker.side
    requires forall k :: 0 <= k < |makers| && makers[k] in orders ==> orders[makers[k]].side != taker.side
    ensures SteadyMatch(orders, taker, makers, h)
    decreases |makers|
  {
    if makers != [] && makers[0] in orders && Fill(taker, orders[makers[0]]).Some? {
      var leg := Fill(taker, orders[makers[0]]).value;
      LegKeepsIdentity(taker, orders[makers[0]]);
      var stored := Store(orders, leg);
      hide Fill, Steady;
      forall k | 0 <= k < |makers[1..]| && makers[1..][k] in stored
        ensures stored[makers[1..][k]].side != leg.taker.side
      {
        assert makers[1..][k] == makers[k + 1];
      }
      OpposedIsSteady(stored, leg.taker, makers[1..], Filled(h, Touched(leg).id));
      OpposedLegIsSteady(taker, orders[makers[0]]);
    }
  }

  lemma OpposedLegIsSteady(taker: ChainOrder, maker: ChainOrder)
    requires taker.side != maker.side
    ensures forall origin :: Steady(taker, maker, origin)
  {
  }

  lemma LegKeepsTracked(orders: map<nat, ChainOrder>, taker: ChainOrder, maker: ChainOrder, h: History)
    requires taker.id in orders && orders[taker.id] == taker && maker.id in orders && orders[maker.id] == maker
    requires Tracked(orders, h) && Fill(taker, maker).Some?
    requires var leg := Fill(taker, maker).value;
             leg.writesTaker || (maker.id != taker.id && maker.id in h && Steady(taker, maker, h[maker.id]))
    ensures var leg := Fill(taker, maker).value;
            var stored := Store(orders, leg);
            && stored.Keys == orders.Keys && taker.id in stored && stored[taker.id] == leg.taker
            && leg.taker.id == taker.id
            && (forall id :: id in orders && orders[id].id == id ==> stored[id].id == id)
            && Tracked(stored, Filled(h, Touched(leg).id))
  {
    var leg := Fill(taker, maker).value;
    LegKeepsIdentity(taker, maker);
    assert if leg.writesTaker then leg.maker == maker else leg.taker == taker;
    LegKeepsDriftIff(taker, maker, h[if leg.writesTaker then taker.id else maker.id]);
    hide Fill, WithinDrift;
    assert leg.writesTaker ==> Steady(taker, maker, h[taker.id]);
  }

  lemma {:induction false} MatchDrift(orders: map<nat, ChainOrder>, taker: ChainOrder, makers: seq<nat>, h: History,
                                      first: Token, second: Token)
    requires forall id :: id in orders ==> orders[id].id == id
    requires taker.id in orders && orders[taker.id] == taker && Tracked(orders, h)
    requires SteadyMatch(orders, taker, makers, h)
    requires MatchLoop(orders, taker, makers, first, second).Some?
    ensures Tracked(MatchLoop(orders, taker, makers, first, second).value.orders,
              MatchHistory(orders, taker, makers, h))
    decreases |makers|
  {
    if makers != [] {
      hide Fill, Store, Tracked, Steady;
      var leg := Fill(taker, orders[makers[0]]).value;
      TrackedHas(orders, h, makers[0]);
      LegKeepsTracked(orders, taker, orders[makers[0]], h);
      MatchDrift(Store(orders, leg), leg.taker, makers[1..], Filled(h, Touched(leg).id), first, second);
    }
  }

  lemma TrackedHas(orders: map<nat, ChainOrder>, h: History, id: nat)
    requires Tracked(orders, h) && id in orders
    ensures id in h
  {
  }

  lemma ApplyDrift(c: Chain, tx: Tx, h: History)
    requires Sound(c) && Tracked(c.orders, h) && SteadyTx(c, tx, h)
    ensures Tracked(Apply(c, tx).0.orders, ApplyHistory(c, tx, h))
  {
    if Apply(c, tx).1.Executed? {
      match tx
      case Create(caller, epoch, token, paid, requested, matchProvider, side) =>
      case Match(taker, makers) =>
        MatchDrift(c.orders, c.orders[taker], makers, h, c.first, c.second);
      case CancelSome(caller, epoch, ids) => CancelShape(c, caller, epoch, ids);
      case CancelEvery(caller, epoch) => CancelShape(c, caller, epoch, Live(c, caller));
      case Free(caller, epoch, ids) => RemoveLoopOnly(c, Present(c.orders, ids), caller, epoch, true);
    }
  }

  /** In every reachable state every stored order is within its drift: filled n times since it began at
      quote Q and base B, it asks at least its original ratio, less than n extra units dearer in all, and
      nothing once its base is used up. */
  lemma {:induction false} RunDrift(c: Chain, txs: seq<Tx>, h: History)
    requires Sound(c) && c.counter + |txs| < TWO_TO_THE_64 && Tracked(c.orders, h) && SteadyRun(c, txs, h)
    ensures Tracked(Run(c, txs).orders, RunHistory(c, txs, h))
    decreases |txs|
  {
    if txs != [] {
      hide Tracked, SteadyTx, Apply, ApplyHistory;
      ApplySound(c, txs[0]);
      ApplyDrift(c, txs[0], h);
      RunDrift(Apply(c, txs[0]).0, txs[1..], ApplyHistory(c, txs[0], h));
    }
  }

  /** From deployment on: every stored order is within the drift of its own history. */
  lemma DriftFromDeployment(first: Token, second: Token, txs: seq<Tx>)
    requires |txs| < TWO_TO_THE_64 && SteadyRun(Deployed(first, second), txs, map[])
    ensures Tracked(Run(Deployed(first, second), txs).orders, RunHistory(Deployed(first, second), txs, map[]))
  {
    DeployedSound(first, second);
    RunDrift(Deployed(first, second), txs, map[]);
  }
}

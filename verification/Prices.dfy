/** The engine compares rounded prices of the amounts orders were made with, the contract the exact amounts
    they have left: how far the two agree about a trade. */
module Prices {
  import opened Orders
  import Matching
  import opened Books
  import opened BookLaws
  import opened Settlement
  import opened Fills
  import opened Funding
  import opened Simulation
  import opened Lockstep
  import opened Pipeline
  import opened Origins
  import opened Endpoints

  lemma Rearranged(x: nat, y: nat, z: nat)
    ensures (x * y) * z == (x * z) * y
  {
  }

  /** A smaller quotient never rounds to a larger price. */
  lemma RoundingKeepsOrder(a: nat, b: nat, c: nat, d: nat)
    requires b > 0 && d > 0 && a * d <= c * b
    ensures RoundDiv(a, b) <= RoundDiv(c, d)
  {
    var r := RoundDiv(a, b);
    Quotient(2 * a + b, 2 * b);
    assert (2 * r * b) <= 2 * a + b;
    MulMono(2 * r * b, 2 * a + b, d);
    Distributed(2 * a, b, d);
    Distributed(2 * c, d, b);
    assert (2 * a) * d == 2 * (a * d) && (2 * c) * b == 2 * (c * b);
    assert (2 * r * b) * d == (r * (2 * d)) * b;
    Cancelled(r * (2 * d), 2 * c + d, b);
    QuotientAtLeast(2 * c + d, 2 * d, r);
  }

  lemma Thrice(x: nat, y: nat, z: nat)
    ensures (x * y) * z == x * (y * z)
  {
  }

  /** Scaled by `k`, a quotient is less than half a unit above its rounding, and not more than half below. */
  lemma RoundingScaled(n: nat, d: nat, k: nat)
    requires d > 0 && k > 0
    ensures var r := RoundDiv(n, d) * (d * k); 2 * (n * k) < 2 * r + d * k && 2 * r <= 2 * (n * k) + d * k
  {
    var r := RoundDiv(n, d);
    Quotient(2 * n + d, 2 * d);
    Thrice(2, r, d);
    var p := r * d;
    assert r * (2 * d) == 2 * p;
    assert 2 * n < 2 * p + d && 2 * p <= 2 * n + d;
    MulStrict(2 * n, 2 * p + d, k);
    MulMono(2 * p, 2 * n + d, k);
    Distributed(2 * p, d, k);
    Distributed(2 * n, d, k);
    Thrice(2, p, k);
    Thrice(2, n, k);
    Thrice(r, d, k);
  }

  /** Prices that round in order are in order but for less than one price unit. */
  lemma OrderUpToOneUnit(a: nat, b: nat, c: nat, d: nat)
    requires b > 0 && d > 0 && RoundDiv(a, b) <= RoundDiv(c, d)
    ensures a * d < c * b + b * d
  {
    RoundingScaled(a, b, d);
    RoundingScaled(c, d, b);
    MulMono(RoundDiv(a, b), RoundDiv(c, d), b * d);
    hide RoundDiv;
  }

  /** Two orders as they were made: the engine lets them trade exactly when their amounts cross or their prices
      round to the same. */
  lemma AcceptedIff(buyer: ChainOrder, seller: ChainOrder)
    requires buyer.side == Buy && seller.side == Sell && buyer.output > 0 && seller.input > 0
    ensures PriceOf(seller) <= PriceOf(buyer) <==> Crosses(buyer, seller) || PriceOf(seller) == PriceOf(buyer)
  {
    var ask, bid := seller.output * PRICE_UNIT, buyer.input * PRICE_UNIT;
    Rearranged(seller.output, PRICE_UNIT, buyer.output);
    Rearranged(buyer.input, PRICE_UNIT, seller.input);
    if Crosses(buyer, seller) {
      MulMono(seller.output * buyer.output, buyer.input * seller.input, PRICE_UNIT);
      RoundingKeepsOrder(ask, seller.input, bid, buyer.output);
    } else {
      MulMono(buyer.input * seller.input, seller.output * buyer.output, PRICE_UNIT);
      RoundingKeepsOrder(bid, buyer.output, ask, seller.input);
    }
  }

  /** For amounts whose product is within the price unit, rounding never lets through a pair that did not cross
      as it was made. */
  lemma AcceptedIsCrossing(buyer: ChainOrder, seller: ChainOrder)
    requires buyer.side == Buy && seller.side == Sell && buyer.output > 0 && seller.input > 0
    requires seller.input * buyer.output <= PRICE_UNIT
    ensures PriceOf(seller) <= PriceOf(buyer) <==> Crosses(buyer, seller)
  {
    AcceptedIff(buyer, seller);
    if PriceOf(seller) <= PriceOf(buyer) {
      var asked, offered := seller.output * buyer.output, buyer.input * seller.input;
      OrderUpToOneUnit(seller.output * PRICE_UNIT, seller.input, buyer.input * PRICE_UNIT, buyer.output);
      Rearranged(seller.output, PRICE_UNIT, buyer.output);
      Rearranged(buyer.input, PRICE_UNIT, seller.input);
      assert asked * PRICE_UNIT < offered * PRICE_UNIT + PRICE_UNIT == (offered + 1) * PRICE_UNIT;
      CancelledStrict(asked, offered + 1, PRICE_UNIT);
    }
  }

  /** Beyond that it can: here the seller asks for more than the buyer pays, and the engine matches them. */
  lemma AcceptedWithoutCrossing() returns (buyer: ChainOrder, seller: ChainOrder)
    ensures buyer.side == Buy && seller.side == Sell && buyer.output > 0 && seller.input > 0
    ensures PriceOf(seller) <= PriceOf(buyer) && !Crosses(buyer, seller)
  {
    var n := 10 * PRICE_UNIT;
    buyer := ChainOrder(0, "", "", n, n, 0, Buy);
    seller := ChainOrder(1, "", "", n, n + 1, 0, Sell);
    RoundDivIs(n * PRICE_UNIT, n, PRICE_UNIT);
    RoundDivIs((n + 1) * PRICE_UNIT, n, PRICE_UNIT);
  }

  lemma RoundDivIs(a: nat, b: nat, r: nat)
    requires b > 0 && r * b <= a && 2 * (a - r * b) < b
    ensures RoundDiv(a, b) == r
  {
    Quotient(2 * a + b, 2 * b);
    QuotientAtLeast(2 * a + b, 2 * b, r);
    if RoundDiv(a, b) > r {
      MulMono(r + 1, RoundDiv(a, b), 2 * b);
    }
  }

  // ---------- amounts that have drifted ----------

  /** How far an order's ratio has risen above the one it was made with, over both bases. */
  function Excess(o: ChainOrder, origin: ChainOrder): int {
    Quote(o) * Base(origin) - Quote(origin) * Base(o)
  }

  /** By how much two orders cross, over both bases. */
  function Margin(buyer: ChainOrder, seller: ChainOrder): int {
    Quote(buyer) * Base(seller) - Quote(seller) * Base(buyer)
  }

  lemma CrossesIffMargin(buyer: ChainOrder, seller: ChainOrder)
    requires buyer.side == Buy && seller.side == Sell
    ensures Crosses(buyer, seller) <==> Margin(buyer, seller) >= 0
  {
  }

  /** Filled n times, an order is at most n units of its quote dearer. */
  lemma ExcessBounds(o: ChainOrder, origin: ChainOrder, n: nat)
    requires FilledTimes(o, origin, n) && Base(origin) > 0
    ensures 0 <= Excess(o, origin) <= n * Base(origin)
    ensures n > 0 ==> Excess(o, origin) < n * Base(origin)
    ensures n <= Base(origin) - Base(o)
  {
  }

  lemma Four(x: int, y: int, z: int, w: int)
    ensures (x * y) * (z * w) == (x * z) * (y * w)
  {
    assert (x * y) * (z * w) == x * (y * (z * w));
    assert y * (z * w) == z * (y * w);
    assert x * (z * (y * w)) == (x * z) * (y * w);
  }

  lemma ScaleIff(x: int, k: int)
    requires k > 0
    ensures x >= 0 <==> x * k >= 0
  {
  }

  /** The margin left, scaled by the bases the orders were made with, is the margin they were made with, scaled
      by the bases left, plus what the buyer's ratio has gained and less what the seller's has. */
  lemma MarginLeft(q: int, b: int, Q: int, B: int, r: int, d: int, R: int, D: int)
    ensures (q * d - r * b) * (B * D)
              == (Q * D - R * B) * (b * d) + (q * B - Q * b) * (D * d) - (r * D - R * d) * (B * b)
  {
    Four(q, d, B, D);
    Four(r, b, D, B);
    Four(Q, D, b, d);
    Four(R, B, d, b);
    var gained, risen := q * B - Q * b, r * D - R * d;
    assert gained * (D * d) == (q * B) * (D * d) - (Q * b) * (D * d);
    assert risen * (B * b) == (r * D) * (B * b) - (R * d) * (B * b);
    assert (q * d - r * b) * (B * D) == (q * d) * (B * D) - (r * b) * (B * D);
    assert (Q * D - R * B) * (b * d) == (Q * D) * (b * d) - (R * B) * (b * d);
    assert B * D == D * B && b * d == d * b && D * d == d * D && B * b == b * B;
  }

  /** Whatever two orders have been through, they cross now exactly when the seller's rise is covered by the
      margin they were made with and the buyer's own rise. */
  lemma CrossesNowIff(buyer: ChainOrder, seller: ChainOrder, b: ChainOrder, s: ChainOrder)
    requires buyer.side == b.side == Buy && seller.side == s.side == Sell && Base(b) > 0 && Base(s) > 0
    ensures Crosses(buyer, seller) <==>
            Excess(seller, s) * (Base(b) * Base(buyer))
            <= Margin(b, s) * (Base(buyer) * Base(seller)) + Excess(buyer, b) * (Base(s) * Base(seller))
  {
    MarginLeft(Quote(buyer), Base(buyer), Quote(b), Base(b), Quote(seller), Base(seller), Quote(s), Base(s));
    CrossesIffMargin(buyer, seller);
    assert Base(b) * Base(s) > 0;
    ScaleIff(Margin(buyer, seller), Base(b) * Base(s));
  }

  /** A taker fresh from its creator against a maker seller: the seller's rise must be covered by the margin. */
  lemma BuyTakerCrossesIff(buyer: ChainOrder, seller: ChainOrder, s: ChainOrder)
    requires buyer.side == Buy && seller.side == s.side == Sell && Base(buyer) > 0 && Base(s) > 0
    ensures Crosses(buyer, seller) <==> Excess(seller, s) * Base(buyer) <= Margin(buyer, s) * Base(seller)
  {
    CrossesNowIff(buyer, seller, buyer, s);
    var room := Margin(buyer, s) * Base(seller) - Excess(seller, s) * Base(buyer);
    ScaleIff(room, Base(buyer));
    assert Excess(buyer, buyer) == 0;
    Rearrange(Excess(seller, s), Base(buyer), Base(buyer));
    Rearrange(Margin(buyer, s), Base(seller), Base(buyer));
    assert room * Base(buyer)
             == (Margin(buyer, s) * Base(seller)) * Base(buyer) - (Excess(seller, s) * Base(buyer)) * Base(buyer);
  }

  lemma Rearrange(x: int, y: int, z: int)
    ensures (x * y) * z == x * (z * y)
  {
  }

  /** And against a maker buyer, whose rise only helps. */
  lemma SellTakerCrossesIff(buyer: ChainOrder, seller: ChainOrder, b: ChainOrder)
    requires buyer.side == b.side == Buy && seller.side == Sell && Base(b) > 0 && Base(seller) > 0
    ensures Crosses(buyer, seller) <==> 0 <= Margin(b, seller) * Base(buyer) + Excess(buyer, b) * Base(seller)
  {
    CrossesNowIff(buyer, seller, b, seller);
    var room := Margin(b, seller) * Base(buyer) + Excess(buyer, b) * Base(seller);
    ScaleIff(room, Base(seller));
    assert Excess(seller, seller) == 0;
    Rearrange(Margin(b, seller), Base(buyer), Base(seller));
    Rearrange(Excess(buyer, b), Base(seller), Base(seller));
    assert Margin(b, seller) * (Base(buyer) * Base(seller)) == (Margin(b, seller) * Base(buyer)) * Base(seller);
    assert room * Base(seller)
        == (Margin(b, seller) * Base(buyer)) * Base(seller) + (Excess(buyer, b) * Base(seller)) * Base(seller);
  }

  /** What crosses a seller now crossed it as it was made: a seller only gets dearer. */
  lemma CrossedThen(buyer: ChainOrder, seller: ChainOrder, s: ChainOrder)
    requires buyer.side == Buy && seller.side == s.side == Sell && Base(buyer) > 0 && Base(s) > 0 && Base(seller) > 0
    requires Drifted(seller, s) && Crosses(buyer, seller)
    ensures Crosses(buyer, s)
  {
    var n: nat :| FilledTimes(seller, s, n);
    ExcessBounds(seller, s, n);
    BuyTakerCrossesIff(buyer, seller, s);
    CrossesIffMargin(buyer, s);
    NonNegative(Excess(seller, s), Base(buyer));
    ScaleIff(Margin(buyer, s), Base(seller));
  }

  /** What crossed a buyer as it was made crosses it now: a buyer only bids more. */
  lemma CrossesStill(buyer: ChainOrder, seller: ChainOrder, b: ChainOrder)
    requires buyer.side == b.side == Buy && seller.side == Sell && Base(b) > 0 && Base(seller) > 0
    requires Drifted(buyer, b) && Crosses(b, seller)
    ensures Crosses(buyer, seller)
  {
    var n: nat :| FilledTimes(buyer, b, n);
    ExcessBounds(buyer, b, n);
    SellTakerCrossesIff(buyer, seller, b);
    CrossesIffMargin(b, seller);
    NonNegative(Excess(buyer, b), Base(seller));
    NonNegative(Margin(b, seller), Base(buyer));
  }

  /** A margin of one unit of quote per fill, over what is left of the seller, always suffices. */
  lemma MarginSuffices(buyer: ChainOrder, seller: ChainOrder, s: ChainOrder, n: nat)
    requires buyer.side == Buy && seller.side == s.side == Sell && Base(buyer) > 0 && Base(s) > 0
    requires FilledTimes(seller, s, n)
    requires (n * Base(s)) * Base(buyer) <= Margin(buyer, s) * Base(seller)
    ensures Crosses(buyer, seller)
  {
    ExcessBounds(seller, s, n);
    BuyTakerCrossesIff(buyer, seller, s);
    MulMono(Excess(seller, s), n * Base(s), Base(buyer));
  }

  // ---------- in the pipeline ----------

  /** Whether two orders of opposite types cross, whichever of them is the taker. */
  predicate Cross(one: ChainOrder, two: ChainOrder) {
    if one.side == Buy then Crosses(one, two) else Crosses(two, one)
  }

  /** Whether the rise of a maker is covered by the margin between it, as it was made, and a fresh taker. */
  predicate Covered(taker: ChainOrder, maker: ChainOrder, origin: ChainOrder) {
    if taker.side == Buy then Excess(maker, origin) * Base(taker) <= Margin(taker, origin) * Base(maker)
    else 0 <= Margin(origin, taker) * Base(maker) + Excess(maker, origin) * Base(taker)
  }

  /** In every reachable state, for the next order to be delivered and each maker resting on the other side:
      the engine accepts the maker exactly when the two crossed as they were made or their prices round to the
      same; what is left of the maker crosses exactly when its rise is covered. A maker that sells may have
      stopped crossing and never starts; a maker that buys may have started and never stops. */
  lemma AcceptedAndCrossing(actions: seq<Action>, s: System, k: nat)
    requires Reaches(INITIAL, actions, s) && s.created != [] && Base(s.created[0]) > 0
    requires k < |s.book.On(s.created[0].side.Opposite())|
    ensures var o := s.created[0];
            var maker := s.book.On(o.side.Opposite())[k];
            && maker.id in s.made && InSync(s) && maker.id in SettledChain(s) && Base(s.made[maker.id]) > 0
            && var origin, left := s.made[maker.id], SettledChain(s)[maker.id];
               && (LimitOf(o.side, PriceOf(o)).Accepts(maker.price)
                   <==> Cross(o, origin) || PriceOf(o) == PriceOf(origin))
               && (Cross(o, left) <==> Covered(o, left, origin))
               && (if o.side == Buy then Cross(o, left) ==> Cross(o, origin) else Cross(o, origin) ==> Cross(o, left))
  {
    var o := s.created[0];
    var side := o.side.Opposite();
    PriceIsOfOrigin(actions, s, side, k);
    RunKept(INITIAL, actions, s);
    hide Reaches, ExecAll, PriceOf, Cross, Covered, SortedFor, DistinctIds, Uncrossed, Ids;
    var maker := s.book.On(side)[k];
    assert maker.quantity > 0;
    PairIff(o, SettledChain(s)[maker.id], s.made[maker.id]);
  }

  lemma PairIff(o: ChainOrder, left: ChainOrder, origin: ChainOrder)
    requires o.side != origin.side == left.side && Base(o) > 0 && Base(origin) > 0 && Base(left) > 0
    requires Drifted(left, origin)
    ensures LimitOf(o.side, PriceOf(o)).Accepts(PriceOf(origin)) <==> Cross(o, origin) || PriceOf(o) == PriceOf(origin)
    ensures Cross(o, left) <==> Covered(o, left, origin)
    ensures if o.side == Buy then Cross(o, left) ==> Cross(o, origin) else Cross(o, origin) ==> Cross(o, left)
  {
    hide PriceOf, Excess, Margin, Crosses, Drifted;
    if o.side == Buy {
      AcceptedIff(o, origin);
      BuyTakerCrossesIff(o, left, origin);
      if Crosses(o, left) { CrossedThen(o, left, origin); }
    } else {
      AcceptedIff(origin, o);
      SellTakerCrossesIff(left, o, origin);
      if Crosses(origin, o) { CrossesStill(left, o, origin); }
    }
  }

  // ---------- a whole batch ----------

  lemma {:induction false} OfferedIsTotal(orders: seq<Order>, chain: map<nat, ChainOrder>)
    requires Matches(orders, chain) && AllOn(Sell, orders)
    ensures forall k :: 0 <= k < |IdsOf(orders)| ==> IdsOf(orders)[k] in chain
    ensures Offered(chain, IdsOf(orders)) == Total(orders)
  {
    if orders != [] {
      assert Mirrors(orders[0], chain);
      forall k | 0 <= k < |orders[1..]| ensures Mirrors(orders[1..][k], chain) {
        assert Mirrors(orders[k + 1], chain);
      }
      OfferedIsTotal(orders[1..], chain);
      assert IdsOf(orders)[1..] == IdsOf(orders[1..]);
    }
  }

  /** All makers of a match but the last are filled, and together offer no more than the taker wants. */
  lemma MakersButLast(resting: seq<Order>, limit: Limit, account: Account, quantity: int, chain: map<nat, ChainOrder>)
    requires AllPositive(resting) && AllOn(Sell, resting) && Matches(resting, chain) && quantity >= 0
    ensures var ids := MakersIn(Matching.Match(resting, limit, account, quantity));
            && (forall k :: 0 <= k < |ids| ==> ids[k] in chain)
            && (ids != [] ==> Offered(chain, ids[..|ids| - 1]) <= quantity)
  {
    hide Matching.Match, Offered, IdsOf, Total;
    var f := Matching.Match(resting, limit, account, quantity);
    Matching.MatchTakesPrefix(resting, limit, account, quantity);
    Matching.MatchConserves(resting, limit, account, quantity);
    Matching.MatchTradesMaximum(resting, limit, account, quantity);
    forall k | 0 <= k < |f.done| ensures Mirrors(f.done[k], chain) && f.done[k].side == Sell && f.done[k].quantity > 0 {
      assert f.done[k] == resting[k] && Mirrors(resting[k], chain);
    }
    OfferedIsTotal(f.done, chain);
    if f.partial.Some? {
      assert Mirrors(resting[|f.done|], chain);
      assert MakersIn(f)[..|MakersIn(f)| - 1] == IdsOf(f.done);
    } else {
      IdsOfLength(f.done);
      assert MakersIn(f) == IdsOf(f.done);
      if f.done != [] { AllButLast(f.done, chain); }
    }
  }

  lemma AllButLast(orders: seq<Order>, chain: map<nat, ChainOrder>)
    requires orders != [] && AllPositive(orders) && Matches(orders, chain) && AllOn(Sell, orders)
    ensures var ids := IdsOf(orders);
            && |ids| == |orders| && (forall k :: 0 <= k < |ids| ==> ids[k] in chain)
            && Offered(chain, ids[..|ids| - 1]) <= Total(orders)
  {
    hide Total, Offered, IdsOf;
    var but, last := orders[..|orders| - 1], orders[|orders| - 1];
    assert orders == but + [last];
    IdsOfSnoc(but, last);
    IdsOfLength(but);
    OfferedIsTotal(orders, chain);
    assert IdsOf(orders)[..|IdsOf(orders)| - 1] == IdsOf(but);
    forall k | 0 <= k < |but| ensures Mirrors(but[k], chain) && but[k].side == Sell {
      assert but[k] == orders[k] && Mirrors(orders[k], chain);
    }
    OfferedIsTotal(but, chain);
    TotalSnoc(but, last);
  }

  /** The makers a buyer meets make a batch the chain can serve, and a crossing one when all are covered. */
  lemma MatchedBatch(b: Book, settled: map<nat, ChainOrder>, made: map<nat, ChainOrder>, o: ChainOrder,
                     makers: seq<nat>, first: Token, second: Token)
    requires Good(b) && BookMatches(b, settled) && DriftedBook(b, settled, made) && PricedBook(b, made)
    requires o.side == Buy && Base(o) > 0 && o.id !in b.AllIds() && o.id in settled && settled[o.id] == o
    requires makers == MakersIn(Matching.Match(b.asks, LimitOf(Buy, PriceOf(o)), o.creator, Base(o)))
    ensures var r := MatchLoop(settled, o, makers, first, second);
            && r.Some? && (forall id :: id in makers ==> id in settled && id in made)
            && (CrossingBatch(settled, o, makers) <==> forall id :: id in makers ==> Covered(o, settled[id], made[id]))
            && (CrossingBatch(settled, o, makers) ==> Payouts(r.value.transfers, 0) <= o.input)
  {
    var limit := LimitOf(Buy, PriceOf(o));
    MatchOnChain(b, settled, o, limit, o.creator);
    MakersButLast(b.asks, limit, o.creator, Base(o), settled);
    hide Matching.Match, PriceOf, MatchLoop, Exec, CrossingBatch, Covered, DriftedBook, PricedBook;
    TokensMakeNoDifference(settled, o, makers, first, second);
    BatchIff(b, settled, made, o, makers);
    if CrossingBatch(settled, o, makers) {
      BatchFunded(settled, o, makers, first, second);
    }
  }

  /** The batch a market submits for a buyer is paid out of the buyer's own input whenever every maker's rise is
      covered; and that is exactly when every maker of the batch crosses the buyer's limit on chain. */
  lemma SubmittedBatchFunded(actions: seq<Action>, s: System, now: int, first: Token, second: Token)
    requires Reaches(INITIAL, actions, s) && s.created != [] && Base(s.created[0]) > 0 && s.created[0].side == Buy
    ensures Good(s.book) && InSync(s)
    ensures var o, settled := s.created[0], SettledChain(s);
            var m := SubmissionOf(o.id, PlaceLimit(s.book, o.creator, o.side, o.id, Base(o), PriceOf(o), now));
            m.Some? ==>
              var r := MatchLoop(settled, o, m.value.makers, first, second);
              && r.Some? && (forall id :: id in m.value.makers ==> id in settled && id in s.made)
              && (CrossingBatch(settled, o, m.value.makers)
                  <==> forall id :: id in m.value.makers ==> Covered(o, settled[id], s.made[id]))
              && (CrossingBatch(settled, o, m.value.makers) ==> Payouts(r.value.transfers, 0) <= o.input)
  {
    RunKept(INITIAL, actions, s);
    hide PlaceLimit, SubmissionOf, PriceOf, MatchLoop, CrossingBatch, Covered, DriftedBook, PricedBook, MakersIn,
        Matching.Match, Good, Reaches;
    var o, settled := s.created[0], SettledChain(s);
    var r := PlaceLimit(s.book, o.creator, o.side, o.id, Base(o), PriceOf(o), now);
    if SubmissionOf(o.id, r).Some? {
      if r.error.Some? { Refused(s.book, o.creator, o.side, o.id, Base(o), PriceOf(o), now); }
      SubmissionNames(s.book, o.creator, o.side, o.id, Base(o), PriceOf(o), now);
      MatchedBatch(s.book, settled, s.made, o, SubmissionOf(o.id, r).value.makers, first, second);
    }
  }

  lemma BatchIff(b: Book, settled: map<nat, ChainOrder>, made: map<nat, ChainOrder>, o: ChainOrder, makers: seq<nat>)
    requires Good(b) && BookMatches(b, settled) && DriftedBook(b, settled, made) && PricedBook(b, made)
    requires o.side == Buy && Base(o) > 0 && o.id !in b.AllIds()
    requires forall id :: id in makers ==> id in Ids(b.asks)
    requires forall k :: 0 <= k < |makers| ==> makers[k] in settled
    requires makers != [] ==> Offered(settled, makers[..|makers| - 1]) <= o.output
    ensures forall id :: id in makers ==> id in settled && id in made
    ensures CrossingBatch(settled, o, makers) <==> forall id :: id in makers ==> Covered(o, settled[id], made[id])
  {
    hide Offered, Covered, Crosses;
    forall id | id in makers
      ensures id in settled && id in made && (Crosses(o, settled[id]) <==> Covered(o, settled[id], made[id]))
    {
      CoveredIff(b, settled, made, o, id);
    }
    if CrossingBatch(settled, o, makers) {
      forall id | id in makers ensures Covered(o, settled[id], made[id]) {
        var i :| 0 <= i < |makers| && makers[i] == id;
      }
    }
  }

  lemma CoveredIff(b: Book, settled: map<nat, ChainOrder>, made: map<nat, ChainOrder>, o: ChainOrder, id: nat)
    requires Good(b) && BookMatches(b, settled) && DriftedBook(b, settled, made) && PricedBook(b, made)
    requires o.side == Buy && Base(o) > 0 && id in Ids(b.asks)
    ensures id in settled && id in made && (Crosses(o, settled[id]) <==> Covered(o, settled[id], made[id]))
  {
    hide PriceOf, Excess, Margin, Crosses;
    var k :| 0 <= k < |b.asks| && b.asks[k].id == id;
    EntryOf(b, Sell, k);
    assert Mirrors(b.asks[k], settled) && Priced(id, b.asks[k].price, b.asks[k].side, made);
    BuyTakerCrossesIff(o, settled[id], made[id]);
  }
}

/** When the tokens a leg takes from an order cover the tokens it pays out for it. */
module Funding {
  import opened Orders
  import opened Settlement
  import opened Fills

  lemma QuotientBound(n: nat, d: nat, k: nat)
    requires d > 0
    ensures k <= n / d <==> k * d <= n
  {
    if k * d <= n {
      QuotientAtLeast(n, d, k);
    } else {
      Quotient(n, d);
      CancelledStrict(n / d, k, d);
    }
  }

  /** The maker gives the buyer's price or a better one. */
  predicate Crosses(taker: ChainOrder, maker: ChainOrder) {
    maker.output * taker.output <= taker.input * maker.input
  }

  /** A buyer's full fill takes from its escrow at least what the maker is paid exactly when prices cross. */
  lemma FullFillFunded(taker: ChainOrder, maker: ChainOrder)
    requires taker.side == Buy && taker.output >= maker.input && taker.output > 0
    ensures var leg := Fill(taker, maker);
            && leg.Some?
            && (leg.value.toMaker <= taker.input - leg.value.taker.input <==> Crosses(taker, maker))
  {
    FillFailsIffEmpty(taker, maker);
    QuotientBound(taker.input * maker.input, taker.output, maker.output);
  }

  /** A buyer served by a larger maker pays out of what it has left whenever prices cross. */
  lemma PartFillFunded(taker: ChainOrder, maker: ChainOrder)
    requires taker.side == Buy && taker.output < maker.input && Crosses(taker, maker)
    ensures var leg := Fill(taker, maker);
            leg.Some? && leg.value.toMaker <= taker.input && leg.value.toTaker == taker.output
            && leg.value.toMaker == maker.output - leg.value.maker.output
            && leg.value.toTaker == maker.input - leg.value.maker.input
  {
    FillFailsIffEmpty(taker, maker);
    QuotientAtMost(maker.output * taker.output, maker.input, taker.input);
  }

  /** The limit ratio of what a buyer has left never falls, so a price that crossed keeps crossing. */
  lemma CrossingPersists(taker: ChainOrder, filled: ChainOrder, other: ChainOrder)
    requires taker.side == Buy && taker.output >= filled.input && taker.output > 0
    requires Crosses(taker, other)
    ensures var leg := Fill(taker, filled); leg.Some? && Crosses(leg.value.taker, other)
  {
    FillFailsIffEmpty(taker, filled);
    var after := Fill(taker, filled).value.taker;
    ShrinkRoundsUp(taker.input, taker.output, filled.input);
    CrossLower(other.output, other.input, taker.input, taker.output, after.input, after.output);
  }

  lemma CrossLower(mo: nat, mi: nat, ti: nat, to: nat, ti': nat, to': nat)
    requires to > 0 && mo * to <= ti * mi && ti * to' <= ti' * to
    ensures mo * to' <= ti' * mi
  {
    MulMono(mo * to, ti * mi, to');
    MulMono(ti * to', ti' * to, mi);
    assert (mo * to') * to == (mo * to) * to';
    assert (ti * mi) * to' == (ti * to') * mi;
    assert (ti' * to) * mi == (ti' * mi) * to;
    Cancelled(mo * to', ti' * mi, to);
  }

  /** A seller served by a larger maker is paid no more than the maker's escrow gives up exactly when
      prices cross; the maker receives just what its demand drops by. */
  lemma SellerPartFunded(taker: ChainOrder, maker: ChainOrder)
    requires taker.side == Sell && taker.input < maker.output
    ensures var leg := Fill(taker, maker);
            && leg.Some?
            && (leg.value.toTaker <= maker.input - leg.value.maker.input
                <==> taker.output * maker.output <= maker.input * taker.input)
            && leg.value.toMaker == maker.output - leg.value.maker.output
  {
    FillFailsIffEmpty(taker, maker);
    QuotientBound(maker.input * taker.input, maker.output, taker.output);
  }

  // ---------- a whole batch ----------

  /** What makers are paid and what the taker is given: transfers come in pairs, maker first. */
  function Payouts(transfers: seq<Transfer>, start: nat): nat
    decreases if start < |transfers| then |transfers| - start else 0
  {
    if start >= |transfers| then 0 else transfers[start].amount + Payouts(transfers, start + 2)
  }

  lemma {:induction false} PayoutsShift(head: seq<Transfer>, transfers: seq<Transfer>, start: nat)
    requires |head| == 2
    ensures Payouts(head + transfers, start + 2) == Payouts(transfers, start)
    decreases if start < |transfers| then |transfers| - start else 0
  {
    if start < |transfers| {
      assert (head + transfers)[start + 2] == transfers[start];
      PayoutsShift(head, transfers, start + 2);
    }
  }

  function Offered(orders: map<nat, ChainOrder>, makers: seq<nat>): nat
    requires forall i :: 0 <= i < |makers| ==> makers[i] in orders
  {
    if makers == [] then 0 else orders[makers[0]].input + Offered(orders, makers[1..])
  }

  ghost predicate CrossingBatch(orders: map<nat, ChainOrder>, taker: ChainOrder, makers: seq<nat>) {
    && taker.side == Buy && taker.id !in makers
    && (forall i :: 0 <= i < |makers| ==> makers[i] in orders && Crosses(taker, orders[makers[i]]))
    && (makers != [] ==> Offered(orders, makers[..|makers| - 1]) <= taker.output)
  }

  lemma {:induction false} OfferedStored(orders: map<nat, ChainOrder>, id: nat, o: ChainOrder, makers: seq<nat>)
    requires id !in makers && forall i :: 0 <= i < |makers| ==> makers[i] in orders
    ensures Offered(orders[id := o], makers) == Offered(orders, makers)
  {
    if makers != [] {
      assert makers[0] != id && id !in makers[1..];
      OfferedStored(orders, id, o, makers[1..]);
    }
  }

  /** Serving a buyer from makers that all cross its limit, of which only the last may be larger than what
      is left to buy: all that the makers are paid comes out of the buyer's escrow, and the buyer gets
      everything offered up to what it asked for. */
  lemma {:induction false} BatchFunded(orders: map<nat, ChainOrder>, taker: ChainOrder, makers: seq<nat>, first: Token,
                                       second: Token)
    requires CrossingBatch(orders, taker, makers)
    requires MatchLoop(orders, taker, makers, first, second).Some?
    ensures var s := MatchLoop(orders, taker, makers, first, second).value;
            && Payouts(s.transfers, 0) <= taker.input
            && Payouts(s.transfers, 1)
                == (if Offered(orders, makers) <= taker.output then Offered(orders, makers) else taker.output)
    decreases |makers|
  {
    if makers != [] {
      var maker, rest := orders[makers[0]], makers[1..];
      var leg := Fill(taker, maker).value;
      var tail := MatchLoop(Store(orders, leg), leg.taker, rest, first, second).value;
      PayoutsOfLeg(leg, first, second, tail.transfers);
      if taker.output >= maker.input {
        FullFillFunded(taker, maker);
        BatchGoesOn(orders, taker, makers, leg);
        hide CrossingBatch, Offered, LegTransfers, Store, Payouts;
        BatchFunded(Store(orders, leg), leg.taker, rest, first, second);
      } else {
        if |makers| > 1 { AtLeastFirst(orders, makers); }
        PartFillFunded(taker, maker);
      }
    }
  }

  lemma PayoutsOfLeg(leg: Leg, first: Token, second: Token, transfers: seq<Transfer>)
    ensures var all := LegTransfers(leg, first, second) + transfers;
            && Payouts(all, 0) == leg.toMaker + Payouts(transfers, 0)
            && Payouts(all, 1) == leg.toTaker + Payouts(transfers, 1)
  {
    PayoutsShift(LegTransfers(leg, first, second), transfers, 0);
    PayoutsShift(LegTransfers(leg, first, second), transfers, 1);
  }

  /** After a full fill the rest is a crossing batch of what is left of the taker. */
  lemma BatchGoesOn(orders: map<nat, ChainOrder>, taker: ChainOrder, makers: seq<nat>, leg: Leg)
    requires CrossingBatch(orders, taker, makers) && makers != [] && Fill(taker, orders[makers[0]]) == Some(leg)
    requires 0 < taker.output && orders[makers[0]].input <= taker.output
    ensures CrossingBatch(Store(orders, leg), leg.taker, makers[1..])
    ensures Offered(orders, makers) == orders[makers[0]].input + Offered(Store(orders, leg), makers[1..])
  {
    var maker, rest := orders[makers[0]], makers[1..];
    forall i | 0 <= i < |rest| ensures rest[i] in orders && Crosses(leg.taker, orders[rest[i]]) {
      assert rest[i] == makers[i + 1];
      CrossingPersists(taker, maker, orders[rest[i]]);
    }
    assert Store(orders, leg) == orders[taker.id := leg.taker];
    hide Crosses, Fill;
    if rest != [] {
      assert makers[..|makers| - 1] == [makers[0]] + rest[..|rest| - 1];
      OfferedStored(orders, taker.id, leg.taker, rest[..|rest| - 1]);
    }
    OfferedStored(orders, taker.id, leg.taker, rest);
  }

  lemma AtLeastFirst(orders: map<nat, ChainOrder>, makers: seq<nat>)
    requires |makers| > 1 && forall i :: 0 <= i < |makers| ==> makers[i] in orders
    ensures Offered(orders, makers[..|makers| - 1]) >= orders[makers[0]].input
  {
    assert makers[..|makers| - 1][0] == makers[0];
  }
}

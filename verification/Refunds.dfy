/** What a match leaves of the makers it fills: they stay stored as they were, and can be cancelled again. */
module Refunds {
  import opened Orders
  import opened Settlement
  import opened Ownership
  import opened Removals

  /** Each time the match comes to the maker, it serves it in full. */
  predicate OnlyFilled(orders: map<nat, ChainOrder>, taker: ChainOrder, makers: seq<nat>, id: nat)
    decreases |makers|
  {
    if makers == [] || makers[0] !in orders || Fill(taker, orders[makers[0]]).None? then true
    else
      var leg := Fill(taker, orders[makers[0]]).value;
      (makers[0] == id ==> leg.writesTaker) && OnlyFilled(Store(orders, leg), leg.taker, makers[1..], id)
  }

  lemma {:induction false} FilledStaysStored(orders: map<nat, ChainOrder>, taker: ChainOrder, makers: seq<nat>, id: nat,
                                             first: Token, second: Token)
    requires forall i :: i in orders ==> orders[i].id == i
    requires id in orders && id != taker.id && OnlyFilled(orders, taker, makers, id)
    requires MatchLoop(orders, taker, makers, first, second).Some?
    ensures var after := MatchLoop(orders, taker, makers, first, second).value.orders;
            id in after && after[id] == orders[id]
    decreases |makers|
  {
    if makers != [] {
      var leg := Fill(taker, orders[makers[0]]).value;
      LegKeepsIdentity(taker, orders[makers[0]]);
      hide Fill;
      FilledStaysStored(Store(orders, leg), leg.taker, makers[1..], id, first, second);
    }
  }

  /** An executed match pays each maker it fills in the token it asked for and leaves it stored with all it put in.
      A cancel of it by its creator then goes through if the penalty fits and the balance covers it, and pays the
      creator the whole deposit less the penalty, on top of what the match paid. */
  lemma FilledIsRefundedAgain(c: Chain, taker: nat, makers: seq<nat>, k: nat, epoch: nat)
    requires Named(c) && MatchOrders(c, taker, makers).1.Executed? && k < |makers| && makers[k] != taker
    requires OnlyFilled(c.orders, c.orders[taker], makers, makers[k])
    ensures makers[k] in c.orders
    ensures var o, (after, r) := c.orders[makers[k]], MatchOrders(c, taker, makers);
            var refund := o.input - Penalty(o, epoch);
            && |r.transfers| == 2 * |makers| && r.transfers[2 * k].to == o.creator
            && o.id in after.orders && after.orders[o.id] == o
            && (o.id in Live(c, o.creator) ==>
                  var (last, cancelled) := CancelOrders(after, o.creator, epoch, [o.id]);
                  && (cancelled.Executed? <==> 0 <= refund <= BalanceOf(after.balance, RefundToken(c, o)))
                  && (cancelled.Executed? ==>
                        && |cancelled.transfers| == 1
                        && cancelled.transfers[0] == Transfer(o.creator, RefundToken(c, o), refund)
                        && o.id !in last.orders))
  {
    hide *;
    FilledMatch(c, taker, makers, k);
    var o, after := c.orders[makers[k]], MatchOrders(c, taker, makers).0;
    if o.id in Live(c, o.creator) {
      CancelPays(after, o.id, epoch);
      SameRefund(c, after, o);
    }
  }

  /** The match pays the maker and leaves it stored and listed as it was. */
  lemma FilledMatch(c: Chain, taker: nat, makers: seq<nat>, k: nat)
    requires Named(c) && MatchOrders(c, taker, makers).1.Executed? && k < |makers| && makers[k] != taker
    requires OnlyFilled(c.orders, c.orders[taker], makers, makers[k])
    ensures makers[k] in c.orders && c.orders[makers[k]].id == makers[k]
    ensures var o, (after, r) := c.orders[makers[k]], MatchOrders(c, taker, makers);
            && |r.transfers| == 2 * |makers| && r.transfers[2 * k].to == o.creator
            && o.id in after.orders && after.orders[o.id] == o && after.first == c.first && after.second == c.second
            && Live(after, o.creator) == Live(c, o.creator)
  {
    MatchKeepsOrders(c.orders, c.orders[taker], makers, c.first, c.second);
    hide OnlyFilled, MatchLoop, Pay, Present;
    MatchPays(c.orders, c.orders[taker], makers, c.first, c.second, k);
    FilledStaysStored(c.orders, c.orders[taker], makers, makers[k], c.first, c.second);
    var o, after := c.orders[makers[k]], MatchOrders(c, taker, makers).0;
    PresentSame(c.orders, after.orders, Settlement.Indexed(c, o.creator));
  }

  /** A cancel of one of the caller's own orders goes through exactly when the penalty fits and the balance covers
      what is left of the deposit, and pays just that. */
  lemma CancelPays(c: Chain, id: nat, epoch: nat)
    requires id in c.orders && id in Live(c, c.orders[id].creator)
    ensures var o := c.orders[id];
            var refund, (last, r) := o.input - Penalty(o, epoch), CancelOrders(c, o.creator, epoch, [id]);
            && (r.Executed? <==> 0 <= refund <= BalanceOf(c.balance, RefundToken(c, o)))
            && (r.Executed? ==>
                  && |r.transfers| == 1 && r.transfers[0] == Transfer(o.creator, RefundToken(c, o), refund)
                  && id !in last.orders)
  {
    hide CancelOne, CancelOrders, Penalty, RefundToken, Live;
    var caller := c.orders[id].creator;
    CancelOneIs(c, id, caller, epoch);
    CancelsOne(c, id, caller, epoch, CancelOne(c, id, caller, epoch));
  }

  lemma SameRefund(c: Chain, after: Chain, o: ChainOrder)
    requires c.first == after.first && c.second == after.second
    ensures RefundToken(c, o) == RefundToken(after, o)
  {
  }

  lemma CancelOneIs(c: Chain, id: nat, caller: Address, epoch: nat)
    requires id in c.orders
    ensures var o := c.orders[id];
            var r, refund := CancelOne(c, id, caller, epoch), o.input - Penalty(o, epoch);
            && (r.Some? <==> 0 <= refund <= BalanceOf(c.balance, RefundToken(c, o)))
            && (r.Some? ==>
                  && |r.value.1| == 1 && r.value.1[0] == Transfer(caller, RefundToken(c, o), refund)
                  && r.value.0.orders == c.orders - {id})
  {
    hide Penalty, RefundToken;
    var o := c.orders[id];
    if Penalty(o, epoch) <= o.input {
      PaidIff(c.balance, Transfer(caller, RefundToken(c, o), o.input - Penalty(o, epoch)));
    }
  }

  /** A cancel of one of the caller's orders. */
  lemma CancelsOne(c: Chain, id: nat, caller: Address, epoch: nat, one: Option<(Chain, seq<Transfer>)>)
    requires id in c.orders && id in Live(c, caller) && CancelOne(c, id, caller, epoch) == one
    ensures CancelOrders(c, caller, epoch, [id])
              == match one
                 case None => (c, Reverted)
                 case Some((after, transfers)) =>
                   (after.(index := after.index[caller := []]), Executed(transfers, [id]))
  {
    hide CancelOne, Live;
    assert [id][1..] == [] && ContainsAll(Live(c, caller), [id]);
    AllPresent(c.orders, [id], [id]);
    assert KeptIds([id], Live(c, caller)) == [] + [];
    if one.Some? {
      var (after, transfers) := one.value;
      assert RemoveLoop(after, [], caller, epoch, false) == Some((after, []));
      assert RemoveLoop(c, [id], caller, epoch, false) == Some((after, transfers + []));
      assert transfers + [] == transfers;
    } else {
      assert RemoveLoop(c, [id], caller, epoch, false) == None;
    }
  }
}

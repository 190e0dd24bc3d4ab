/** The exact account of what the contract holds beyond its escrow, over every run, matches included. */
module Ledger {
  import opened Orders
  import opened Settlement
  import opened Fills
  import opened Ownership
  import opened Escrow

  /** The token an order of the given side was paid in, and would be refunded in. */
  function RefundOf(side: Side, first: Token, second: Token): Token {
    if side == Buy then second else first
  }

  function Written(leg: Leg): ChainOrder {
    if leg.writesTaker then leg.taker else leg.maker
  }

  /** What a leg takes out of the escrow: the drop in input of the order it writes back. */
  function Released(orders: map<nat, ChainOrder>, leg: Leg, first: Token, second: Token, token: Token): int {
    var o := Written(leg);
    if o.id in orders && RefundOf(o.side, first, second) == token then orders[o.id].input - o.input else 0
  }

  /** What a leg pays out beyond that. */
  function Shortfall(orders: map<nat, ChainOrder>, leg: Leg, first: Token, second: Token, token: Token): int {
    PaidOut(LegTransfers(leg, first, second), token) - Released(orders, leg, first, second, token)
  }

  function MatchShortfall(orders: map<nat, ChainOrder>, taker: ChainOrder, makers: seq<nat>, first: Token,
                          second: Token,
                          token: Token): int
    decreases |makers|
  {
    if makers == [] || makers[0] !in orders || Fill(taker, orders[makers[0]]).None? then 0
    else
      var leg := Fill(taker, orders[makers[0]]).value;
      Shortfall(orders, leg, first, second, token)
      + MatchShortfall(Store(orders, leg), leg.taker, makers[1..], first, second, token)
  }

  // ---------- one leg ----------

  /** Branch by branch, for any types and tokens: the maker is paid in the token it asks the taker for, the taker in
      the other, and what the order written back gives up is released in its own. A full fill leaves the filled
      maker stored with all its input, and a partial one the taker: that input is not released. */
  lemma LegShortfall(orders: map<nat, ChainOrder>, taker: ChainOrder, maker: ChainOrder, first: Token, second: Token,
                     token: Token)
    requires taker.id in orders && orders[taker.id] == taker && maker.id in orders && orders[maker.id] == maker
    requires Fill(taker, maker).Some?
    ensures var leg := Fill(taker, maker).value;
            var (asked, other) := if taker.side == Sell then (first, second) else (second, first);
            var refund := RefundOf(if leg.writesTaker then taker.side else maker.side, first, second);
            var toMaker, toTaker, released :=
              if taker.side == Sell then taker.input
              else if leg.writesTaker then maker.output else RuleOfThree(maker.output, maker.input, taker.output),
              if leg.writesTaker then maker.input else taker.output,
              if taker.side == Sell then
                if leg.writesTaker then maker.output else RuleOfThree(maker.input, maker.output, taker.input)
              else
                if leg.writesTaker then RuleOfThree(taker.input, taker.output, maker.input) else taker.output;
            Shortfall(orders, leg, first, second, token)
            == (if token == asked then toMaker else 0) + (if token == other then toTaker else 0)
               - (if token == refund then released else 0)
  {
    hide RuleOfThree;
    TwoTransfers(Fill(taker, maker).value, first, second, token);
  }

  /** Between opposite types and two tokens. */
  lemma LegShortfalls(orders: map<nat, ChainOrder>, taker: ChainOrder, maker: ChainOrder, first: Token, second: Token)
    requires taker.id in orders && orders[taker.id] == taker && maker.id in orders && orders[maker.id] == maker
    requires first != second && taker.side != maker.side && Fill(taker, maker).Some?
    ensures var leg := Fill(taker, maker).value;
            var inFirst := Shortfall(orders, leg, first, second, first);
            var inSecond := Shortfall(orders, leg, first, second, second);
            if taker.side == Sell then
              if leg.writesTaker then inFirst == taker.input - maker.output && inSecond == maker.input
              else
                && inFirst == taker.input
                && inSecond == taker.output - RuleOfThree(maker.input, maker.output, taker.input)
            else
              if leg.writesTaker then
                inFirst == maker.input && inSecond == maker.output - RuleOfThree(taker.input, taker.output, maker.input)
              else inFirst == 0 && inSecond == RuleOfThree(maker.output, maker.input, taker.output)
  {
    LegShortfall(orders, taker, maker, first, second, first);
    LegShortfall(orders, taker, maker, first, second, second);
    hide RuleOfThree, Shortfall;
  }

  lemma TwoTransfers(leg: Leg, first: Token, second: Token, token: Token)
    ensures var (asked, other) := if leg.taker.side == Sell then (first, second) else (second, first);
            PaidOut(LegTransfers(leg, first, second), token)
            == (if token == asked then leg.toMaker else 0) + (if token == other then leg.toTaker else 0)
  {
    var transfers := LegTransfers(leg, first, second);
    assert transfers == [transfers[0]] + [transfers[1]];
    PaidTwo(transfers[0], transfers[1], token);
  }

  /** When a leg is paid for to the unit, in every token, for any types and tokens. */
  lemma LegBalancedIff(orders: map<nat, ChainOrder>, taker: ChainOrder, maker: ChainOrder, first: Token, second: Token)
    requires taker.id in orders && orders[taker.id] == taker && maker.id in orders && orders[maker.id] == maker
    requires Fill(taker, maker).Some?
    ensures var leg := Fill(taker, maker).value;
            (forall token :: Shortfall(orders, leg, first, second, token) == 0)
            <==> if taker.side == Sell then
                   if leg.writesTaker then taker.input == maker.output && maker.input == 0
                   else
                     var share := RuleOfThree(maker.input, maker.output, taker.input);
                     if first == second then taker.input + taker.output == share
                     else if maker.side == Sell then taker.input == share && taker.output == 0
                     else taker.input == 0 && taker.output == 0
                 else
                   if leg.writesTaker then
                     if first == second then
                       maker.output + maker.input == RuleOfThree(taker.input, taker.output, maker.input)
                     else maker.input == 0 && maker.output == 0
                   else if first != second && maker.side == Buy then taker.output == 0
                   else RuleOfThree(maker.output, maker.input, taker.output) == 0
  {
    var leg := Fill(taker, maker).value;
    NothingOfNothing(maker.input, maker.output);
    NothingOfNothing(maker.output, maker.input);
    NothingOfNothing(taker.input, taker.output);
    FullMeans(taker, maker);
    hide RuleOfThree, Shortfall, Fill;
    forall token | token != first && token != second ensures Shortfall(orders, leg, first, second, token) == 0 {
      LegShortfall(orders, taker, maker, first, second, token);
    }
    LegShortfall(orders, taker, maker, first, second, first);
    LegShortfall(orders, taker, maker, first, second, second);
    var both := Shortfall(orders, leg, first, second, first) == 0 && Shortfall(orders, leg, first, second, second) == 0;
    assert both <==> forall token :: Shortfall(orders, leg, first, second, token) == 0;
  }

  lemma FullMeans(taker: ChainOrder, maker: ChainOrder)
    requires Fill(taker, maker).Some?
    ensures var full := Fill(taker, maker).value.writesTaker;
            if taker.side == Sell then
              && (full <==> taker.input >= maker.output) && (full ==> taker.input > 0)
            else
              && (full <==> taker.output >= maker.input) && (full ==> taker.output > 0)
  {
    hide RuleOfThree;
  }

  // ---------- a match ----------

  lemma {:induction false} PaidConcat(a: seq<Transfer>, b: seq<Transfer>, token: Token)
    ensures PaidOut(a + b, token) == PaidOut(a, token) + PaidOut(b, token)
  {
    if a == [] {
      assert a + b == b;
    } else {
      assert (a + b)[1..] == a[1..] + b && (a + b)[0] == a[0];
      PaidConcat(a[1..], b, token);
    }
  }

  lemma {:induction false} EscrowStored(c: Chain, o: ChainOrder, token: Token, n: nat)
    requires o.id in c.orders && o.side == c.orders[o.id].side
    ensures Escrowed(c.(orders := c.orders[o.id := o]), token, n) == Escrowed(c, token, n) +
            (if o.id < n && RefundOf(o.side, c.first, c.second) == token then o.input - c.orders[o.id].input else 0)
  {
    if n > 0 {
      EscrowStored(c, o, token, n - 1);
    }
  }

  lemma LegReleases(c: Chain, taker: ChainOrder, maker: ChainOrder, token: Token)
    requires Named(c) && taker.id in c.orders && SameIdentity(c.orders[taker.id], taker)
    requires maker.id in c.orders && c.orders[maker.id] == maker && Fill(taker, maker).Some?
    ensures var leg := Fill(taker, maker).value;
            var after := c.(orders := Store(c.orders, leg));
            && Named(after) && leg.taker.id == taker.id && taker.id in after.orders
                && SameIdentity(after.orders[taker.id], leg.taker)
            && Escrowed(after, token, c.counter)
               == Escrowed(c, token, c.counter) - Released(c.orders, leg, c.first, c.second, token)
  {
    hide Fill, Escrowed;
    var leg := Fill(taker, maker).value;
    LegKeepsIdentity(taker, maker);
    assert Store(c.orders, leg) == c.orders[Written(leg).id := Written(leg)];
    EscrowStored(c, Written(leg), token, c.counter);
  }

  lemma {:induction false} LoopShortfall(c: Chain, taker: ChainOrder, makers: seq<nat>, token: Token)
    requires Named(c) && taker.id in c.orders && SameIdentity(c.orders[taker.id], taker)
    requires MatchLoop(c.orders, taker, makers, c.first, c.second).Some?
    ensures var s := MatchLoop(c.orders, taker, makers, c.first, c.second).value;
            PaidOut(s.transfers, token)
            - (Escrowed(c, token, c.counter) - Escrowed(c.(orders := s.orders), token, c.counter))
            == MatchShortfall(c.orders, taker, makers, c.first, c.second, token)
    decreases |makers|
  {
    if makers == [] {
      assert c.(orders := c.orders) == c;
    } else {
      hide Fill, Store, Escrowed, LegTransfers, Released, SameIdentity;
      var leg := Fill(taker, c.orders[makers[0]]).value;
      LegReleases(c, taker, c.orders[makers[0]], token);
      var stored := c.(orders := Store(c.orders, leg));
      LoopShortfall(stored, leg.taker, makers[1..], token);
      var rest := MatchLoop(stored.orders, leg.taker, makers[1..], c.first, c.second).value;
      PaidConcat(LegTransfers(leg, c.first, c.second), rest.transfers, token);
    }
  }

  lemma MatchSlack(c: Chain, taker: nat, makers: seq<nat>, token: Token)
    requires Named(c) && MatchOrders(c, taker, makers).1.Executed?
    ensures Slack(MatchOrders(c, taker, makers).0, token)
            == Slack(c, token) - MatchShortfall(c.orders, c.orders[taker], makers, c.first, c.second, token)
    ensures Named(MatchOrders(c, taker, makers).0)
  {
    hide MatchShortfall, MatchLoop, Pay;
    var s := MatchLoop(c.orders, c.orders[taker], makers, c.first, c.second).value;
    var after := MatchOrders(c, taker, makers).0;
    LoopShortfall(c, c.orders[taker], makers, token);
    PaySome(c.balance, s.transfers, token);
    EscrowBelow(c.(orders := s.orders), after, token, c.counter);
    MatchKeepsOrders(c.orders, c.orders[taker], makers, c.first, c.second);
  }

  // ---------- every transaction, every run ----------

  /** What a transaction adds to what the contract holds beyond its escrow. */
  function Entry(c: Chain, tx: Tx, token: Token): int {
    if Apply(c, tx).1.Reverted? then 0
    else
      match tx
      case Create(_, _, t, paid, _, _, side) =>
        (if token == t then paid else 0) - (if token == RefundOf(side, c.first, c.second) then paid else 0)
      case Match(taker, makers) =>
        if taker in c.orders then 0 - MatchShortfall(c.orders, c.orders[taker], makers, c.first, c.second, token) else 0
      case _ => RetainedBy(c, tx, token)
  }

  function RunEntries(c: Chain, txs: seq<Tx>, token: Token): int
    decreases |txs|
  {
    if txs == [] then 0 else Entry(c, txs[0], token) + RunEntries(Apply(c, txs[0]).0, txs[1..], token)
  }

  lemma ApplyEntry(c: Chain, tx: Tx, token: Token)
    requires Named(c) && c.counter + 1 < TWO_TO_THE_64
    ensures Slack(Apply(c, tx).0, token) == Slack(c, token) + Entry(c, tx, token)
    ensures Named(Apply(c, tx).0) && c.counter <= Apply(c, tx).0.counter <= c.counter + 1
  {
    hide Slack, MatchShortfall, MatchLoop, RetainedBy, CreateOrder;
    match tx
    case Create(caller, epoch, t, paid, requested, matchProvider, side) =>
      CreateEntry(c, tx, token);
    case Match(taker, makers) =>
      if MatchOrders(c, taker, makers).1.Executed? {
        MatchSlack(c, taker, makers, token);
      }
    case CancelSome(_, _, _) => ApplySlack(c, tx, token);
    case CancelEvery(_, _) => ApplySlack(c, tx, token);
    case Free(_, _, _) => ApplySlack(c, tx, token);
  }

  lemma CreateEntry(c: Chain, tx: Tx, token: Token)
    requires Named(c) && c.counter + 1 < TWO_TO_THE_64 && tx.Create?
    ensures Slack(Apply(c, tx).0, token) == Slack(c, token) + Entry(c, tx, token)
    ensures Named(Apply(c, tx).0) && c.counter <= Apply(c, tx).0.counter <= c.counter + 1
  {
    if Apply(c, tx).1.Executed? {
      CreateSlack(c, tx.caller, tx.epoch, tx.token, tx.paid, tx.requested, tx.matchProvider, tx.side, token);
    }
  }

  /** Over every run, in every token: what the contract holds is the input of its live orders plus the sum of
      its entries: penalties kept, what creates paid in another token than they are refunded in, and less the
      shortfall of each leg of each match. */
  lemma {:induction false} RunBalances(c: Chain, txs: seq<Tx>, token: Token)
    requires Named(c) && c.counter + |txs| < TWO_TO_THE_64
    ensures Slack(Run(c, txs), token) == Slack(c, token) + RunEntries(c, txs, token)
    decreases |txs|
  {
    if txs != [] {
      hide Entry, Apply;
      ApplyEntry(c, txs[0], token);
      RunBalances(Apply(c, txs[0]).0, txs[1..], token);
    }
  }

  lemma BalancesFromDeployment(first: Token, second: Token, txs: seq<Tx>, token: Token)
    requires |txs| < TWO_TO_THE_64
    ensures var c := Run(Deployed(first, second), txs);
            BalanceOf(c.balance, token)
                == Escrowed(c, token, c.counter) + RunEntries(Deployed(first, second), txs, token)
  {
    RunBalances(Deployed(first, second), txs, token);
  }
}

/** Conservation of escrow: what the contract holds is what its live orders put in, plus the penalties kept. */
module Escrow {
  import opened Orders
  import opened Settlement
  import opened Fills
  import opened Ownership

  /** What the stored orders with ids below `n` have put in, in one token. */
  function Escrowed(c: Chain, token: Token, n: nat): nat {
    if n == 0 then 0
    else Escrowed(c, token, n - 1) +
         (if n - 1 in c.orders && RefundToken(c, c.orders[n - 1]) == token then c.orders[n - 1].input else 0)
  }

  /** What the contract holds beyond the escrow of its live orders. */
  ghost function Slack(c: Chain, token: Token): int {
    BalanceOf(c.balance, token) - Escrowed(c, token, c.counter)
  }

  lemma {:induction false} EscrowWithout(c: Chain, after: Chain, id: nat, token: Token, n: nat)
    requires id in c.orders && after.orders == c.orders - {id} && after.first == c.first && after.second == c.second
    ensures Escrowed(after, token, n) == Escrowed(c, token, n) -
            (if id < n && RefundToken(c, c.orders[id]) == token then c.orders[id].input else 0)
  {
    if n > 0 {
      EscrowWithout(c, after, id, token, n - 1);
    }
  }

  lemma {:induction false} EscrowBelow(c: Chain, after: Chain, token: Token, n: nat)
    requires forall id :: id < n ==>
               (id in c.orders <==> id in after.orders) && (id in c.orders ==> c.orders[id] == after.orders[id])
    requires after.first == c.first && after.second == c.second
    ensures Escrowed(after, token, n) == Escrowed(c, token, n)
  {
    if n > 0 {
      EscrowBelow(c, after, token, n - 1);
    }
  }

  lemma {:induction false} EscrowCovers(c: Chain, id: nat, n: nat)
    requires id in c.orders && id < n
    ensures c.orders[id].input <= Escrowed(c, RefundToken(c, c.orders[id]), n)
  {
    if id < n - 1 {
      EscrowCovers(c, id, n - 1);
    }
  }

  // ---------- payments ----------

  function PaidOut(transfers: seq<Transfer>, token: Token): nat {
    if transfers == [] then 0
    else (if transfers[0].token == token then transfers[0].amount else 0) + PaidOut(transfers[1..], token)
  }

  /** A payment succeeds exactly when every token covers what is paid out in it, and lowers it by just that. */
  lemma {:induction false} PaySome(balance: map<Token, nat>, transfers: seq<Transfer>, token: Token)
    requires Pay(balance, transfers).Some?
    ensures BalanceOf(Pay(balance, transfers).value, token) == BalanceOf(balance, token) - PaidOut(transfers, token)
  {
    if transfers != [] {
      var t := transfers[0];
      var left := if t.amount > 0 then balance[t.token := BalanceOf(balance, t.token) - t.amount] else balance;
      PaySome(left, transfers[1..], token);
    }
  }

  lemma {:induction false} PayCovered(balance: map<Token, nat>, transfers: seq<Transfer>)
    requires forall token :: PaidOut(transfers, token) <= BalanceOf(balance, token)
    ensures Pay(balance, transfers).Some?
  {
    if transfers != [] {
      var t := transfers[0];
      assert PaidOut(transfers, t.token) >= t.amount;
      var left := if t.amount > 0 then balance[t.token := BalanceOf(balance, t.token) - t.amount] else balance;
      forall token ensures PaidOut(transfers[1..], token) <= BalanceOf(left, token) {
        assert PaidOut(transfers, token) <= BalanceOf(balance, token);
      }
      PayCovered(left, transfers[1..]);
    }
  }

  // ---------- penalties ----------

  /** The penalty percentage in force, as the 64-bit product the contract computes. */
  function PenaltyPercent(o: ChainOrder, epoch: nat): nat {
    (PenaltyCount(o, epoch) * FEE_PENALTY_INCREASE_PERCENT) % TWO_TO_THE_64
  }

  /** In periods and deposit: the penalty fits for a hundred periods, and beyond them as long as the periods in
      excess, times the deposit, stay below a hundred. When the 64-bit percentage wraps, the same holds of what
      the wrapping leaves. */
  lemma PenaltyFitsIff(o: ChainOrder, epoch: nat)
    ensures PenaltyCount(o, epoch) * FEE_PENALTY_INCREASE_PERCENT < TWO_TO_THE_64 ==>
              (Penalty(o, epoch) <= o.input
               <==> PenaltyCount(o, epoch) <= 100 || (PenaltyCount(o, epoch) - 100) * o.input < 100)
    ensures Penalty(o, epoch) <= o.input
            <==> PenaltyPercent(o, epoch) <= PERCENT_BASE_POINTS
                 || (PenaltyPercent(o, epoch) - PERCENT_BASE_POINTS) * o.input < PERCENT_BASE_POINTS
  {
    WrappedPenaltyFits(o, epoch);
    hide Penalty, PenaltyCount, PenaltyPercent;
    if PenaltyCount(o, epoch) * FEE_PENALTY_INCREASE_PERCENT < TWO_TO_THE_64 {
      UnwrappedPercent(o, epoch);
      InPeriods(PenaltyCount(o, epoch), o.input);
    }
  }

  lemma WrappedPenaltyFits(o: ChainOrder, epoch: nat)
    ensures Penalty(o, epoch) <= o.input
            <==> PenaltyPercent(o, epoch) <= PERCENT_BASE_POINTS
                 || (PenaltyPercent(o, epoch) - PERCENT_BASE_POINTS) * o.input < PERCENT_BASE_POINTS
  {
    FloorFits(PenaltyPercent(o, epoch), o.input, PERCENT_BASE_POINTS);
    hide PenaltyCount;
  }

  lemma UnwrappedPercent(o: ChainOrder, epoch: nat)
    requires PenaltyCount(o, epoch) * FEE_PENALTY_INCREASE_PERCENT < TWO_TO_THE_64
    ensures PenaltyPercent(o, epoch) == 1_000 * PenaltyCount(o, epoch)
  {
    hide PenaltyCount;
  }

  lemma InPeriods(count: nat, input: nat)
    ensures var percent := 1_000 * count;
            (percent <= PERCENT_BASE_POINTS || (percent - PERCENT_BASE_POINTS) * input < PERCENT_BASE_POINTS)
            <==> (count <= 100 || (count - 100) * input < 100)
  {
    if count > 100 {
      Scaled(count - 100, input);
      assert 1_000 * count - PERCENT_BASE_POINTS == 1_000 * (count - 100);
    }
  }

  /** A share of more than the whole, rounded down, exceeds the whole exactly when the excess comes to a unit. */
  lemma FloorFits(part: nat, whole: nat, base: nat)
    requires base > 0
    ensures part * whole / base <= whole <==> part <= base || (part - base) * whole < base
  {
    Quotient(part * whole, base);
    Distributed(whole, 1, base);
    assert (whole + 1) * base == whole * base + base && base * whole == whole * base;
    if part <= base {
      MulMono(part, base, whole);
      QuotientAtMost(part * whole, base, whole);
    } else {
      Distributed(part - base, base, whole);
      if part * whole / base <= whole {
        MulMono(part * whole / base, whole, base);
      } else {
        QuotientAtLeast(part * whole, base, part * whole / base);
        MulMono(whole + 1, part * whole / base, base);
      }
    }
  }

  lemma Scaled(x: nat, y: nat)
    ensures (1_000 * x) * y == 1_000 * (x * y)
  {
  }

  /** A period is five epochs, and only whole ones count. An epoch before that of the order counts as the 64-bit
      difference wraps. */
  lemma PeriodsElapsed(o: ChainOrder, epoch: nat)
    requires o.createEpoch < 0x1_0000_0000_0000_0000 && epoch < 0x1_0000_0000_0000_0000
    ensures var age := if o.createEpoch <= epoch then epoch - o.createEpoch
                       else 0x1_0000_0000_0000_0000 + epoch - o.createEpoch;
            5 * PenaltyCount(o, epoch) <= age < 5 * PenaltyCount(o, epoch) + 5
  {
  }

  /** A penalty is one hundredth of the deposit per period, rounded down; once the 64-bit product wraps, what it
      leaves of the thousand points per period, of which a hundred thousand are the whole deposit. */
  lemma PenaltyIsPercent(o: ChainOrder, epoch: nat)
    ensures var n := PenaltyCount(o, epoch);
            1_000 * n < 0x1_0000_0000_0000_0000 ==>
              100 * Penalty(o, epoch) <= n * o.input < 100 * Penalty(o, epoch) + 100
    ensures var points := (1_000 * PenaltyCount(o, epoch)) % 0x1_0000_0000_0000_0000;
            100_000 * Penalty(o, epoch) <= points * o.input < 100_000 * Penalty(o, epoch) + 100_000
  {
    var n := PenaltyCount(o, epoch);
    var points := (1_000 * n) % 0x1_0000_0000_0000_0000;
    assert Penalty(o, epoch) == points * o.input / 100_000;
    hide Penalty, PenaltyCount;
    Quotient(points * o.input, 100_000);
    if 1_000 * n < 0x1_0000_0000_0000_0000 {
      Scaled(n, o.input);
    }
  }

  /** A hundred periods make a hundred percent: until then the penalty never exceeds the escrow. */
  lemma PenaltyFitsForHundredPeriods(o: ChainOrder, epoch: nat)
    requires PenaltyCount(o, epoch) <= 100
    ensures Penalty(o, epoch) <= o.input
  {
    PenaltyFitsIff(o, epoch);
  }

  // ---------- removing orders ----------

  /** The penalties a removal leaves with the contract: those of cancels, none of those of frees. */
  function Retained(c: Chain, ids: seq<nat>, epoch: nat, free: bool, token: Token): nat
    decreases |ids|
  {
    if ids == [] || ids[0] !in c.orders then 0
    else
      var o := c.orders[ids[0]];
      (if !free && RefundToken(c, o) == token then Penalty(o, epoch) else 0)
      + Retained(c.(orders := c.orders - {ids[0]}), ids[1..], epoch, free, token)
  }

  lemma RemoveOneSlack(c: Chain, id: nat, caller: Address, epoch: nat, free: bool, token: Token)
    requires Named(c) && RemoveOne(c, id, caller, epoch, free).Some?
    ensures var (after, transfers) := RemoveOne(c, id, caller, epoch, free).value;
            var o := c.orders[id];
            && Slack(after, token)
                == Slack(c, token) + (if !free && RefundToken(c, o) == token then Penalty(o, epoch) else 0)
            && Named(after) && after.orders == c.orders - {id}
  {
    var (after, transfers) := RemoveOne(c, id, caller, epoch, free).value;
    EscrowWithout(c, after, id, token, c.counter);
    PaySome(c.balance, transfers, token);
    var o := c.orders[id];
    var refund, penalty := o.input - Penalty(o, epoch), Penalty(o, epoch);
    if free {
      assert transfers
               == [Transfer(o.creator, RefundToken(c, o), refund)] + [Transfer(caller, RefundToken(c, o), penalty)];
      PaidTwo(Transfer(o.creator, RefundToken(c, o), refund), Transfer(caller, RefundToken(c, o), penalty), token);
    } else {
      PaidOne(Transfer(caller, RefundToken(c, o), refund), token);
    }
  }

  lemma PaidOne(t: Transfer, token: Token)
    ensures PaidOut([t], token) == if t.token == token then t.amount else 0
  {
    assert [t][1..] == [];
  }

  lemma PaidTwo(t: Transfer, u: Transfer, token: Token)
    ensures PaidOut([t] + [u], token)
              == (if t.token == token then t.amount else 0) + (if u.token == token then u.amount else 0)
  {
    assert ([t] + [u])[1..] == [u];
    PaidOne(u, token);
  }

  lemma {:induction false} RetainedSame(c: Chain, after: Chain, ids: seq<nat>, epoch: nat, free: bool, token: Token)
    requires after.orders == c.orders && after.first == c.first && after.second == c.second
    ensures Retained(after, ids, epoch, free, token) == Retained(c, ids, epoch, free, token)
    decreases |ids|
  {
    if ids != [] && ids[0] in c.orders {
      RetainedSame(c.(orders := c.orders - {ids[0]}), after.(orders := after.orders - {ids[0]}), ids[1..], epoch, free,
          token);
    }
  }

  lemma {:induction false} RemoveLoopSlack(c: Chain, ids: seq<nat>, caller: Address, epoch: nat, free: bool,
                                           token: Token)
    requires Named(c) && RemoveLoop(c, ids, caller, epoch, free).Some?
    ensures var after := RemoveLoop(c, ids, caller, epoch, free).value.0;
            Slack(after, token) == Slack(c, token) + Retained(c, ids, epoch, free, token)
    decreases |ids|
  {
    if ids != [] {
      RemoveOneOnly(c, ids[0], caller, epoch, free);
      RemoveOneSlack(c, ids[0], caller, epoch, free, token);
      var after := RemoveOne(c, ids[0], caller, epoch, free).value.0;
      RetainedSame(c.(orders := c.orders - {ids[0]}), after, ids[1..], epoch, free, token);
      RemoveLoopSlack(after, ids[1..], caller, epoch, free, token);
    }
  }

  /** While the contract holds at least its escrow, no refund is ever refused for lack of funds. */
  lemma RemoveNeverShort(c: Chain, id: nat, caller: Address, epoch: nat, free: bool)
    requires Named(c) && forall token :: Slack(c, token) >= 0
    ensures RemoveOne(c, id, caller, epoch, free).Some?
            <==> && id in c.orders && Penalty(c.orders[id], epoch) <= c.orders[id].input
                 && (free ==> PenaltyCount(c.orders[id], epoch) >= FREE_ORDER_FROM_STORAGE_MIN_PENALTIES)
  {
    if id in c.orders && Penalty(c.orders[id], epoch) <= c.orders[id].input {
      var o := c.orders[id];
      var refund, penalty, token := o.input - Penalty(o, epoch), Penalty(o, epoch), RefundToken(c, o);
      EscrowCovers(c, id, c.counter);
      assert Slack(c, token) >= 0;
      var one, two := [Transfer(caller, token, refund)],
          [Transfer(o.creator, token, refund), Transfer(caller, token, penalty)];
      assert one[1..] == [] && two[1..] == [Transfer(caller, token, penalty)] && two[1..][1..] == [];
      PayCovered(c.balance, one);
      PayCovered(c.balance, two);
    }
  }

  // ---------- one transaction ----------

  predicate IsMatch(tx: Tx) { tx.Match? }

  /** A buyer's payment in another token than the second is not refundable escrow. */
  predicate PaidInKind(c: Chain, tx: Tx) {
    tx.Create? && tx.side == Buy ==> tx.token == c.second
  }

  function RetainedBy(c: Chain, tx: Tx, token: Token): nat {
    if Apply(c, tx).1.Reverted? then 0
    else
      match tx
      case CancelSome(caller, epoch, ids) => Retained(c, Present(c.orders, ids), epoch, false, token)
      case CancelEvery(caller, epoch) => Retained(c, Present(c.orders, Live(c, caller)), epoch, false, token)
      case _ => 0
  }

  lemma CreateSlack(c: Chain, caller: Address, epoch: nat, token: Token, paid: nat, requested: nat,
                    matchProvider: Address,
                    side: Side, t: Token)
    requires Named(c) && c.counter + 1 < TWO_TO_THE_64
    requires CreateOrder(c, caller, epoch, token, paid, requested, matchProvider, side).1.Executed?
    ensures var after := CreateOrder(c, caller, epoch, token, paid, requested, matchProvider, side).0;
            var refund := if side == Buy then c.second else c.first;
            && Named(after)
            && Slack(after, t) == Slack(c, t) + (if t == token then paid else 0) - (if t == refund then paid else 0)
  {
    var after := CreateOrder(c, caller, epoch, token, paid, requested, matchProvider, side).0;
    EscrowBelow(c, after, t, c.counter);
  }

  /** A create keeps what the contract holds beyond escrow, in every token, exactly when it is paid in the
      token it would be refunded in (or pays nothing). */
  lemma CreateConservesIff(c: Chain, caller: Address, epoch: nat, token: Token, paid: nat, requested: nat,
                           matchProvider: Address, side: Side)
    requires Named(c) && c.counter + 1 < TWO_TO_THE_64
    requires CreateOrder(c, caller, epoch, token, paid, requested, matchProvider, side).1.Executed?
    ensures var after := CreateOrder(c, caller, epoch, token, paid, requested, matchProvider, side).0;
            (forall t :: Slack(after, t) == Slack(c, t))
                <==> paid == 0 || token == (if side == Buy then c.second else c.first)
  {
    var after := CreateOrder(c, caller, epoch, token, paid, requested, matchProvider, side).0;
    forall t ensures Slack(after, t) == Slack(c, t) + (if t == token then paid else 0)
                                       - (if t == (if side == Buy then c.second else c.first) then paid else 0) {
      CreateSlack(c, caller, epoch, token, paid, requested, matchProvider, side, t);
    }
    var refund := if side == Buy then c.second else c.first;
    assert Slack(after, token) == Slack(c, token) <==> paid == 0 || token == refund;
  }

  lemma ApplySlack(c: Chain, tx: Tx, token: Token)
    requires Named(c) && c.counter + 1 < TWO_TO_THE_64 && !IsMatch(tx) && PaidInKind(c, tx)
    ensures Slack(Apply(c, tx).0, token) == Slack(c, token) + RetainedBy(c, tx, token)
    ensures Named(Apply(c, tx).0) && c.counter <= Apply(c, tx).0.counter <= c.counter + 1
    ensures Apply(c, tx).0.first == c.first && Apply(c, tx).0.second == c.second
  {
    hide Slack, Present, RemoveLoop, Retained, Live, KeptIds;
    match tx
    case Create(caller, epoch, t, paid, requested, matchProvider, side) =>
      if Apply(c, tx).1.Executed? {
        CreateSlack(c, caller, epoch, t, paid, requested, matchProvider, side, token);
      }
    case CancelSome(caller, epoch, ids) => RemovalSlack(c, ids, caller, epoch, false, token);
    case CancelEvery(caller, epoch) => RemovalSlack(c, Live(c, caller), caller, epoch, false, token);
    case Free(caller, epoch, ids) => RemovalSlack(c, ids, caller, epoch, true, token);
    case Match(_, _) =>
  }

  lemma RemovalSlack(c: Chain, ids: seq<nat>, caller: Address, epoch: nat, free: bool, token: Token)
    requires Named(c)
    ensures var present := Present(c.orders, ids);
            RemoveLoop(c, present, caller, epoch, free).Some? ==>
              var after := RemoveLoop(c, present, caller, epoch, free).value.0;
              && (forall index ::
                  Slack(after.(index := index), token) == Slack(c, token) + Retained(c, present, epoch, free, token))
              && Slack(after, token) == Slack(c, token) + Retained(c, present, epoch, free, token)
              && Named(after) && after.counter == c.counter && after.first == c.first && after.second == c.second
              && (free ==> Retained(c, present, epoch, free, token) == 0)
  {
    var present := Present(c.orders, ids);
    if RemoveLoop(c, present, caller, epoch, free).Some? {
      RemoveLoopOnly(c, present, caller, epoch, free);
      RemoveLoopSlack(c, present, caller, epoch, free, token);
      var after := RemoveLoop(c, present, caller, epoch, free).value.0;
      forall index ensures Slack(after.(index := index), token) == Slack(after, token) {
        EscrowBelow(after, after.(index := index), token, after.counter);
      }
      if free { FreeRetainsNothing(c, present, epoch, token); }
    }
  }

  lemma {:induction false} FreeRetainsNothing(c: Chain, ids: seq<nat>, epoch: nat, token: Token)
    ensures Retained(c, ids, epoch, true, token) == 0
    decreases |ids|
  {
    if ids != [] && ids[0] in c.orders {
      FreeRetainsNothing(c.(orders := c.orders - {ids[0]}), ids[1..], epoch, token);
    }
  }

  // ---------- whole runs ----------

  ghost predicate Unmatched(txs: seq<Tx>, second: Token) {
    forall k :: 0 <= k < |txs| ==> !IsMatch(txs[k]) && (txs[k].Create? && txs[k].side == Buy ==> txs[k].token == second)
  }

  function RunRetained(c: Chain, txs: seq<Tx>, token: Token): nat
    decreases |txs|
  {
    if txs == [] then 0 else RetainedBy(c, txs[0], token) + RunRetained(Apply(c, txs[0]).0, txs[1..], token)
  }

  /** Over any run of creates, cancels and frees from deployment, per token: the contract's balance is the
      escrow of its live orders plus the penalties its cancels kept. */
  lemma {:induction false} EscrowConserved(c: Chain, txs: seq<Tx>, token: Token)
    requires Named(c) && c.counter + |txs| < TWO_TO_THE_64 && Unmatched(txs, c.second)
    ensures Slack(Run(c, txs), token) == Slack(c, token) + RunRetained(c, txs, token)
    decreases |txs|
  {
    if txs != [] {
      ApplySlack(c, txs[0], token);
      EscrowConserved(Apply(c, txs[0]).0, txs[1..], token);
    }
  }

  lemma EscrowFromDeployment(first: Token, second: Token, txs: seq<Tx>, token: Token)
    requires |txs| < TWO_TO_THE_64 && Unmatched(txs, second)
    ensures var c := Run(Deployed(first, second), txs);
            BalanceOf(c.balance, token)
                == Escrowed(c, token, c.counter) + RunRetained(Deployed(first, second), txs, token)
  {
    EscrowConserved(Deployed(first, second), txs, token);
  }
}

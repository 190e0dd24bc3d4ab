/** The contract's endpoints step by step over its storage; a failed step undoes the whole transaction. */
module Contracts {
  import opened Orders
  import opened Settlement

  /** Transfers so far, then those of the rest of the makers. */
  ghost function AfterLegs(transfers: seq<Transfer>, rest: Option<Settled>): Option<Settled> {
    match rest
    case None => None
    case Some(s) => Some(s.(transfers := transfers + s.transfers))
  }

  ghost function AfterRemovals(transfers: seq<Transfer>,
                               rest: Option<(Chain, seq<Transfer>)>): Option<(Chain, seq<Transfer>)> {
    match rest
    case None => None
    case Some((c, more)) => Some((c, transfers + more))
  }

  lemma NothingYet(settled: Option<Settled>, removed: Option<(Chain, seq<Transfer>)>)
    ensures AfterLegs([], settled) == settled && AfterRemovals([], removed) == removed
  {
    assert settled.Some? ==> [] + settled.value.transfers == settled.value.transfers;
    assert removed.Some? ==> [] + removed.value.1 == removed.value.1;
  }

  lemma LegsAppend(transfers: seq<Transfer>, orders: map<nat, ChainOrder>, taker: ChainOrder, makers: seq<nat>,
                   leg: Leg,
                   first: Token, second: Token)
    requires makers != [] && makers[0] in orders && Fill(taker, orders[makers[0]]) == Some(leg)
    ensures AfterLegs(transfers, MatchLoop(orders, taker, makers, first, second)) ==
            AfterLegs(transfers + LegTransfers(leg, first, second),
                MatchLoop(Store(orders, leg), leg.taker, makers[1..], first, second))
  {
    match MatchLoop(Store(orders, leg), leg.taker, makers[1..], first, second)
    case None =>
    case Some(rest) =>
      assert transfers + (LegTransfers(leg, first, second) + rest.transfers)
          == (transfers + LegTransfers(leg, first, second)) + rest.transfers;
  }

  lemma RemovalsAppend(transfers: seq<Transfer>, one: seq<Transfer>, rest: Option<(Chain, seq<Transfer>)>)
    ensures AfterRemovals(transfers + one, rest) ==
            (match rest case None => None case Some((c, more)) => Some((c, transfers + (one + more))))
  {
    match rest
    case None =>
    case Some((c, more)) => assert (transfers + one) + more == transfers + (one + more);
  }

  lemma {:induction false} KeptConcat(a: seq<nat>, b: seq<nat>, owned: seq<nat>)
    ensures KeptIds(a + b, owned) == KeptIds(a, owned) + KeptIds(b, owned)
  {
    if a == [] {
      assert a + b == b;
    } else {
      assert (a + b)[1..] == a[1..] + b;
      KeptConcat(a[1..], b, owned);
    }
  }

  lemma KeptNext(ids: seq<nat>, k: nat, owned: seq<nat>)
    requires k < |ids|
    ensures KeptIds(ids[..k + 1], owned) == KeptIds(ids[..k], owned) + (if ids[k] in owned then [] else [ids[k]])
  {
    assert ids[..k + 1] == ids[..k] + [ids[k]];
    KeptConcat(ids[..k], [ids[k]], owned);
    assert [ids[k]][1..] == [];
  }

  lemma {:induction false} PresentConcat(orders: map<nat, ChainOrder>, a: seq<nat>, b: seq<nat>)
    ensures Present(orders, a + b) == Present(orders, a) + Present(orders, b)
  {
    if a == [] {
      assert a + b == b;
    } else {
      assert (a + b)[1..] == a[1..] + b;
      PresentConcat(orders, a[1..], b);
    }
  }

  lemma PresentNext(orders: map<nat, ChainOrder>, ids: seq<nat>, k: nat)
    requires k < |ids|
    ensures Present(orders, ids[..k + 1]) == Present(orders, ids[..k]) + (if ids[k] in orders then [ids[k]] else [])
  {
    assert ids[..k + 1] == ids[..k] + [ids[k]];
    PresentConcat(orders, ids[..k], [ids[k]]);
    assert [ids[k]][1..] == [];
  }

  method RequireContainsAll(base: seq<nat>, items: seq<nat>) returns (ok: bool)
    ensures ok <==> ContainsAll(base, items)
  {
    for i := 0 to |items|
      invariant forall k :: 0 <= k < i ==> items[k] in base
    {
      var checkItem := false;
      for j := 0 to |base|
        invariant checkItem <==> items[i] in base[..j]
      {
        if items[i] == base[j] {
          checkItem := true;
          break;
        }
      }
      assert checkItem <==> items[i] in base by {
        assert base[..|base|] == base;
      }
      if !checkItem {
        return false;
      }
    }
    return true;
  }

  method RequireContainsNone(base: seq<nat>, items: seq<nat>) returns (ok: bool)
    ensures ok <==> ContainsNone(base, items)
  {
    for i := 0 to |items|
      invariant forall k :: 0 <= k < i ==> items[k] !in base
    {
      var checkItem := false;
      for j := 0 to |base|
        invariant checkItem <==> items[i] in base[..j]
      {
        if items[i] == base[j] {
          checkItem := true;
          break;
        }
      }
      assert checkItem <==> items[i] in base by {
        assert base[..|base|] == base;
      }
      if checkItem {
        return false;
      }
    }
    return true;
  }

  /** The cancelled ids that were not in the caller's list, found by a flag for each. */
  method KeepUnowned(ids: seq<nat>, owned: seq<nat>) returns (finalCallerOrders: seq<nat>)
    ensures finalCallerOrders == KeptIds(ids, owned)
  {
    finalCallerOrders := [];
    for k := 0 to |ids|
      invariant finalCallerOrders == KeptIds(ids[..k], owned)
    {
      var checkOrderToDelete := false;
      for j := 0 to |owned|
        invariant checkOrderToDelete <==> ids[k] in owned[..j]
      {
        if owned[j] == ids[k] {
          checkOrderToDelete := true;
        }
      }
      assert owned[..|owned|] == owned;
      KeptNext(ids, k, owned);
      if !checkOrderToDelete {
        finalCallerOrders := finalCallerOrders + [ids[k]];
      }
    }
    assert ids[..|ids|] == ids;
  }

  class Contract {
    const firstTokenId: Token
    const secondTokenId: Token
    var orders: map<nat, ChainOrder>
    var addressOrderIds: map<Address, seq<nat>>
    var orderIdCounter: nat
    var balance: map<Token, nat>

    ghost function State(): Chain
      reads this
    {
      Chain(orders, addressOrderIds, orderIdCounter, balance, firstTokenId, secondTokenId)
    }

    constructor (firstTokenId: Token, secondTokenId: Token)
      ensures State() == Deployed(firstTokenId, secondTokenId)
    {
      this.firstTokenId := firstTokenId;
      this.secondTokenId := secondTokenId;
      orders, addressOrderIds, orderIdCounter, balance := map[], map[], 0, map[];
    }

    // ---------- reading ----------

    method LoadOrders(ids: seq<nat>) returns (loaded: seq<nat>)
      ensures loaded == Present(orders, ids)
    {
      loaded := [];
      for k := 0 to |ids|
        invariant loaded == Present(orders, ids[..k])
      {
        PresentNext(orders, ids, k);
        if ids[k] in orders {
          loaded := loaded + [ids[k]];
        }
      }
      assert ids[..|ids|] == ids;
    }

    method GetAddressOrderIds(address: Address) returns (ids: seq<nat>)
      ensures ids == Live(State(), address)
    {
      var listed := if address in addressOrderIds then addressOrderIds[address] else [];
      ids := LoadOrders(listed);
    }

    // ---------- paying ----------

    method ExecuteTransfers(transfers: seq<Transfer>) returns (ok: bool)
      modifies this`balance
      ensures ok <==> Pay(old(balance), transfers).Some?
      ensures ok ==> balance == Pay(old(balance), transfers).value
      ensures !ok ==> balance == old(balance)
    {
      var saved := balance;
      for k := 0 to |transfers|
        invariant Pay(balance, transfers[k..]) == Pay(old(balance), transfers)
      {
        var t := transfers[k];
        assert transfers[k..][1..] == transfers[k + 1..];
        if t.amount > 0 {
          var held := if t.token in balance then balance[t.token] else 0;
          if held < t.amount {
            balance := saved;
            return false;
          }
          balance := balance[t.token := held - t.amount];
        }
      }
      return true;
    }

    // ---------- endpoints ----------

    method CreateOrder(caller: Address, epoch: nat, token: Token, paid: nat, requested: nat, matchProvider: Address,
                       side: Side)
      returns (r: TxResult)
      modifies this
      ensures (State(), r)
                == Settlement.CreateOrder(old(State()), caller, epoch, token, paid, requested, matchProvider, side)
    {
      if side == Sell && token != firstTokenId {
        return Reverted;
      }
      var live := GetAddressOrderIds(caller);
      if |live| >= MAX_ORDERS_PER_USER {
        return Reverted;
      }
      var id := GetAndIncreaseOrderIdCounter();
      var order := ChainOrder(id, caller, matchProvider, paid, requested, epoch, side);
      orders := orders[order.id := order];
      addressOrderIds := addressOrderIds[caller := [order.id] + live];
      balance := balance[token := (if token in balance then balance[token] else 0) + paid];
      r := Executed([], [order.id]);
    }

    method GetAndIncreaseOrderIdCounter() returns (id: nat)
      modifies this`orderIdCounter
      ensures id == old(orderIdCounter) && orderIdCounter == (id + 1) % TWO_TO_THE_64
    {
      id := orderIdCounter;
      orderIdCounter := (id + 1) % TWO_TO_THE_64;
    }

    method MatchOrdersExt(takerOrderId: nat, makerOrderIds: seq<nat>) returns (r: TxResult)
      modifies this
      ensures (State(), r) == MatchOrders(old(State()), takerOrderId, makerOrderIds)
    {
      hide Pay, Present, Settlement.Fill;
      if takerOrderId !in orders {
        return Reverted;
      }
      var saved := orders;
      var taker := orders[takerOrderId];
      var transfers, orderIds := [], [takerOrderId];
      ghost var whole := MatchLoop(orders, taker, makerOrderIds, firstTokenId, secondTokenId);
      NothingYet(whole, None);
      assert makerOrderIds[0..] == makerOrderIds;
      for k := 0 to |makerOrderIds|
        invariant unchanged(this`addressOrderIds) && unchanged(this`orderIdCounter) && unchanged(this`balance)
        invariant orderIds == [takerOrderId] + makerOrderIds[..k]
        invariant whole
                    == AfterLegs(transfers, MatchLoop(orders, taker, makerOrderIds[k..], firstTokenId, secondTokenId))
      {
        if makerOrderIds[k] !in orders {
          orders := saved;
          return Reverted;
        }
        var maker := orders[makerOrderIds[k]];
        orderIds := orderIds + [makerOrderIds[k]];
        assert makerOrderIds[k..][1..] == makerOrderIds[k + 1..] && makerOrderIds[k..][0] == makerOrderIds[k];
        var filled := FillLeg(taker, maker);
        if filled.None? {
          orders := saved;
          return Reverted;
        }
        var leg := filled.value;
        LegsAppend(transfers, orders, taker, makerOrderIds[k..], leg, firstTokenId, secondTokenId);
        taker := leg.taker;
        orders := if leg.writesTaker then orders[leg.taker.id := leg.taker] else orders[leg.maker.id := leg.maker];
        var toMaker, toTaker := if taker.side == Sell then firstTokenId else secondTokenId,
                                if taker.side == Sell then secondTokenId else firstTokenId;
        transfers := transfers
            + [Transfer(leg.maker.creator, toMaker, leg.toMaker), Transfer(leg.taker.creator, toTaker, leg.toTaker)];
      }
      assert makerOrderIds[..|makerOrderIds|] == makerOrderIds;
      assert transfers + [] == transfers;
      var ok := ExecuteTransfers(transfers);
      if !ok {
        orders := saved;
        return Reverted;
      }
      var events := LoadOrders(orderIds);
      r := Executed(transfers, events);
    }

    /** The four branches of the loop body, with the amounts updated in place. */
    method FillLeg(takerBefore: ChainOrder, makerBefore: ChainOrder) returns (leg: Option<Leg>)
      ensures leg == Fill(takerBefore, makerBefore)
    {
      var taker, maker := takerBefore, makerBefore;
      var toMaker: nat, toTaker: nat, writesTaker := 0, 0, false;
      if taker.side == Sell {
        if taker.input >= maker.output {
          if taker.input == 0 { return None; }
          var output := RuleOfThree(taker.output, taker.input, maker.output);
          if taker.output < output { return None; }
          toMaker := taker.input;
          toTaker := maker.input;
          taker := taker.(input := taker.input - maker.output);
          taker := taker.(output := taker.output - output);
          writesTaker := true;
        } else {
          var input := RuleOfThree(maker.input, maker.output, taker.input);
          if maker.input < input { return None; }
          maker := maker.(input := maker.input - input);
          maker := maker.(output := maker.output - taker.input);
          toMaker := taker.input;
          toTaker := taker.output;
        }
      } else {
        if taker.output >= maker.input {
          if taker.output == 0 { return None; }
          var output := RuleOfThree(taker.input, taker.output, maker.input);
          if taker.input < output { return None; }
          taker := taker.(input := taker.input - output);
          taker := taker.(output := taker.output - maker.input);
          toMaker := maker.output;
          toTaker := maker.input;
          writesTaker := true;
        } else {
          var output := RuleOfThree(maker.output, maker.input, taker.output);
          if maker.output < output { return None; }
          maker := maker.(input := maker.input - taker.output);
          maker := maker.(output := maker.output - output);
          toMaker := output;
          toTaker := taker.output;
        }
      }
      leg := Some(Leg(taker, maker, toMaker, toTaker, writesTaker));
    }

    /** Cancels one order: the penalty stays, the rest goes back to the caller. */
    method CancelOrder(orderId: nat, caller: Address, epoch: nat) returns (sent: Option<seq<Transfer>>)
      modifies this`orders, this`balance
      ensures var r := CancelOne(old(State()), orderId, caller, epoch);
              && (sent.None? <==> r.None?)
              && (r.Some? ==> State() == r.value.0 && sent.value == r.value.1)
    {
      if orderId !in orders { return None; }
      var order := orders[orderId];
      var tokenId := if order.side == Buy then secondTokenId else firstTokenId;
      var penaltyCount := ((epoch - order.createEpoch) % TWO_TO_THE_64) / FEE_PENALTY_INCREASE_EPOCHS;
      var penaltyPercent := (penaltyCount * FEE_PENALTY_INCREASE_PERCENT) % TWO_TO_THE_64;
      var penaltyAmount := RuleOfThree(penaltyPercent, PERCENT_BASE_POINTS, order.input);
      if order.input < penaltyAmount { return None; }
      var amount := order.input - penaltyAmount;
      orders := orders - {orderId};
      var transfers := [Transfer(caller, tokenId, amount)];
      var ok := ExecuteTransfers(transfers);
      if !ok { return None; }
      sent := Some(transfers);
    }

    /** Frees one order of someone else: at least six periods old, the caller earns the penalty. */
    method FreeOrder(orderId: nat, caller: Address, epoch: nat) returns (sent: Option<seq<Transfer>>)
      modifies this`orders, this`balance
      ensures var r := FreeOne(old(State()), orderId, caller, epoch);
              && (sent.None? <==> r.None?)
              && (r.Some? ==> State() == r.value.0 && sent.value == r.value.1)
    {
      if orderId !in orders { return None; }
      var order := orders[orderId];
      var tokenId := if order.side == Buy then secondTokenId else firstTokenId;
      var penaltyCount := ((epoch - order.createEpoch) % TWO_TO_THE_64) / FEE_PENALTY_INCREASE_EPOCHS;
      if penaltyCount < FREE_ORDER_FROM_STORAGE_MIN_PENALTIES { return None; }
      var penaltyPercent := (penaltyCount * FEE_PENALTY_INCREASE_PERCENT) % TWO_TO_THE_64;
      var penaltyAmount := RuleOfThree(penaltyPercent, PERCENT_BASE_POINTS, order.input);
      if order.input < penaltyAmount { return None; }
      var amount := order.input - penaltyAmount;
      orders := orders - {orderId};
      var transfers := [Transfer(order.creator, tokenId, amount), Transfer(caller, tokenId, penaltyAmount)];
      var ok := ExecuteTransfers(transfers);
      if !ok { return None; }
      sent := Some(transfers);
    }

    /** The removal loop of `cancel_orders` and `free_orders`. */
    method RemoveAll(ids: seq<nat>, caller: Address, epoch: nat, free: bool) returns (sent: Option<seq<Transfer>>)
      modifies this`orders, this`balance
      ensures var r := RemoveLoop(old(State()), ids, caller, epoch, free);
              && (sent.None? <==> r.None?)
              && (r.Some? ==> State() == r.value.0 && sent.value == r.value.1)
    {
      var transfers := [];
      ghost var whole := RemoveLoop(State(), ids, caller, epoch, free);
      NothingYet(None, whole);
      assert ids[0..] == ids;
      for k := 0 to |ids|
        invariant whole == AfterRemovals(transfers, RemoveLoop(State(), ids[k..], caller, epoch, free))
      {
        assert ids[k..][1..] == ids[k + 1..] && ids[k..][0] == ids[k];
        ghost var before := State();
        var one;
        if free {
          one := FreeOrder(ids[k], caller, epoch);
        } else {
          one := CancelOrder(ids[k], caller, epoch);
        }
        if one.None? { return None; }
        RemovalsAppend(transfers, one.value, RemoveLoop(State(), ids[k + 1..], caller, epoch, free));
        transfers := transfers + one.value;
      }
      assert transfers + [] == transfers;
      sent := Some(transfers);
    }

    method CancelListedOrders(caller: Address, epoch: nat, ids: seq<nat>, owned: seq<nat>) returns (r: TxResult)
      requires owned == Live(State(), caller)
      modifies this
      ensures (State(), r) == CancelListed(old(State()), caller, epoch, ids)
    {
      var contained := RequireContainsAll(owned, ids);
      if !contained { return Reverted; }
      var savedOrders, savedBalance := orders, balance;
      var idsNotEmpty := LoadOrders(ids);
      var sent := RemoveAll(idsNotEmpty, caller, epoch, false);
      if sent.None? {
        orders, balance := savedOrders, savedBalance;
        return Reverted;
      }
      var finalCallerOrders := KeepUnowned(idsNotEmpty, owned);
      addressOrderIds := addressOrderIds[caller := finalCallerOrders];
      r := Executed(sent.value, idsNotEmpty);
    }

    method CancelOrders(caller: Address, epoch: nat, ids: seq<nat>) returns (r: TxResult)
      modifies this
      ensures (State(), r) == Settlement.CancelOrders(old(State()), caller, epoch, ids)
    {
      if |ids| == 0 { return Reverted; }
      var owned := GetAddressOrderIds(caller);
      r := CancelListedOrders(caller, epoch, ids, owned);
    }

    method CancelAllOrders(caller: Address, epoch: nat) returns (r: TxResult)
      modifies this
      ensures (State(), r) == CancelAll(old(State()), caller, epoch)
    {
      var owned := GetAddressOrderIds(caller);
      r := CancelListedOrders(caller, epoch, owned, owned);
    }

    method FreeOrders(caller: Address, epoch: nat, ids: seq<nat>) returns (r: TxResult)
      modifies this
      ensures (State(), r) == Settlement.FreeOrders(old(State()), caller, epoch, ids)
    {
      if |ids| == 0 { return Reverted; }
      var owned := GetAddressOrderIds(caller);
      var none := RequireContainsNone(owned, ids);
      if !none { return Reverted; }
      var savedOrders, savedBalance := orders, balance;
      var idsNotEmpty := LoadOrders(ids);
      var sent := RemoveAll(idsNotEmpty, caller, epoch, true);
      if sent.None? {
        orders, balance := savedOrders, savedBalance;
        return Reverted;
      }
      r := Executed(sent.value, idsNotEmpty);
    }
  }
}

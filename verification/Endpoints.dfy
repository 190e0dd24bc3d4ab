/** The contract's own transactions, seen as the actions of the pipeline. */
module Endpoints {
  import opened Orders
  import opened Settlement
  import opened Ownership
  import opened Simulation
  import Books
  import opened Lockstep
  import opened Pipeline

  /** Which tokens a match pays in makes no difference to the orders it stores. */
  lemma {:induction false} TokensMakeNoDifference(orders: map<nat, ChainOrder>, taker: ChainOrder, makers: seq<nat>,
                                                  first: Token, second: Token)
    ensures var r, q := MatchLoop(orders, taker, makers, first, second), MatchLoop(orders, taker, makers, "", "");
            (r.Some? <==> q.Some?) && (r.Some? ==> r.value.orders == q.value.orders && r.value.taker == q.value.taker)
    decreases |makers|
  {
    if makers != [] && makers[0] in orders && Settlement.Fill(taker, orders[makers[0]]).Some? {
      var leg := Settlement.Fill(taker, orders[makers[0]]).value;
      TokensMakeNoDifference(Store(orders, leg), leg.taker, makers[1..], first, second);
    }
  }

  /** A match transaction goes through exactly when its legs do and its transfers are covered, and then stores
      just what the pipeline's execution stores. */
  lemma MatchIsExec(c: Chain, taker: nat, makers: seq<nat>)
    ensures var (after, r) := MatchOrders(c, taker, makers);
            var exec := Exec(c.orders, Submission(taker, makers));
            && (r.Executed? ==> exec == Some(after.orders))
            && (r.Reverted? ==> after == c)
            && (exec.None? ==> r.Reverted?)
            && (exec.Some? ==>
                  var loop := MatchLoop(c.orders, c.orders[taker], makers, c.first, c.second);
                  loop.Some? && (r.Executed? <==> Pay(c.balance, loop.value.transfers).Some?))
  {
    if taker in c.orders {
      TokensMakeNoDifference(c.orders, c.orders[taker], makers, c.first, c.second);
    }
  }

  /** What a transaction of anybody does to the order storage, as an action. */
  function ActionOf(c: Chain, tx: Tx): Action {
    match tx
    case Create(caller, epoch, token, paid, requested, matchProvider, side) =>
      Make(caller, matchProvider, paid, requested, epoch, side)
    case Match(taker, makers) => Intrude(Submission(taker, makers))
    case CancelSome(caller, epoch, ids) => Remove(set id | id in ids)
    case CancelEvery(caller, epoch) => Remove(set id | id in Live(c, caller))
    case Free(caller, epoch, ids) => Remove(set id | id in ids)
  }

  /** Every transaction of the contract that goes through is an action of the pipeline: it leaves the order
      storage and the id counter as the action does. One that does not leaves no trace. */
  lemma TransactionIsAction(c: Chain, s: System, tx: Tx)
    requires Named(c) && c.counter + 1 < TWO_TO_THE_64
    requires s.chain == c.orders && s.counter == c.counter && Books.Good(s.book)
    ensures var (after, r) := Apply(c, tx);
            && Enabled(s, ActionOf(c, tx))
            && (r.Executed? ==>
                var p := Perform(s, ActionOf(c, tx)); p.chain == after.orders && p.counter == after.counter)
            && (r.Reverted? ==> after == c)
  {
    if Apply(c, tx).1.Executed? {
      match tx
      case Create(_, _, _, _, _, _, _) =>
      case Match(taker, makers) => MatchIsExec(c, taker, makers);
      case CancelSome(caller, epoch, ids) => RemovedIsRemove(c, s, ids, caller, epoch, false);
      case CancelEvery(caller, epoch) => RemovedIsRemove(c, s, Live(c, caller), caller, epoch, false);
      case Free(caller, epoch, ids) => RemovedIsRemove(c, s, ids, caller, epoch, true);
    }
  }

  lemma RemovedIsRemove(c: Chain, s: System, ids: seq<nat>, caller: Address, epoch: nat, free: bool)
    requires s.chain == c.orders && RemoveLoop(c, Present(c.orders, ids), caller, epoch, free).Some?
    ensures var after := RemoveLoop(c, Present(c.orders, ids), caller, epoch, free).value.0;
            after.orders == s.chain - (set id | id in ids) && after.counter == c.counter
  {
    PresentIsSublist(c.orders, ids);
    RemoveLoopOnly(c, Present(c.orders, ids), caller, epoch, free);
  }
}

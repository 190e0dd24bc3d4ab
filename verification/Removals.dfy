/** When cancels and frees go through, what they pay, and what they leave: in terms of the state alone. */
module Removals {
  import opened Orders
  import opened Settlement
  import opened Ownership
  import opened Escrow

  /** An id in an address's list that still has an order. */
  ghost predicate Listed(c: Chain, a: Address, id: nat) {
    a in c.index && id in c.index[a] && id in c.orders
  }

  /** What removing an order takes out of the contract: all it put in if it is freed, less the penalty if not. */
  function Owed(o: ChainOrder, epoch: nat, free: bool): int {
    if free then o.input else o.input - Penalty(o, epoch)
  }

  /** What the stored ones of the orders are owed in one token. */
  function Due(c: Chain, ids: seq<nat>, epoch: nat, free: bool, token: Token): int {
    if ids == [] then 0
    else
      (if ids[0] in c.orders && (if c.orders[ids[0]].side == Buy then c.second else c.first) == token
       then Owed(c.orders[ids[0]], epoch, free) else 0)
      + Due(c, ids[1..], epoch, free, token)
  }

  /** The penalty fits into the deposit, and an order to be freed is at least six periods old. */
  ghost predicate Removable(o: ChainOrder, epoch: nat, free: bool) {
    Penalty(o, epoch) <= o.input && (free ==> PenaltyCount(o, epoch) >= 6)
  }

  // ---------- one order ----------

  lemma PaidIff(balance: map<Token, nat>, t: Transfer)
    ensures Pay(balance, [t]).Some? <==> t.amount <= BalanceOf(balance, t.token)
  {
    assert [t][1..] == [];
  }

  lemma BothPaidIff(balance: map<Token, nat>, t: Transfer, u: Transfer)
    requires t.token == u.token
    ensures Pay(balance, [t, u]).Some? <==> t.amount + u.amount <= BalanceOf(balance, t.token)
  {
    assert [t, u][1..] == [u];
    if t.amount <= BalanceOf(balance, t.token) {
      PaidIff(if t.amount > 0 then balance[t.token := BalanceOf(balance, t.token) - t.amount] else balance, u);
    }
  }

  lemma RemoveOneIff(c: Chain, id: nat, caller: Address, epoch: nat, free: bool)
    ensures RemoveOne(c, id, caller, epoch, free).Some?
            <==> && id in c.orders && Removable(c.orders[id], epoch, free)
                 && Owed(c.orders[id], epoch, free) <= BalanceOf(c.balance, RefundToken(c, c.orders[id]))
  {
    hide Pay, Penalty, PenaltyCount, RefundToken;
    if id in c.orders && Penalty(c.orders[id], epoch) <= c.orders[id].input {
      var o := c.orders[id];
      var refund, penalty, token := o.input - Penalty(o, epoch), Penalty(o, epoch), RefundToken(c, o);
      PaidIff(c.balance, Transfer(caller, token, refund));
      BothPaidIff(c.balance, Transfer(o.creator, token, refund), Transfer(caller, token, penalty));
    }
  }

  lemma RemoveOneTakes(c: Chain, id: nat, caller: Address, epoch: nat, free: bool, token: Token)
    requires RemoveOne(c, id, caller, epoch, free).Some?
    ensures id in c.orders
    ensures BalanceOf(RemoveOne(c, id, caller, epoch, free).value.0.balance, token)
            == BalanceOf(c.balance, token)
               - (if RefundToken(c, c.orders[id]) == token then Owed(c.orders[id], epoch, free) else 0)
  {
    var (after, transfers) := RemoveOne(c, id, caller, epoch, free).value;
    var o := c.orders[id];
    RemoveOnePays(c, id, caller, epoch, free);
    hide Penalty, PenaltyCount, RefundToken, Pay;
    PaySome(c.balance, transfers, token);
    var refund, penalty := o.input - Penalty(o, epoch), Penalty(o, epoch);
    if free {
      var t, u := Transfer(o.creator, RefundToken(c, o), refund), Transfer(caller, RefundToken(c, o), penalty);
      assert transfers == [t] + [u];
      PaidTwo(t, u, token);
    } else {
      PaidOne(Transfer(caller, RefundToken(c, o), refund), token);
    }
  }

  // ---------- one after the other ----------

  lemma {:induction false} DueSame(c: Chain, after: Chain, ids: seq<nat>, epoch: nat, free: bool, token: Token)
    requires after.first == c.first && after.second == c.second
    requires forall k :: 0 <= k < |ids| ==>
               (ids[k] in c.orders <==> ids[k] in after.orders)
               && (ids[k] in c.orders ==> c.orders[ids[k]] == after.orders[ids[k]])
    ensures Due(after, ids, epoch, free, token) == Due(c, ids, epoch, free, token)
  {
    if ids != [] {
      DueSame(c, after, ids[1..], epoch, free, token);
    }
  }

  ghost predicate AllRemovable(c: Chain, ids: seq<nat>, epoch: nat, free: bool) {
    forall k :: 0 <= k < |ids| ==> ids[k] in c.orders && Removable(c.orders[ids[k]], epoch, free)
  }

  ghost predicate Covered(c: Chain, ids: seq<nat>, epoch: nat, free: bool) {
    forall token :: Due(c, ids, epoch, free, token) <= BalanceOf(c.balance, token)
  }

  lemma {:induction false} DueIsNonNegative(c: Chain, ids: seq<nat>, epoch: nat, free: bool, token: Token)
    requires AllRemovable(c, ids, epoch, free)
    ensures Due(c, ids, epoch, free, token) >= 0
  {
    hide Penalty, PenaltyCount;
    if ids != [] {
      DueIsNonNegative(c, ids[1..], epoch, free, token);
    }
  }

  /** After the first order is gone, the others are covered exactly when all were. */
  lemma CoveredThen(c: Chain, after: Chain, ids: seq<nat>, caller: Address, epoch: nat, free: bool)
    requires ids != [] && ids[0] !in ids[1..]
    requires RemoveOne(c, ids[0], caller, epoch, free).Some?
    requires after == RemoveOne(c, ids[0], caller, epoch, free).value.0
    ensures Covered(after, ids[1..], epoch, free) <==> Covered(c, ids, epoch, free)
    ensures AllRemovable(after, ids[1..], epoch, free) <==> AllRemovable(c, ids, epoch, free)
  {
    RemoveOneIff(c, ids[0], caller, epoch, free);
    RemoveOneOnly(c, ids[0], caller, epoch, free);
    hide RemoveOne, Removable, Owed, BalanceOf;
    forall token
      ensures Due(after, ids[1..], epoch, free, token) <= BalanceOf(after.balance, token)
              <==> Due(c, ids, epoch, free, token) <= BalanceOf(c.balance, token)
    {
      DueSame(c, after, ids[1..], epoch, free, token);
      RemoveOneTakes(c, ids[0], caller, epoch, free, token);
    }
    assert forall k :: 0 < k < |ids| ==> ids[k] == ids[1..][k - 1];
    hide Due;
  }

  lemma CoveredFirst(c: Chain, ids: seq<nat>, epoch: nat, free: bool)
    requires ids != [] && AllRemovable(c, ids, epoch, free) && Covered(c, ids, epoch, free)
    ensures Owed(c.orders[ids[0]], epoch, free) <= BalanceOf(c.balance, RefundToken(c, c.orders[ids[0]]))
  {
    hide Owed, Removable, BalanceOf;
    var token := RefundToken(c, c.orders[ids[0]]);
    assert AllRemovable(c, ids[1..], epoch, free);
    DueIsNonNegative(c, ids[1..], epoch, free, token);
    assert Due(c, ids, epoch, free, token) <= BalanceOf(c.balance, token);
  }

  /** Orders can be removed one after the other exactly when each is there, once, each can be removed, and the
      balance covers them all. */
  lemma {:induction false} RemoveLoopIff(c: Chain, ids: seq<nat>, caller: Address, epoch: nat, free: bool)
    ensures RemoveLoop(c, ids, caller, epoch, free).Some?
            <==> NoDuplicates(ids) && AllRemovable(c, ids, epoch, free) && Covered(c, ids, epoch, free)
    decreases |ids|
  {
    if ids == [] {
      assert forall token :: Due(c, ids, epoch, free, token) == 0;
    } else {
      RemoveOneIff(c, ids[0], caller, epoch, free);
      assert NoDuplicates(ids) <==> ids[0] !in ids[1..] && NoDuplicates(ids[1..]) by {
        DuplicatesInRest(ids);
      }
      hide RemoveOne, Covered, NoDuplicates;
      if RemoveOne(c, ids[0], caller, epoch, free).Some? {
        var after := RemoveOne(c, ids[0], caller, epoch, free).value.0;
        RemoveOneOnly(c, ids[0], caller, epoch, free);
        RemoveLoopIff(after, ids[1..], caller, epoch, free);
        if ids[0] in ids[1..] {
          assert !AllRemovable(after, ids[1..], epoch, free);
        } else {
          CoveredThen(c, after, ids, caller, epoch, free);
        }
      } else if AllRemovable(c, ids, epoch, free) && Covered(c, ids, epoch, free) {
        CoveredFirst(c, ids, epoch, free);
      }
    }
  }

  lemma DuplicatesInRest(ids: seq<nat>)
    requires ids != []
    ensures NoDuplicates(ids) <==> ids[0] !in ids[1..] && NoDuplicates(ids[1..])
  {
    if NoDuplicates(ids) {
      assert forall k :: 0 <= k < |ids[1..]| ==> ids[1..][k] == ids[k + 1];
    }
    if ids[0] !in ids[1..] && NoDuplicates(ids[1..]) {
      forall i, j | 0 <= i < j < |ids| ensures ids[i] != ids[j] {
        assert ids[j] == ids[1..][j - 1] && (i > 0 ==> ids[i] == ids[1..][i - 1]);
      }
    }
  }

  /** The balance afterwards is lower by what was due. */
  lemma {:induction false} RemoveLoopTakes(c: Chain, ids: seq<nat>, caller: Address, epoch: nat, free: bool,
                                           token: Token)
    requires RemoveLoop(c, ids, caller, epoch, free).Some?
    ensures BalanceOf(RemoveLoop(c, ids, caller, epoch, free).value.0.balance, token)
            == BalanceOf(c.balance, token) - Due(c, ids, epoch, free, token)
    decreases |ids|
  {
    if ids != [] {
      RemoveLoopIff(c, ids, caller, epoch, free);
      RemoveOneOnly(c, ids[0], caller, epoch, free);
      RemoveOneTakes(c, ids[0], caller, epoch, free, token);
      hide RemoveOne, Owed, BalanceOf, Covered;
      var after := RemoveOne(c, ids[0], caller, epoch, free).value.0;
      DueSame(c, after, ids[1..], epoch, free, token);
      RemoveLoopTakes(after, ids[1..], caller, epoch, free, token);
    }
  }

  // ---------- only the stored ones ----------

  lemma {:induction false} DueOfPresent(c: Chain, ids: seq<nat>, epoch: nat, free: bool, token: Token)
    ensures Due(c, Present(c.orders, ids), epoch, free, token) == Due(c, ids, epoch, free, token)
  {
    if ids != [] {
      hide Owed;
      DueOfPresent(c, ids[1..], epoch, free, token);
      var rest := Present(c.orders, ids[1..]);
      assert ([ids[0]] + rest)[1..] == rest && [] + rest == rest;
    }
  }

  lemma {:induction false} PresentOnce(orders: map<nat, ChainOrder>, ids: seq<nat>)
    ensures NoDuplicates(Present(orders, ids))
            <==> StoredOnce(orders, ids)
  {
    if ids != [] {
      var rest := Present(orders, ids[1..]);
      PresentOnce(orders, ids[1..]);
      PresentIsSublist(orders, ids[1..]);
      assert [] + rest == rest;
      if ids[0] in orders {
        DuplicatesInRest([ids[0]] + rest);
        assert ([ids[0]] + rest)[1..] == rest;
      }
      OnceInRest(orders, ids);
      hide Present, NoDuplicates;
    }
  }

  ghost predicate StoredOnce(orders: map<nat, ChainOrder>, ids: seq<nat>) {
    forall j, k :: 0 <= j < k < |ids| && ids[j] == ids[k] ==> ids[j] !in orders
  }

  lemma OnceInRest(orders: map<nat, ChainOrder>, ids: seq<nat>)
    requires ids != []
    ensures StoredOnce(orders, ids)
            <==> StoredOnce(orders, ids[1..]) && (ids[0] in orders ==> ids[0] !in ids[1..])
  {
    if StoredOnce(orders, ids) {
      assert forall k :: 0 <= k < |ids[1..]| ==> ids[1..][k] == ids[k + 1];
    } else {
      var j, k :| 0 <= j < k < |ids| && ids[j] == ids[k] && ids[j] in orders;
      assert ids[k] == ids[1..][k - 1] && (j > 0 ==> ids[j] == ids[1..][j - 1]);
    }
  }

  lemma LiveIsListed(c: Chain, a: Address)
    ensures forall id :: id in Live(c, a) <==> Listed(c, a, id)
  {
    PresentIsSublist(c.orders, Settlement.Indexed(c, a));
  }

  // ---------- whole transactions ----------

  /** A free goes through exactly when it names some order, none that is in its caller's own list, every stored one
      once, each of those at least six periods old with a penalty that fits, and the balance covers what all of them
      put in. */
  lemma FreeExecutesIff(c: Chain, caller: Address, epoch: nat, ids: seq<nat>)
    ensures FreeOrders(c, caller, epoch, ids).1.Executed?
            <==> && ids != [] && (forall k :: 0 <= k < |ids| ==> !Listed(c, caller, ids[k]))
                 && (forall j, k :: 0 <= j < k < |ids| && ids[j] == ids[k] ==> ids[j] !in c.orders)
                 && (forall k :: 0 <= k < |ids| && ids[k] in c.orders ==>
                     && PenaltyCount(c.orders[ids[k]], epoch) >= 6
                     && Penalty(c.orders[ids[k]], epoch) <= c.orders[ids[k]].input)
                 && forall token :: Due(c, ids, epoch, true, token) <= BalanceOf(c.balance, token)
  {
    var freed := Present(c.orders, ids);
    LiveIsListed(c, caller);
    PresentOnce(c.orders, ids);
    PresentIsSublist(c.orders, ids);
    RemoveLoopIff(c, freed, caller, epoch, true);
    forall token ensures Due(c, freed, epoch, true, token) == Due(c, ids, epoch, true, token) {
      DueOfPresent(c, ids, epoch, true, token);
    }
    hide RemoveLoop, Penalty, PenaltyCount, Due, Present, Live, NoDuplicates, Listed;
    PresentRemovable(c, ids, freed, epoch, true);
  }

  lemma PresentRemovable(c: Chain, ids: seq<nat>, present: seq<nat>, epoch: nat, free: bool)
    requires forall id :: id in present <==> id in ids && id in c.orders
    ensures AllRemovable(c, present, epoch, free)
            <==> forall k :: 0 <= k < |ids| && ids[k] in c.orders ==> Removable(c.orders[ids[k]], epoch, free)
  {
    hide Removable;
    if AllRemovable(c, present, epoch, free) {
      forall k | 0 <= k < |ids| && ids[k] in c.orders ensures Removable(c.orders[ids[k]], epoch, free) {
        assert ids[k] in present;
      }
    } else {
      var k :| 0 <= k < |present| && !(present[k] in c.orders && Removable(c.orders[present[k]], epoch, free));
      assert present[k] in present;
      var j :| 0 <= j < |ids| && ids[j] == present[k];
    }
  }

  /** What a free pays and leaves: each stored order's creator what it put in less the penalty, the caller the
      penalty; the orders are gone, each with an event, and nothing else changes. */
  lemma FreePays(c: Chain, caller: Address, epoch: nat, ids: seq<nat>)
    requires FreeOrders(c, caller, epoch, ids).1.Executed?
    ensures var (after, r) := FreeOrders(c, caller, epoch, ids);
            && r.events == Present(c.orders, ids) && |r.transfers| == 2 * |r.events|
            && (forall k :: 0 <= k < |r.events| ==>
                 && r.events[k] in c.orders
                 && var o := c.orders[r.events[k]];
                    var token := if o.side == Buy then c.second else c.first;
                    && Penalty(o, epoch) <= o.input
                    && r.transfers[2 * k] == Transfer(o.creator, token, o.input - Penalty(o, epoch))
                    && r.transfers[2 * k + 1] == Transfer(caller, token, Penalty(o, epoch)))
            && after == c.(orders := after.orders, balance := after.balance)
            && after.orders == (map id | id in c.orders && id !in ids :: c.orders[id])
            && forall token :: BalanceOf(after.balance, token)
                               == BalanceOf(c.balance, token) - Due(c, ids, epoch, true, token)
  {
    var freed := Present(c.orders, ids);
    PresentIsSublist(c.orders, ids);
    RemoveLoopOnly(c, freed, caller, epoch, true);
    FreedPays(c, freed, caller, epoch);
    hide Penalty, PenaltyCount, RemoveLoop, Present, Live, BalanceOf, Due;
    forall token
      ensures BalanceOf(FreeOrders(c, caller, epoch, ids).0.balance, token)
              == BalanceOf(c.balance, token) - Due(c, ids, epoch, true, token)
    {
      DueOfPresent(c, ids, epoch, true, token);
      RemoveLoopTakes(c, freed, caller, epoch, true, token);
    }
  }

  lemma FreedPays(c: Chain, ids: seq<nat>, caller: Address, epoch: nat)
    requires RemoveLoop(c, ids, caller, epoch, true).Some?
    ensures var transfers := RemoveLoop(c, ids, caller, epoch, true).value.1;
            && |transfers| == 2 * |ids|
            && forall k :: 0 <= k < |ids| ==>
                 && ids[k] in c.orders
                 && var o := c.orders[ids[k]];
                    var token := if o.side == Buy then c.second else c.first;
                    && Penalty(o, epoch) <= o.input
                    && transfers[2 * k] == Transfer(o.creator, token, o.input - Penalty(o, epoch))
                    && transfers[2 * k + 1] == Transfer(caller, token, Penalty(o, epoch))
  {
    if ids != [] {
      RemoveLoopPays(c, ids, caller, epoch, true, 0);
    }
    hide RemoveLoop, Penalty, PenaltyCount;
    forall k | 0 <= k < |ids|
      ensures ids[k] in c.orders
      ensures var transfers, o := RemoveLoop(c, ids, caller, epoch, true).value.1, c.orders[ids[k]];
              var token := if o.side == Buy then c.second else c.first;
              && |transfers| == 2 * |ids| && Penalty(o, epoch) <= o.input
              && transfers[2 * k] == Transfer(o.creator, token, o.input - Penalty(o, epoch))
              && transfers[2 * k + 1] == Transfer(caller, token, Penalty(o, epoch))
    {
      RemoveLoopPays(c, ids, caller, epoch, true, k);
    }
  }

  /** A cancel goes through exactly when all it names are in its caller's own list, each once, with penalties that
      fit, and the balance covers what is left of them. The endpoint for given orders asks for one at least. */
  lemma CancelExecutesIff(c: Chain, caller: Address, epoch: nat, ids: seq<nat>)
    ensures CancelListed(c, caller, epoch, ids).1.Executed?
            <==> && (forall k :: 0 <= k < |ids| ==> Listed(c, caller, ids[k])) && NoDuplicates(ids)
                 && (forall k :: 0 <= k < |ids| && ids[k] in c.orders ==>
                     Penalty(c.orders[ids[k]], epoch) <= c.orders[ids[k]].input)
                 && forall token :: Due(c, ids, epoch, false, token) <= BalanceOf(c.balance, token)
    ensures CancelOrders(c, caller, epoch, ids).1.Executed?
            <==> ids != [] && CancelListed(c, caller, epoch, ids).1.Executed?
    ensures CancelAll(c, caller, epoch) == CancelListed(c, caller, epoch, Live(c, caller))
  {
    LiveIsListed(c, caller);
    RemoveLoopIff(c, ids, caller, epoch, false);
    hide RemoveLoop, Penalty, PenaltyCount, Due, Live, NoDuplicates, KeptIds;
    if ContainsAll(Live(c, caller), ids) {
      assert forall k :: 0 <= k < |ids| ==> Listed(c, caller, ids[k]);
      AllPresent(c.orders, ids, Live(c, caller));
    }
  }

  /** What a cancel leaves: the events are of the orders it names, the balance lower by what was due. */
  lemma CancelLeaves(c: Chain, caller: Address, epoch: nat, ids: seq<nat>, token: Token)
    requires CancelListed(c, caller, epoch, ids).1.Executed?
    ensures var (after, r) := CancelListed(c, caller, epoch, ids);
            && r.events == ids
            && BalanceOf(after.balance, token) == BalanceOf(c.balance, token) - Due(c, ids, epoch, false, token)
  {
    LiveIsListed(c, caller);
    AllPresent(c.orders, ids, Live(c, caller));
    RemoveLoopTakes(c, ids, caller, epoch, false, token);
  }
}

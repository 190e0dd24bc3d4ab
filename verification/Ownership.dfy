/** The contract's ownership index over every run: an address lists only its own orders, ids are never
    reused, and so every cancel refund goes to the creator of the order. */
module Ownership {
  import opened Orders
  import opened Settlement

  ghost predicate NoDuplicates(ids: seq<nat>) {
    forall i, j :: 0 <= i < j < |ids| ==> ids[i] != ids[j]
  }

  /** Orders are stored under their own ids, all below the counter. */
  ghost predicate Named(c: Chain) {
    forall id :: id in c.orders ==> c.orders[id].id == id && id < c.counter
  }

  /** A list holds distinct ids that were given out, at most a hundred; its live ones belong to `owner`. */
  ghost predicate OwnList(c: Chain, owner: Address, ids: seq<nat>) {
    && NoDuplicates(ids) && |ids| <= MAX_ORDERS_PER_USER
    && forall k :: 0 <= k < |ids| ==> ids[k] < c.counter && (ids[k] in c.orders ==> c.orders[ids[k]].creator == owner)
  }

  ghost predicate Sound(c: Chain) {
    Named(c) && forall a :: a in c.index ==> OwnList(c, a, c.index[a])
  }

  // ---------- filtering ----------

  lemma {:induction false} PresentIsSublist(orders: map<nat, ChainOrder>, ids: seq<nat>)
    ensures var p := Present(orders, ids);
            && |p| <= |ids| && (NoDuplicates(ids) ==> NoDuplicates(p))
            && (forall id :: id in p <==> id in ids && id in orders)
  {
    if ids != [] {
      PresentIsSublist(orders, ids[1..]);
      var rest := Present(orders, ids[1..]);
      assert ids == [ids[0]] + ids[1..];
      if NoDuplicates(ids) {
        forall k | 0 <= k < |rest| ensures rest[k] != ids[0] {
          assert rest[k] in rest && rest[k] in ids[1..];
        }
      }
    }
  }

  /** Ids the caller owns are never kept: a cancel writes back the empty list. */
  lemma {:induction false} NothingKept(cancelled: seq<nat>, owned: seq<nat>)
    requires ContainsAll(owned, cancelled)
    ensures KeptIds(cancelled, owned) == []
  {
    if cancelled != [] {
      NothingKept(cancelled[1..], owned);
    }
  }

  lemma LiveIsOwn(c: Chain, a: Address)
    requires Sound(c)
    ensures OwnList(c, a, Live(c, a))
    ensures forall id :: id in Live(c, a) ==> id in c.orders && c.orders[id].creator == a
  {
    PresentIsSublist(c.orders, Settlement.Indexed(c, a));
    var live, ids := Live(c, a), Settlement.Indexed(c, a);
    forall id | id in live ensures id < c.counter && id in c.orders && c.orders[id].creator == a {
      var k :| 0 <= k < |ids| && ids[k] == id;
    }
    forall k | 0 <= k < |live| ensures live[k] in live {
    }
  }

  // ---------- what a match leaves alone ----------

  /** Only the two amounts may differ. */
  ghost predicate SameIdentity(o: ChainOrder, after: ChainOrder) {
    after == o.(input := after.input, output := after.output)
  }

  ghost predicate SameOrders(before: map<nat, ChainOrder>, after: map<nat, ChainOrder>) {
    after.Keys == before.Keys && forall id :: id in before ==> SameIdentity(before[id], after[id])
  }

  lemma LegKeepsIdentity(taker: ChainOrder, maker: ChainOrder)
    requires Fill(taker, maker).Some?
    ensures SameIdentity(taker, Fill(taker, maker).value.taker) && SameIdentity(maker, Fill(taker, maker).value.maker)
  {
  }

  lemma {:induction false} MatchKeepsOrders(orders: map<nat, ChainOrder>, taker: ChainOrder, makers: seq<nat>,
                                            first: Token, second: Token)
    requires forall id :: id in orders ==> orders[id].id == id
    requires taker.id in orders && SameIdentity(orders[taker.id], taker)
    requires MatchLoop(orders, taker, makers, first, second).Some?
    ensures SameOrders(orders, MatchLoop(orders, taker, makers, first, second).value.orders)
    decreases |makers|
  {
    if makers != [] {
      var leg := Fill(taker, orders[makers[0]]).value;
      LegKeepsIdentity(taker, orders[makers[0]]);
      var stored := Store(orders, leg);
      assert SameOrders(orders, stored);
      MatchKeepsOrders(stored, leg.taker, makers[1..], first, second);
    }
  }

  // ---------- what removing does ----------

  /** Removing keeps every other order, and only ever pays out. */
  ghost predicate RemovedOnly(c: Chain, after: Chain, ids: seq<nat>) {
    && after == c.(orders := after.orders, balance := after.balance)
    && after.orders == map id | id in c.orders && id !in ids :: c.orders[id]
  }

  lemma RemoveOneOnly(c: Chain, id: nat, caller: Address, epoch: nat, free: bool)
    requires RemoveOne(c, id, caller, epoch, free).Some?
    ensures RemovedOnly(c, RemoveOne(c, id, caller, epoch, free).value.0, [id])
    ensures id in c.orders
  {
  }

  lemma {:induction false} RemoveLoopOnly(c: Chain, ids: seq<nat>, caller: Address, epoch: nat, free: bool)
    requires RemoveLoop(c, ids, caller, epoch, free).Some?
    ensures RemovedOnly(c, RemoveLoop(c, ids, caller, epoch, free).value.0, ids)
    decreases |ids|
  {
    if ids != [] {
      RemoveOneOnly(c, ids[0], caller, epoch, free);
      var after := RemoveOne(c, ids[0], caller, epoch, free).value.0;
      RemoveLoopOnly(after, ids[1..], caller, epoch, free);
      assert forall id :: id in ids <==> id == ids[0] || id in ids[1..];
    }
  }

  // ---------- one transaction ----------

  /** The index stays sound when orders only disappear or change their amounts. */
  lemma SoundAfter(c: Chain, after: Chain)
    requires Sound(c) && after.counter == c.counter && Named(after)
    requires forall id :: id in after.orders ==> id in c.orders && after.orders[id].creator == c.orders[id].creator
    requires forall a :: a in after.index ==> after.index[a] == [] || (a in c.index && after.index[a] == c.index[a])
    ensures Sound(after)
  {
  }

  lemma MatchSound(c: Chain, taker: nat, makers: seq<nat>)
    requires Sound(c)
    ensures var after := MatchOrders(c, taker, makers).0; Sound(after) && SameOrders(c.orders, after.orders)
  {
    var (after, result) := MatchOrders(c, taker, makers);
    if result.Executed? {
      MatchKeepsOrders(c.orders, c.orders[taker], makers, c.first, c.second);
      SoundAfter(c, after);
    }
  }

  lemma HeadKeepsOwnList(c: Chain, after: Chain, owner: Address, live: seq<nat>)
    requires OwnList(c, owner, live) && |live| < MAX_ORDERS_PER_USER && after.counter == c.counter + 1
    requires c.counter in after.orders && after.orders[c.counter].creator == owner
    requires forall id :: id in after.orders && id != c.counter ==> id in c.orders && after.orders[id] == c.orders[id]
    ensures OwnList(after, owner, [c.counter] + live)
  {
    var ids := [c.counter] + live;
    assert forall k :: 0 <= k < |ids| ==> ids[k] == if k == 0 then c.counter else live[k - 1];
  }

  lemma CreateSound(c: Chain, caller: Address, epoch: nat, token: Token, paid: nat, requested: nat,
                    matchProvider: Address, side: Side)
    requires Sound(c) && c.counter + 1 < TWO_TO_THE_64
    ensures Sound(CreateOrder(c, caller, epoch, token, paid, requested, matchProvider, side).0)
  {
    var (after, result) := CreateOrder(c, caller, epoch, token, paid, requested, matchProvider, side);
    if result.Executed? {
      LiveIsOwn(c, caller);
      hide Live;
      HeadKeepsOwnList(c, after, caller, Live(c, caller));
      forall a | a in after.index ensures OwnList(after, a, after.index[a]) {
        if a != caller {
          assert OwnList(c, a, c.index[a]);
        }
      }
    }
  }

  /** An executed cancel: the listed orders are gone and the caller's list is empty. */
  lemma CancelShape(c: Chain, caller: Address, epoch: nat, ids: seq<nat>)
    requires CancelListed(c, caller, epoch, ids).1.Executed?
    ensures var after := CancelListed(c, caller, epoch, ids).0;
            && after == c.(orders := after.orders, balance := after.balance, index := c.index[caller := []])
            && after.orders == map id | id in c.orders && id !in ids :: c.orders[id]
  {
    hide Live, Penalty, RemoveLoop, Present, KeptIds;
    var cancelled := Present(c.orders, ids);
    PresentIsSublist(c.orders, ids);
    assert forall k :: 0 <= k < |cancelled| ==> cancelled[k] in cancelled;
    NothingKept(cancelled, Live(c, caller));
    RemoveLoopOnly(c, cancelled, caller, epoch, false);
  }

  lemma CancelSound(c: Chain, caller: Address, epoch: nat, ids: seq<nat>)
    requires Sound(c)
    ensures var after := CancelListed(c, caller, epoch, ids).0;
            Sound(after) && after.counter == c.counter
  {
    if CancelListed(c, caller, epoch, ids).1.Executed? {
      CancelShape(c, caller, epoch, ids);
      hide CancelListed;
      SoundAfter(c, CancelListed(c, caller, epoch, ids).0);
    }
  }

  lemma FreeSound(c: Chain, caller: Address, epoch: nat, ids: seq<nat>)
    requires Sound(c)
    ensures Sound(FreeOrders(c, caller, epoch, ids).0)
  {
    var (after, result) := FreeOrders(c, caller, epoch, ids);
    if result.Executed? {
      RemoveLoopOnly(c, Present(c.orders, ids), caller, epoch, true);
      SoundAfter(c, after);
    }
  }

  // ---------- whole runs ----------

  lemma ApplySound(c: Chain, tx: Tx)
    requires Sound(c) && c.counter + 1 < TWO_TO_THE_64
    ensures Sound(Apply(c, tx).0)
    ensures c.counter <= Apply(c, tx).0.counter <= c.counter + 1
  {
    match tx
    case Create(caller, epoch, token, paid, requested, matchProvider, side) =>
      CreateSound(c, caller, epoch, token, paid, requested, matchProvider, side);
    case Match(taker, makers) => MatchSound(c, taker, makers);
    case CancelSome(caller, epoch, ids) => CancelSound(c, caller, epoch, ids);
    case CancelEvery(caller, epoch) => CancelSound(c, caller, epoch, Live(c, caller));
    case Free(caller, epoch, ids) =>
      FreeSound(c, caller, epoch, ids);
      if FreeOrders(c, caller, epoch, ids).1.Executed? {
        RemoveLoopOnly(c, Present(c.orders, ids), caller, epoch, true);
      }
  }

  /** As long as fewer than 2^64 orders have been made, every reachable state is sound. */
  lemma {:induction false} RunSound(c: Chain, txs: seq<Tx>)
    requires Sound(c) && c.counter + |txs| < TWO_TO_THE_64
    ensures Sound(Run(c, txs)) && c.counter <= Run(c, txs).counter <= c.counter + |txs|
    decreases |txs|
  {
    if txs != [] {
      ApplySound(c, txs[0]);
      RunSound(Apply(c, txs[0]).0, txs[1..]);
    }
  }

  lemma DeployedSound(first: Token, second: Token)
    ensures Sound(Deployed(first, second))
  {
  }

  /** From deployment on, whatever is called: each list holds distinct ids given out, at most a hundred, and of
      its live ones only its owner's. */
  lemma SoundFromDeployment(first: Token, second: Token, txs: seq<Tx>)
    requires |txs| < TWO_TO_THE_64
    ensures Sound(Run(Deployed(first, second), txs)) && Run(Deployed(first, second), txs).counter <= |txs|
  {
    DeployedSound(first, second);
    RunSound(Deployed(first, second), txs);
  }

  /** A transaction adds at most the order named by the counter, and never changes who an order is. */
  lemma ApplyKeepsOrders(c: Chain, tx: Tx)
    requires Sound(c)
    ensures var after := Apply(c, tx).0;
            forall id :: id in after.orders ==>
              if id in c.orders && id != c.counter then SameIdentity(c.orders[id], after.orders[id])
                  else id == c.counter
  {
    match tx
    case Create(caller, epoch, token, paid, requested, matchProvider, side) =>
    case Match(taker, makers) => MatchSound(c, taker, makers);
    case CancelSome(caller, epoch, ids) =>
      if CancelOrders(c, caller, epoch, ids).1.Executed? { CancelShape(c, caller, epoch, ids); }
    case CancelEvery(caller, epoch) =>
      if CancelAll(c, caller, epoch).1.Executed? { CancelShape(c, caller, epoch, Live(c, caller)); }
    case Free(caller, epoch, ids) =>
      if FreeOrders(c, caller, epoch, ids).1.Executed? {
        RemoveLoopOnly(c, Present(c.orders, ids), caller, epoch, true);
      }
  }

  /** An id once given out names the same order for ever: it keeps creator, type and epoch while it lasts,
      and once gone it never comes back. */
  lemma {:induction false} NeverReused(c: Chain, txs: seq<Tx>, id: nat)
    requires Sound(c) && c.counter + |txs| < TWO_TO_THE_64 && id < c.counter
    ensures var after := Run(c, txs);
            id in after.orders ==> id in c.orders && SameIdentity(c.orders[id], after.orders[id])
    decreases |txs|
  {
    if txs != [] {
      ApplySound(c, txs[0]);
      ApplyKeepsOrders(c, txs[0]);
      NeverReused(Apply(c, txs[0]).0, txs[1..], id);
    }
  }

  /** From deployment on: an id given out names one order for ever, however the run goes on. */
  lemma IssuedOnce(first: Token, second: Token, txs: seq<Tx>, more: seq<Tx>, id: nat)
    requires |txs| + |more| < TWO_TO_THE_64 && id < Run(Deployed(first, second), txs).counter
    ensures var before := Run(Deployed(first, second), txs);
            var after := Run(before, more);
            id in after.orders ==> id in before.orders && SameIdentity(before.orders[id], after.orders[id])
  {
    SoundFromDeployment(first, second, txs);
    NeverReused(Run(Deployed(first, second), txs), more, id);
  }

  // ---------- refunds ----------

  lemma RemoveOnePays(c: Chain, id: nat, caller: Address, epoch: nat, free: bool)
    requires RemoveOne(c, id, caller, epoch, free).Some?
    ensures id in c.orders
    ensures var (after, transfers), o := RemoveOne(c, id, caller, epoch, free).value, c.orders[id];
            && (forall u: ChainOrder :: RefundToken(after, u) == RefundToken(c, u))
            && Penalty(o, epoch) <= o.input
            && if free then
                 && transfers == [Transfer(o.creator, RefundToken(c, o), o.input - Penalty(o, epoch)),
                                  Transfer(caller, RefundToken(c, o), Penalty(o, epoch))]
                 && PenaltyCount(o, epoch) >= FREE_ORDER_FROM_STORAGE_MIN_PENALTIES
               else
                 transfers == [Transfer(caller, RefundToken(c, o), o.input - Penalty(o, epoch))]
  {
    hide Pay, Penalty, PenaltyCount;
  }

  lemma {:induction false} RemoveLoopPays(c: Chain, ids: seq<nat>, caller: Address, epoch: nat, free: bool, k: nat)
    requires RemoveLoop(c, ids, caller, epoch, free).Some? && k < |ids|
    ensures NoDuplicates(ids) && ids[k] in c.orders
    ensures var transfers, o := RemoveLoop(c, ids, caller, epoch, free).value.1, c.orders[ids[k]];
            && Penalty(o, epoch) <= o.input
            && if free then
                 && |transfers| == 2 * |ids|
                 && transfers[2 * k] == Transfer(o.creator, RefundToken(c, o), o.input - Penalty(o, epoch))
                 && transfers[2 * k + 1] == Transfer(caller, RefundToken(c, o), Penalty(o, epoch))
                 && PenaltyCount(o, epoch) >= FREE_ORDER_FROM_STORAGE_MIN_PENALTIES
               else
                 |transfers| == |ids|
                     && transfers[k] == Transfer(caller, RefundToken(c, o), o.input - Penalty(o, epoch))
    decreases |ids|
  {
    hide RemoveOne, Penalty, PenaltyCount, RefundToken;
    RemoveOneOnly(c, ids[0], caller, epoch, free);
    RemoveOnePays(c, ids[0], caller, epoch, free);
    var after := RemoveOne(c, ids[0], caller, epoch, free).value.0;
    if |ids| > 1 {
      RemoveLoopOnly(after, ids[1..], caller, epoch, free);
      RemoveLoopPays(after, ids[1..], caller, epoch, free, if k > 0 then k - 1 else 0);
      forall j | 1 <= j < |ids| ensures ids[j] != ids[0] {
        RemoveLoopPays(after, ids[1..], caller, epoch, free, j - 1);
        assert ids[j] == ids[1..][j - 1];
      }
    }
  }

  /** A cancel pays the caller for orders the caller created, each once: its whole escrow less the penalty. */
  lemma CancelPaysCreator(c: Chain, caller: Address, epoch: nat, ids: seq<nat>)
    requires Sound(c) && CancelListed(c, caller, epoch, ids).1.Executed?
    ensures var transfers := CancelListed(c, caller, epoch, ids).1.transfers;
            && |transfers| == |ids| && NoDuplicates(ids)
            && forall k :: 0 <= k < |ids| ==>
                 && ids[k] in c.orders && c.orders[ids[k]].creator == caller
                 && var o := c.orders[ids[k]];
                    Penalty(o, epoch) <= o.input
                    && transfers[k] == Transfer(o.creator, RefundToken(c, o), o.input - Penalty(o, epoch))
  {
    LiveIsOwn(c, caller);
    AllPresent(c.orders, ids, Live(c, caller));
    forall k | 0 <= k < |ids|
      ensures ids[k] in c.orders && c.orders[ids[k]].creator == caller
      ensures NoDuplicates(ids)
    {
      assert ids[k] in Live(c, caller);
      RemoveLoopPays(c, ids, caller, epoch, false, k);
    }
    forall k | 0 <= k < |ids|
      ensures var transfers, o := CancelListed(c, caller, epoch, ids).1.transfers, c.orders[ids[k]];
              |transfers| == |ids| && Penalty(o, epoch) <= o.input
              && transfers[k] == Transfer(o.creator, RefundToken(c, o), o.input - Penalty(o, epoch))
    {
      RemoveLoopPays(c, ids, caller, epoch, false, k);
    }
  }

  lemma {:induction false} AllPresent(orders: map<nat, ChainOrder>, ids: seq<nat>, owned: seq<nat>)
    requires ContainsAll(owned, ids) && forall id :: id in owned ==> id in orders
    ensures Present(orders, ids) == ids
  {
    if ids != [] {
      AllPresent(orders, ids[1..], owned);
    }
  }

  lemma {:induction false} PresentSame(orders: map<nat, ChainOrder>, after: map<nat, ChainOrder>, ids: seq<nat>)
    requires forall k :: 0 <= k < |ids| ==> (ids[k] in orders <==> ids[k] in after)
    ensures Present(after, ids) == Present(orders, ids)
  {
    if ids != [] {
      PresentSame(orders, after, ids[1..]);
    }
  }

  /** A create goes through exactly for a caller with fewer than a hundred live orders who, selling, pays in
      the first token; it puts the new order, as asked for, at the head of the caller's live list and changes
      nobody else's. */
  lemma CreateListed(c: Chain, caller: Address, epoch: nat, token: Token, paid: nat, requested: nat,
                     matchProvider: Address, side: Side)
    requires Sound(c)
    ensures var (after, r) := CreateOrder(c, caller, epoch, token, paid, requested, matchProvider, side);
            && (r.Executed? <==> |Live(c, caller)| < 100 && (side == Buy || token == c.first))
            && (r.Executed? ==>
                  && c.counter !in c.orders
                  && after.orders
                      == c.orders[c.counter := ChainOrder(c.counter, caller, matchProvider, paid, requested, epoch,
                      side)]
                  && Live(after, caller) == [c.counter] + Live(c, caller)
                  && forall a :: a != caller ==> Live(after, a) == Live(c, a))
  {
    var (after, r) := CreateOrder(c, caller, epoch, token, paid, requested, matchProvider, side);
    if r.Executed? {
      var live := Live(c, caller);
      LiveIsOwn(c, caller);
      AllPresent(after.orders, live, live);
      assert ([c.counter] + live)[1..] == live;
      forall a | a != caller ensures Live(after, a) == Live(c, a) {
        assert a in c.index ==> OwnList(c, a, c.index[a]);
        PresentSame(c.orders, after.orders, Settlement.Indexed(c, a));
      }
    }
  }

  /** A create that goes through takes what is paid and pays nothing, counts one id up, and emits the one event of
      the new order; one that does not leaves everything as it was. */
  lemma CreateTakes(c: Chain, caller: Address, epoch: nat, token: Token, paid: nat, requested: nat,
                    matchProvider: Address, side: Side)
    ensures var (after, r) := CreateOrder(c, caller, epoch, token, paid, requested, matchProvider, side);
            && (r.Reverted? ==> after == c)
            && (r.Executed? ==>
                  && r.transfers == [] && r.events == [c.counter]
                  && after.counter == (c.counter + 1) % 0x1_0000_0000_0000_0000
                  && after.first == c.first && after.second == c.second
                  && forall t :: BalanceOf(after.balance, t)
                                 == BalanceOf(c.balance, t) + (if t == token then paid else 0))
  {
    hide Live;
  }

  /** Every maker gets paid in the token it asked for and the taker, once per maker, in the other. */
  lemma {:induction false} MatchPays(orders: map<nat, ChainOrder>, taker: ChainOrder, makers: seq<nat>, first: Token,
                                     second: Token, k: nat)
    requires forall id :: id in orders ==> orders[id].id == id
    requires taker.id in orders && SameIdentity(orders[taker.id], taker)
    requires MatchLoop(orders, taker, makers, first, second).Some? && k < |makers|
    ensures makers[k] in orders
    ensures var transfers := MatchLoop(orders, taker, makers, first, second).value.transfers;
            var (asked, other) := if taker.side == Buy then (second, first) else (first, second);
            && |transfers| == 2 * |makers|
            && transfers[2 * k].to == orders[makers[k]].creator && transfers[2 * k].token == asked
            && transfers[2 * k + 1].to == taker.creator && transfers[2 * k + 1].token == other
    decreases |makers|
  {
    var leg := Fill(taker, orders[makers[0]]).value;
    LegKeepsIdentity(taker, orders[makers[0]]);
    HeadPays(leg, first, second);
    hide Fill, LegTransfers;
    var stored, rest := Store(orders, leg), makers[1..];
    var head, tail := LegTransfers(leg, first, second),
        MatchLoop(stored, leg.taker, rest, first, second).value.transfers;
    assert MatchLoop(orders, taker, makers, first, second).value.transfers == head + tail;
    if rest != [] {
      MatchPays(stored, leg.taker, rest, first, second, if k > 0 then k - 1 else 0);
    }
    PairAt(head, tail, k);
  }

  lemma PairAt(head: seq<Transfer>, tail: seq<Transfer>, k: nat)
    requires |head| == 2 && 2 * k + 1 < |head| + |tail|
    ensures k == 0 ==> (head + tail)[2 * k] == head[0] && (head + tail)[2 * k + 1] == head[1]
    ensures k > 0 ==> (head + tail)[2 * k] == tail[2 * (k - 1)] && (head + tail)[2 * k + 1] == tail[2 * (k - 1) + 1]
  {
  }

  lemma HeadPays(leg: Leg, first: Token, second: Token)
    ensures var head := LegTransfers(leg, first, second);
            var (asked, other) := if leg.taker.side == Buy then (second, first) else (first, second);
            && |head| == 2
            && head[0].to == leg.maker.creator && head[0].token == asked
            && head[1].to == leg.taker.creator && head[1].token == other
  {
  }
}

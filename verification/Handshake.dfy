/** The event-counting handshake: matches submitted to the chain, the events they emit, and the one
    UPDATE per transaction that comes back to finish a row of the match table. */
module Handshake {
  import opened Orders
  import opened MatchTables
  import Settlement

  type Hash = string

  // ---------- the notifier ----------

  /** What the notifier knows of a transaction: how many events to expect and those it has. */
  datatype Wait = Wait(needed: int, received: seq<OrderId>)

  datatype Update = Update(market: MarketId, orders: seq<OrderId>)

  /** `waiting` by transaction hash; `pushed` is every UPDATE ever sent to the engine. */
  datatype Notifier = Notifier(waiting: map<Hash, Wait>, pushed: seq<Update>)

  function Register(n: Notifier, hash: Hash, needed: int): Notifier {
    n.(waiting := n.waiting[hash := Wait(needed, [])])
  }

  /** An event of a hash not registered would be a nil dereference. */
  function Receive(n: Notifier, hash: Hash, market: MarketId, id: OrderId): Notifier
    requires hash in n.waiting
  {
    var w := n.waiting[hash];
    var received := w.received + [id];
    Notifier(n.waiting[hash := w.(received := received)],
             if w.needed == |received| then n.pushed + [Update(market, received)] else n.pushed)
  }

  // ---------- the system ----------

  datatype Outcome = Unsettled | Failed | Done(events: seq<OrderId>)

  /** A submitted match on its way: sent under a hash, announced to the notifier, settled by the contract,
      its events delivered one by one. */
  datatype Tx = Tx(market: MarketId, taker: OrderId, makers: seq<OrderId>, hash: Option<Hash>, registered: bool,
                   outcome: Outcome, delivered: nat)
  {
    function Orders(): seq<OrderId> { [taker] + makers }

    predicate Complete() { outcome.Done? && delivered == |outcome.events| }
  }

  /** `log` names the transaction behind each UPDATE; `confirmed` counts those the engine has processed;
      `down` is the whole engine process after a nil dereference in the notifier. */
  datatype World = World(txs: seq<Tx>, rows: seq<MatchRecord>, notifier: Notifier, log: seq<nat>, confirmed: nat,
                         down: bool)

  const INITIAL := World([], [], Notifier(map[], []), [], 0, false)

  datatype Action =
    | Submit(row: MatchRecord)
    | Send(i: nat, hash: Hash)
    | Announce(i: nat)
    | Settle(i: nat, contract: Settlement.Chain)
    | Deliver(i: nat)
    | Stray(hash: Hash)
    | Process

  predicate Unused(w: World, hash: Hash) {
    forall j :: 0 <= j < |w.txs| ==> w.txs[j].hash != Some(hash)
  }

  /** Hashes are unique; the contract may be in any state when a match reaches it; events come at any time after
      their transaction has settled, in order within it and in any order across transactions; and a match
      somebody else called brings an event of a hash that is nobody's here. */
  predicate Enabled(w: World, a: Action) {
    match a
    case Submit(row) => !w.down && !row.finished
    case Send(i, hash) => !w.down && i < |w.txs| && w.txs[i].hash.None? && Unused(w, hash)
    case Announce(i) => !w.down && i < |w.txs| && w.txs[i].hash.Some? && !w.txs[i].registered
    case Settle(i, _) => i < |w.txs| && w.txs[i].hash.Some? && w.txs[i].outcome.Unsettled?
    case Deliver(i) =>
      && !w.down && i < |w.txs| && w.txs[i].hash.Some?
      && w.txs[i].outcome.Done? && w.txs[i].delivered < |w.txs[i].outcome.events|
    case Stray(hash) => !w.down && Unused(w, hash)
    case Process => !w.down && w.confirmed < |w.notifier.pushed|
  }

  function OutcomeOf(r: Settlement.TxResult): Outcome {
    if r.Executed? then Done(r.events) else Failed
  }

  /** The next event of a transaction the notifier knows. */
  function Heard(w: World, i: nat): World
    requires i < |w.txs| && w.txs[i].hash.Some? && w.txs[i].hash.value in w.notifier.waiting
    requires w.txs[i].outcome.Done? && w.txs[i].delivered < |w.txs[i].outcome.events|
  {
    var t := w.txs[i];
    var notifier := Receive(w.notifier, t.hash.value, t.market, t.outcome.events[t.delivered]);
    w.(txs := w.txs[i := t.(delivered := t.delivered + 1)], notifier := notifier,
       log := if |notifier.pushed| > |w.notifier.pushed| then w.log + [i] else w.log)
  }

  function Perform(w: World, a: Action): World
    requires Enabled(w, a)
  {
    match a
    case Submit(row) =>
      w.(txs := w.txs + [Tx(row.market, row.taker, row.makers, None, false, Unsettled, 0)], rows := w.rows + [row])
    case Send(i, hash) => w.(txs := w.txs[i := w.txs[i].(hash := Some(hash))])
    case Announce(i) =>
      var t := w.txs[i];
      w.(txs := w.txs[i := t.(registered := true)], notifier := Register(w.notifier, t.hash.value, |t.makers| + 1))
    case Settle(i, contract) =>
      var t := w.txs[i];
      w.(txs := w.txs[i := t.(outcome := OutcomeOf(Settlement.MatchOrders(contract, t.taker, t.makers).1))])
    case Deliver(i) =>
      if w.txs[i].hash.value in w.notifier.waiting then Heard(w, i) else w.(down := true)
    case Stray(hash) => if hash in w.notifier.waiting then w else w.(down := true)
    case Process =>
      w.(rows := Confirm(w.rows, w.notifier.pushed[w.confirmed].market), confirmed := w.confirmed + 1)
  }

  ghost predicate Reaches(w: World, actions: seq<Action>, after: World)
    decreases |actions|
  {
    if actions == [] then after == w
    else Enabled(w, actions[0]) && Reaches(Perform(w, actions[0]), actions[1..], after)
  }

  ghost predicate Steps(w: World, a: Action, after: World) {
    Enabled(w, a) && Perform(w, a) == after
  }

  lemma {:induction false} ReachesThen(w: World, actions: seq<Action>, between: World, a: Action, after: World)
    requires Reaches(w, actions, between) && Steps(between, a, after)
    ensures Reaches(w, actions + [a], after)
    decreases |actions|
  {
    hide Enabled, Perform;
    if actions == [] {
      assert actions + [a] == [a] && [a][1..] == [];
    } else {
      assert (actions + [a])[1..] == actions[1..] + [a] && (actions + [a])[0] == actions[0];
      ReachesThen(Perform(w, actions[0]), actions[1..], between, a, after);
    }
  }

  // ---------- the contract emits what the launcher expects ----------

  lemma {:induction false} PresentAll(orders: map<nat, Settlement.ChainOrder>, ids: seq<nat>)
    requires forall k :: 0 <= k < |ids| ==> ids[k] in orders
    ensures Settlement.Present(orders, ids) == ids
  {
    if ids != [] {
      PresentAll(orders, ids[1..]);
    }
  }

  lemma {:induction false} LoopStoresMakers(orders: map<nat, Settlement.ChainOrder>, taker: Settlement.ChainOrder,
                                            makers: seq<nat>, first: Settlement.Token, second: Settlement.Token)
    requires Settlement.MatchLoop(orders, taker, makers, first, second).Some?
    ensures var after := Settlement.MatchLoop(orders, taker, makers, first, second).value.orders;
            && (forall id :: id in orders ==> id in after)
            && (forall k :: 0 <= k < |makers| ==> makers[k] in after)
    decreases |makers|
  {
    if makers != [] {
      var leg := Settlement.Fill(taker, orders[makers[0]]).value;
      LoopStoresMakers(Settlement.Store(orders, leg), leg.taker, makers[1..], first, second);
    }
  }

  /** Whatever the contract's state: a match that goes through emits one event for the taker and one per maker. */
  lemma MatchEmits(c: Settlement.Chain, taker: nat, makers: seq<nat>)
    requires Settlement.MatchOrders(c, taker, makers).1.Executed?
    ensures Settlement.MatchOrders(c, taker, makers).1.events == [taker] + makers
  {
    LoopStoresMakers(c.orders, c.orders[taker], makers, c.first, c.second);
    PresentAll(Settlement.MatchOrders(c, taker, makers).0.orders, [taker] + makers);
  }

  // ---------- the invariant ----------

  /** Transactions of a market, among the first `k`, all of whose events have arrived. */
  function CountComplete(txs: seq<Tx>, market: MarketId, k: nat): nat
    requires k <= |txs|
  {
    if k == 0 then 0
    else CountComplete(txs, market, k - 1) + (if txs[k - 1].market == market && txs[k - 1].Complete() then 1 else 0)
  }

  function CountUpdates(pushed: seq<Update>, market: MarketId, k: nat): nat
    requires k <= |pushed|
  {
    if k == 0 then 0 else CountUpdates(pushed, market, k - 1) + (if pushed[k - 1].market == market then 1 else 0)
  }

  ghost predicate TxOk(t: Tx, waiting: map<Hash, Wait>) {
    && (t.hash.None? ==> !t.registered && t.outcome.Unsettled?)
    && (t.registered ==> t.hash.value in waiting && t.delivered <= |t.Orders()|
                         && waiting[t.hash.value] == Wait(|t.Orders()|, t.Orders()[..t.delivered]))
    && (t.hash.Some? && !t.registered ==> t.hash.value !in waiting)
    && (!t.registered || !t.outcome.Done? ==> t.delivered == 0)
    && (t.outcome.Done? ==> t.outcome.events == t.Orders())
  }

  ghost predicate Tracked(w: World) {
    && (forall i :: 0 <= i < |w.txs| ==> TxOk(w.txs[i], w.notifier.waiting))
    && (forall h :: h in w.notifier.waiting ==> exists i :: 0 <= i < |w.txs| && w.txs[i].hash == Some(h))
    && (forall i, j :: 0 <= i < j < |w.txs| && w.txs[i].hash.Some? ==> w.txs[i].hash != w.txs[j].hash)
  }

  /** Exactly one UPDATE for each transaction whose events have all arrived, naming its orders. */
  ghost predicate OnceEach(w: World) {
    && |w.log| == |w.notifier.pushed|
    && (forall k :: 0 <= k < |w.log| ==>
          && w.log[k] < |w.txs| && w.txs[w.log[k]].Complete()
          && w.notifier.pushed[k] == Update(w.txs[w.log[k]].market, w.txs[w.log[k]].Orders()))
    && (forall i :: 0 <= i < |w.txs| && w.txs[i].Complete() ==> i in w.log)
    && (forall j, k :: 0 <= j < k < |w.log| ==> w.log[j] != w.log[k])
    && (forall a :: CountUpdates(w.notifier.pushed, a, |w.notifier.pushed|) == CountComplete(w.txs, a, |w.txs|))
  }

  /** Row `i` records submission `i`; in each market as many rows are finished as UPDATEs were processed, the oldest. */
  ghost predicate Recorded(w: World) {
    && |w.rows| == |w.txs|
    && (forall i :: 0 <= i < |w.rows| ==>
          w.rows[i].market == w.txs[i].market && w.rows[i].taker == w.txs[i].taker
              && w.rows[i].makers == w.txs[i].makers)
    && w.confirmed <= |w.notifier.pushed|
    && FinishedUpTo(w.rows, w.notifier.pushed, w.confirmed)
  }

  /** In every market as many rows are finished, the oldest, as there are UPDATEs for it among the first `k`. */
  ghost predicate FinishedUpTo(rows: seq<MatchRecord>, pushed: seq<Update>, k: nat)
    requires k <= |pushed|
  {
    forall a :: FirstFinished(rows, a, CountUpdates(pushed, a, k))
  }

  ghost predicate Inv(w: World) {
    Tracked(w) && OnceEach(w) && Recorded(w)
  }

  lemma {:induction false} CompleteSame(txs: seq<Tx>, other: seq<Tx>, market: MarketId, k: nat)
    requires k <= |txs| && k <= |other|
    requires forall j :: 0 <= j < k ==> txs[j].market == other[j].market && (txs[j].Complete() <==> other[j].Complete())
    ensures CountComplete(txs, market, k) == CountComplete(other, market, k)
  {
    if k > 0 {
      CompleteSame(txs, other, market, k - 1);
    }
  }

  lemma {:induction false} CompleteOneMore(txs: seq<Tx>, i: nat, t: Tx, market: MarketId, k: nat)
    requires i < |txs| && k <= |txs| && t.market == txs[i].market && t.Complete() && !txs[i].Complete()
    ensures CountComplete(txs[i := t], market, k)
            == CountComplete(txs, market, k) + (if i < k && t.market == market then 1 else 0)
  {
    if k > 0 {
      CompleteOneMore(txs, i, t, market, k - 1);
    }
  }

  lemma {:induction false} UpdatesSame(pushed: seq<Update>, u: Update, market: MarketId, k: nat)
    requires k <= |pushed|
    ensures CountUpdates(pushed + [u], market, k) == CountUpdates(pushed, market, k)
  {
    if k > 0 {
      UpdatesSame(pushed, u, market, k - 1);
    }
  }

  lemma {:induction false} UpdatesGrow(pushed: seq<Update>, market: MarketId, j: nat, k: nat)
    requires j <= k <= |pushed|
    ensures CountUpdates(pushed, market, j) <= CountUpdates(pushed, market, k)
  {
    if j < k {
      UpdatesGrow(pushed, market, j, k - 1);
    }
  }

  lemma {:induction false} CompleteWithin(txs: seq<Tx>, rows: seq<MatchRecord>, market: MarketId, k: nat)
    requires k <= |txs| == |rows| && forall j :: 0 <= j < k ==> rows[j].market == txs[j].market
    ensures CountComplete(txs, market, k) <= Count(rows, market, k)
  {
    if k > 0 {
      CompleteWithin(txs, rows, market, k - 1);
    }
  }

  // ---------- every action keeps it ----------

  lemma SubmitKeepsOnce(w: World, row: MatchRecord)
    requires OnceEach(w) && Enabled(w, Submit(row))
    ensures OnceEach(Perform(w, Submit(row)))
  {
    hide CountUpdates;
    var after := Perform(w, Submit(row));
    assert forall i :: 0 <= i < |w.txs| ==> after.txs[i] == w.txs[i];
    forall a ensures CountComplete(after.txs, a, |after.txs|) == CountComplete(w.txs, a, |w.txs|) {
      CompleteSame(w.txs, after.txs, a, |w.txs|);
    }
  }

  lemma SubmitKeepsRecorded(w: World, row: MatchRecord)
    requires Recorded(w) && Enabled(w, Submit(row))
    ensures Recorded(Perform(w, Submit(row)))
  {
    hide FirstFinished, CountUpdates;
    var after := Perform(w, Submit(row));
    assert FinishedUpTo(w.rows, w.notifier.pushed, w.confirmed);
    forall a ensures FirstFinished(after.rows, a, CountUpdates(w.notifier.pushed, a, w.confirmed)) {
      AppendKeepsFinished(w.rows, row, a, CountUpdates(w.notifier.pushed, a, w.confirmed));
    }
  }

  lemma SubmitKeeps(w: World, row: MatchRecord)
    requires Inv(w) && Enabled(w, Submit(row))
    ensures Inv(Perform(w, Submit(row)))
  {
    hide OnceEach, Recorded;
    SubmitKeepsOnce(w, row);
    SubmitKeepsRecorded(w, row);
    var after := Perform(w, Submit(row));
    assert forall i :: 0 <= i < |w.txs| ==> after.txs[i] == w.txs[i];
    forall h | h in w.notifier.waiting ensures exists i :: 0 <= i < |after.txs| && after.txs[i].hash == Some(h) {
      var i :| 0 <= i < |w.txs| && w.txs[i].hash == Some(h);
      assert after.txs[i].hash == Some(h);
    }
  }

  /** Replacing a transaction by one no more complete leaves the counts and the log alone. */
  lemma TouchKeepsOnce(w: World, i: nat, t: Tx, waiting: map<Hash, Wait>)
    requires OnceEach(w) && Recorded(w) && i < |w.txs|
    requires t.market == w.txs[i].market && t.taker == w.txs[i].taker && t.makers == w.txs[i].makers
    requires t.Complete() <==> w.txs[i].Complete()
    ensures var after := w.(txs := w.txs[i := t], notifier := w.notifier.(waiting := waiting));
            OnceEach(after) && Recorded(after)
  {
    hide FirstFinished, CountUpdates;
    var txs := w.txs[i := t];
    forall a ensures CountComplete(txs, a, |txs|) == CountComplete(w.txs, a, |w.txs|) {
      CompleteSame(w.txs, txs, a, |txs|);
    }
  }

  lemma OtherHashOk(t: Tx, hash: Hash, before: map<Hash, Wait>, after: map<Hash, Wait>)
    requires TxOk(t, before) && t.hash != Some(hash)
    requires forall h :: h != hash ==> (h in after <==> h in before)
    requires forall h :: h != hash && h in after ==> after[h] == before[h]
    ensures TxOk(t, after)
  {
  }

  lemma TrackedAt(w: World, i: nat)
    requires Tracked(w) && i < |w.txs|
    ensures TxOk(w.txs[i], w.notifier.waiting)
    ensures w.txs[i].hash.Some? ==> forall j :: 0 <= j < |w.txs| && j != i ==> w.txs[j].hash != w.txs[i].hash
  {
    hide TxOk;
  }

  lemma TrackedAlike(w: World, other: World)
    requires Tracked(w) && w.txs == other.txs && w.notifier.waiting == other.notifier.waiting
    ensures Tracked(other)
  {
    hide TxOk;
  }

  /** Replacing a transaction's own state, under its own hash, leaves the others tracked. */
  lemma TouchKeepsTracked(w: World, i: nat, t: Tx, waiting: map<Hash, Wait>)
    requires Tracked(w) && i < |w.txs| && t.hash.Some? && TxOk(t, waiting)
    requires forall j :: 0 <= j < |w.txs| && j != i ==> w.txs[j].hash != t.hash
    requires w.txs[i].hash.None? || w.txs[i].hash == t.hash
    requires forall h :: h != t.hash.value ==> (h in waiting <==> h in w.notifier.waiting)
    requires forall h :: h != t.hash.value && h in waiting ==> waiting[h] == w.notifier.waiting[h]
    ensures Tracked(w.(txs := w.txs[i := t], notifier := w.notifier.(waiting := waiting)))
  {
    hide TxOk;
    var txs := w.txs[i := t];
    forall j | 0 <= j < |txs| ensures TxOk(txs[j], waiting) {
      if j != i {
        OtherHashOk(w.txs[j], t.hash.value, w.notifier.waiting, waiting);
      }
    }
    forall h | h in waiting ensures exists j :: 0 <= j < |txs| && txs[j].hash == Some(h) {
      if h == t.hash.value {
        assert txs[i].hash == Some(h);
      } else {
        var j :| 0 <= j < |w.txs| && w.txs[j].hash == Some(h);
        assert txs[j].hash == Some(h);
      }
    }
  }

  lemma SendKeeps(w: World, i: nat, hash: Hash)
    requires Inv(w) && Enabled(w, Send(i, hash))
    ensures Inv(Perform(w, Send(i, hash)))
  {
    hide OnceEach, Recorded;
    var t := w.txs[i].(hash := Some(hash));
    TrackedAt(w, i);
    TouchKeepsOnce(w, i, t, w.notifier.waiting);
    TouchKeepsTracked(w, i, t, w.notifier.waiting);
    assert Perform(w, Send(i, hash))
             == w.(txs := w.txs[i := t], notifier := w.notifier.(waiting := w.notifier.waiting));
  }

  lemma AnnounceKeeps(w: World, i: nat)
    requires Inv(w) && Enabled(w, Announce(i))
    ensures Inv(Perform(w, Announce(i)))
  {
    hide OnceEach, Recorded, Tracked;
    var t := w.txs[i].(registered := true);
    TrackedAt(w, i);
    var waiting := Register(w.notifier, t.hash.value, |t.makers| + 1).waiting;
    assert t.Orders()[..0] == [] && |t.Orders()| == |t.makers| + 1;
    TouchKeepsOnce(w, i, t, waiting);
    TouchKeepsTracked(w, i, t, waiting);
    assert Perform(w, Announce(i)) == w.(txs := w.txs[i := t], notifier := w.notifier.(waiting := waiting));
  }

  lemma SettleKeeps(w: World, i: nat, contract: Settlement.Chain)
    requires Inv(w) && Enabled(w, Settle(i, contract))
    ensures Inv(Perform(w, Settle(i, contract)))
  {
    hide OnceEach, Recorded, Tracked, Settlement.MatchOrders;
    var r := Settlement.MatchOrders(contract, w.txs[i].taker, w.txs[i].makers).1;
    var t := w.txs[i].(outcome := OutcomeOf(r));
    TrackedAt(w, i);
    if r.Executed? {
      MatchEmits(contract, t.taker, t.makers);
    }
    TouchKeepsOnce(w, i, t, w.notifier.waiting);
    TouchKeepsTracked(w, i, t, w.notifier.waiting);
    assert Perform(w, Settle(i, contract))
             == w.(txs := w.txs[i := t], notifier := w.notifier.(waiting := w.notifier.waiting));
  }

  lemma CompletionCounts(w: World, i: nat, t: Tx, u: Update)
    requires OnceEach(w) && Recorded(w) && i < |w.txs| && u.market == t.market == w.txs[i].market
    requires t.Complete() && !w.txs[i].Complete()
    ensures var txs, pushed := w.txs[i := t], w.notifier.pushed + [u];
            && (forall a :: CountUpdates(pushed, a, |pushed|) == CountComplete(txs, a, |txs|))
            && FinishedUpTo(w.rows, pushed, w.confirmed)
  {
    hide FirstFinished;
    var txs, pushed := w.txs[i := t], w.notifier.pushed;
    forall a ensures CountComplete(txs, a, |txs|) == CountUpdates(pushed + [u], a, |pushed| + 1)
             ensures CountUpdates(pushed + [u], a, w.confirmed) == CountUpdates(pushed, a, w.confirmed) {
      CompleteOneMore(w.txs, i, t, a, |txs|);
      UpdatesSame(pushed, u, a, |pushed|);
      UpdatesSame(pushed, u, a, w.confirmed);
    }
  }

  /** The last event of a transaction pushes its UPDATE. */
  lemma CompletionKeepsOnce(w: World, i: nat, t: Tx, waiting: map<Hash, Wait>)
    requires OnceEach(w) && Recorded(w) && i < |w.txs|
    requires t.market == w.txs[i].market && t.taker == w.txs[i].taker && t.makers == w.txs[i].makers
    requires t.Complete() && !w.txs[i].Complete()
    ensures var u := Update(t.market, t.Orders());
            var after := w.(txs := w.txs[i := t], notifier := Notifier(waiting, w.notifier.pushed + [u]),
                log := w.log + [i]);
            OnceEach(after) && Recorded(after)
  {
    hide FinishedUpTo, CountUpdates, CountComplete;
    CompletionCounts(w, i, t, Update(t.market, t.Orders()));
    assert forall k :: 0 <= k < |w.log| ==> w.log[k] != i && (w.log + [i])[k] == w.log[k];
    assert (w.log + [i])[|w.log|] == i;
  }

  lemma HeardKeeps(w: World, i: nat)
    requires Inv(w) && Enabled(w, Deliver(i)) && w.txs[i].hash.value in w.notifier.waiting
    ensures Inv(Heard(w, i))
  {
    hide OnceEach, Recorded, Tracked;
    var t := w.txs[i].(delivered := w.txs[i].delivered + 1);
    TrackedAt(w, i);
    var notifier := Receive(w.notifier, t.hash.value, t.market, t.outcome.events[w.txs[i].delivered]);
    assert t.Orders()[..t.delivered] == t.Orders()[..w.txs[i].delivered] + [t.Orders()[w.txs[i].delivered]];
    TouchKeepsTracked(w, i, t, notifier.waiting);
    TrackedAlike(w.(txs := w.txs[i := t], notifier := w.notifier.(waiting := notifier.waiting)), Heard(w, i));
    if t.Complete() {
      assert t.Orders()[..t.delivered] == t.Orders();
      CompletionKeepsOnce(w, i, t, notifier.waiting);
    } else {
      TouchKeepsOnce(w, i, t, notifier.waiting);
      assert Heard(w, i) == w.(txs := w.txs[i := t], notifier := w.notifier.(waiting := notifier.waiting));
    }
  }

  lemma DownKeeps(w: World)
    requires Inv(w)
    ensures Inv(w.(down := true))
  {
    hide TxOk, FinishedUpTo, CountUpdates, CountComplete;
  }

  /** An event brings the engine down exactly when its transaction is not registered, be it that its
      registration is late or that somebody else called the match. */
  lemma DownIffUnregistered(w: World, a: Action)
    requires Inv(w) && Enabled(w, a)
    ensures Perform(w, a).down != w.down <==> a.Stray? || (a.Deliver? && !w.txs[a.i].registered)
  {
    if a.Deliver? {
      TrackedAt(w, a.i);
    }
  }

  /** There is always a row waiting for an UPDATE. */
  lemma UpdateHasRow(w: World, market: MarketId, k: nat)
    requires OnceEach(w) && Recorded(w) && k < |w.notifier.pushed| && w.notifier.pushed[k].market == market
    ensures CountUpdates(w.notifier.pushed, market, k) < Count(w.rows, market, |w.rows|)
  {
    UpdatesGrow(w.notifier.pushed, market, k + 1, |w.notifier.pushed|);
    CompleteWithin(w.txs, w.rows, market, |w.txs|);
  }

  lemma ConfirmKeepsMarket(rows: seq<MatchRecord>, pushed: seq<Update>, k: nat, a: MarketId)
    requires k < |pushed| && FirstFinished(rows, a, CountUpdates(pushed, a, k))
    requires CountUpdates(pushed, pushed[k].market, k) < Count(rows, pushed[k].market, |rows|)
    ensures FirstFinished(Confirm(rows, pushed[k].market), a, CountUpdates(pushed, a, k + 1))
  {
    hide FirstFinished, Confirm, Count;
    if a == pushed[k].market {
      ConfirmFinishesNext(rows, a, CountUpdates(pushed, a, k));
    } else {
      ConfirmLeavesOthers(rows, pushed[k].market, a, CountUpdates(pushed, a, k));
    }
  }

  lemma ConfirmKeepsFinished(rows: seq<MatchRecord>, pushed: seq<Update>, k: nat, next: nat)
    requires next == k + 1 <= |pushed| && FinishedUpTo(rows, pushed, k)
    requires CountUpdates(pushed, pushed[k].market, k) < Count(rows, pushed[k].market, |rows|)
    ensures FinishedUpTo(Confirm(rows, pushed[k].market), pushed, next)
  {
    hide FirstFinished, Confirm, CountUpdates, Count;
    forall a ensures FirstFinished(Confirm(rows, pushed[k].market), a, CountUpdates(pushed, a, next)) {
      assert FirstFinished(rows, a, CountUpdates(pushed, a, k));
      ConfirmKeepsMarket(rows, pushed, k, a);
    }
  }

  lemma ProcessKeeps(w: World)
    requires Inv(w) && Enabled(w, Process)
    ensures Inv(Perform(w, Process))
  {
    hide OldestPending, FinishedUpTo, Tracked, OnceEach, CountUpdates, Count, FirstFinished;
    UpdateHasRow(w, w.notifier.pushed[w.confirmed].market, w.confirmed);
    ConfirmKeepsFinished(w.rows, w.notifier.pushed, w.confirmed, w.confirmed + 1);
    ProcessTouchesRows(w);
  }

  lemma ProcessTouchesRows(w: World)
    requires Tracked(w) && OnceEach(w) && Enabled(w, Process)
    ensures Tracked(Perform(w, Process)) && OnceEach(Perform(w, Process))
  {
  }

  lemma {:induction false} RunKeeps(w: World, actions: seq<Action>, after: World)
    requires Inv(w) && Reaches(w, actions, after)
    ensures Inv(after)
    decreases |actions|
  {
    if actions != [] {
      match actions[0] {
        case Submit(row) => SubmitKeeps(w, row);
        case Send(i, hash) => SendKeeps(w, i, hash);
        case Announce(i) => AnnounceKeeps(w, i);
        case Settle(i, contract) => SettleKeeps(w, i, contract);
        case Deliver(i) => if w.txs[i].hash.value in w.notifier.waiting { HeardKeeps(w, i); } else { DownKeeps(w); }
        case Stray(_) => DownKeeps(w);
        case Process => ProcessKeeps(w);
      }
      RunKeeps(Perform(w, actions[0]), actions[1..], after);
    }
  }

  // ---------- what it comes to ----------

  /** Under every interleaving: no transaction brings two UPDATEs; one brings its UPDATE once the last of its
      len(makers) + 1 events is in; and a market's finished rows are its oldest, one per UPDATE processed. */
  lemma ExactlyOnce(actions: seq<Action>, w: World)
    requires Reaches(INITIAL, actions, w)
    ensures forall j, k :: 0 <= j < k < |w.log| ==> w.log[j] != w.log[k]
    ensures forall i :: i in w.log
              <==> 0 <= i < |w.txs| && w.txs[i].outcome.Done? && w.txs[i].delivered == |w.txs[i].makers| + 1
    ensures |w.log| == |w.notifier.pushed| && w.confirmed <= |w.log|
    ensures forall k :: 0 <= k < |w.log| ==>
              w.log[k] < |w.txs| && w.notifier.pushed[k] == Update(w.txs[w.log[k]].market, w.txs[w.log[k]].Orders())
    ensures FinishedUpTo(w.rows, w.notifier.pushed, w.confirmed)
  {
    RunKeeps(INITIAL, actions, w);
    forall i | 0 <= i < |w.txs|
      ensures w.txs[i].Complete() <==> w.txs[i].outcome.Done? && w.txs[i].delivered == |w.txs[i].makers| + 1
    {
      assert TxOk(w.txs[i], w.notifier.waiting);
    }
  }

  /** Of every match that went through, all events are delivered and processed; others may be anywhere. */
  ghost predicate Quiet(w: World) {
    && (forall i :: 0 <= i < |w.txs| && w.txs[i].outcome.Done? ==> w.txs[i].Complete())
    && w.confirmed == |w.notifier.pushed|
  }

  predicate Executed(w: World, market: MarketId, i: nat)
    requires i < |w.txs|
  {
    w.txs[i].market == market && w.txs[i].outcome.Done?
  }

  /** In the market, no match that did not go through, be it lost or failed, was submitted before one that did. */
  ghost predicate LossesLast(w: World, market: MarketId) {
    forall i, j :: 0 <= i < j < |w.txs| && w.txs[i].market == market && Executed(w, market, j) ==>
        Executed(w, market, i)
  }

  lemma {:induction false} CompleteGrows(txs: seq<Tx>, market: MarketId, j: nat, k: nat)
    requires j <= k <= |txs|
    ensures CountComplete(txs, market, j) <= CountComplete(txs, market, k)
    ensures (forall i :: j <= i < k && txs[i].market == market ==> !txs[i].Complete())
            ==> CountComplete(txs, market, j) == CountComplete(txs, market, k)
  {
    if j < k {
      CompleteGrows(txs, market, j, k - 1);
    }
  }

  lemma {:induction false} AllComplete(txs: seq<Tx>, rows: seq<MatchRecord>, market: MarketId, k: nat)
    requires k <= |txs| == |rows| && forall j :: 0 <= j < k ==> rows[j].market == txs[j].market
    requires forall j :: 0 <= j < k && txs[j].market == market ==> txs[j].Complete()
    ensures CountComplete(txs, market, k) == Count(rows, market, k)
  {
    if k > 0 {
      AllComplete(txs, rows, market, k - 1);
    }
  }

  /** A confirmation names no transaction, so the finished rows are those of the executed matches exactly when
      no lost or failed match precedes an executed one; in any case there are equally many. */
  lemma FinishedAreExecutedIff(actions: seq<Action>, w: World, market: MarketId)
    requires Reaches(INITIAL, actions, w) && Quiet(w)
    ensures |w.rows| == |w.txs|
    ensures (forall k :: 0 <= k < |w.rows| && w.rows[k].market == market ==>
              (w.rows[k].finished <==> Executed(w, market, k)))
            <==> LossesLast(w, market)
    ensures FirstFinished(w.rows, market, CountComplete(w.txs, market, |w.txs|))
  {
    RunKeeps(INITIAL, actions, w);
    hide Tracked, FirstFinished, CountUpdates, CountComplete, Reaches;
    var n := CountComplete(w.txs, market, |w.txs|);
    assert n == CountUpdates(w.notifier.pushed, market, w.confirmed);
    assert FirstFinished(w.rows, market, n);
    if LossesLast(w, market) {
      forall k | 0 <= k < |w.rows| && w.rows[k].market == market
        ensures w.rows[k].finished <==> Executed(w, market, k)
      {
        FinishedIfExecuted(w, market, k);
      }
    }
    if forall k :: 0 <= k < |w.rows| && w.rows[k].market == market ==>
        (w.rows[k].finished <==> Executed(w, market, k)) {
      ExecutedOldestFirst(w, market, n);
    }
  }

  lemma ExecutedOldestFirst(w: World, market: MarketId, n: nat)
    requires Recorded(w) && FirstFinished(w.rows, market, n)
    requires forall k :: 0 <= k < |w.rows| && w.rows[k].market == market ==>
               (w.rows[k].finished <==> Executed(w, market, k))
    ensures LossesLast(w, market)
  {
    hide FirstFinished;
    forall i, j | 0 <= i < j < |w.txs| && w.txs[i].market == market && Executed(w, market, j)
      ensures Executed(w, market, i)
    {
      assert w.rows[j].finished && w.rows[i].market == market;
      FinishedOldestFirst(w.rows, market, n, i, j);
    }
  }

  lemma ExecutedIsFinished(w: World, market: MarketId, k: nat)
    requires Recorded(w) && Quiet(w) && LossesLast(w, market) && k < |w.txs| && Executed(w, market, k)
    ensures Count(w.rows, market, k) < CountComplete(w.txs, market, |w.txs|)
  {
    forall j | 0 <= j < k && w.txs[j].market == market ensures w.txs[j].Complete() {
      assert Executed(w, market, j);
    }
    AllComplete(w.txs, w.rows, market, k);
    CompleteGrows(w.txs, market, k + 1, |w.txs|);
  }

  lemma FailedIsPending(w: World, market: MarketId, k: nat)
    requires Recorded(w) && LossesLast(w, market) && k < |w.txs| && w.txs[k].market == market && !Executed(w, market, k)
    ensures Count(w.rows, market, k) >= CountComplete(w.txs, market, |w.txs|)
  {
    forall i | k <= i < |w.txs| && w.txs[i].market == market ensures !w.txs[i].Complete() {
      assert i == k || !Executed(w, market, i);
    }
    CompleteGrows(w.txs, market, k, |w.txs|);
    CompleteWithin(w.txs, w.rows, market, k);
  }

  lemma FinishedIfExecuted(w: World, market: MarketId, k: nat)
    requires Recorded(w) && Quiet(w) && LossesLast(w, market) && k < |w.txs| && w.txs[k].market == market
    requires FirstFinished(w.rows, market, CountComplete(w.txs, market, |w.txs|))
    ensures w.rows[k].finished <==> Executed(w, market, k)
  {
    hide Quiet, LossesLast, CountComplete, Count, FinishedUpTo;
    if Executed(w, market, k) {
      ExecutedIsFinished(w, market, k);
    } else {
      FailedIsPending(w, market, k);
    }
  }
}

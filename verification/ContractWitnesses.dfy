/** Inputs at which the contract does not do what one might expect of it, each reached from deployment. */
module ContractWitnesses {
  import opened Orders
  import opened Settlement
  import opened Fills
  import opened Ownership
  import opened Refunds
  import Escrow

  /** One buyer of the contract, in the token given. */
  function Bought(token: Token, paid: nat): Chain {
    CreateOrder(Deployed("first", "second"), "buyer", 0, token, paid, 1, "", Buy).0
  }

  lemma BoughtIs(token: Token, paid: nat)
    ensures Run(Deployed("first", "second"), [Create("buyer", 0, token, paid, 1, "", Buy)]) == Bought(token, paid)
    ensures CreateOrder(Deployed("first", "second"), "buyer", 0, token, paid, 1, "", Buy).1.Executed?
    ensures var c := Bought(token, paid);
            && c.orders == map[0 := ChainOrder(0, "buyer", "", paid, 1, 0, Buy)] && c.counter == 1
            && Live(c, "buyer") == [0] && c.balance == map[token := paid] && c.first == "first" && c.second == "second"
  {
    var c := Bought(token, paid);
    assert Live(Deployed("first", "second"), "buyer") == [];
    assert c.index["buyer"] == [0] + [];
    assert [0][1..] == [] && Present(c.orders, [0]) == [0];
  }

  /** A hundred and one periods after it was made, an order of a hundred units can no longer be cancelled. */
  lemma PenaltyBlocksCancel()
    ensures var c := Run(Deployed("first", "second"), [Create("buyer", 0, "second", 100, 1, "", Buy)]);
            && 0 in c.orders && c.orders[0].creator == "buyer" && c.orders[0].input == 100
            && Penalty(c.orders[0], 505) == 101
            && CancelOrders(c, "buyer", 505, [0]) == (c, Reverted)
  {
    BoughtIs("second", 100);
    var c := Bought("second", 100);
    assert PenaltyCount(c.orders[0], 505) == 101;
    assert [0][1..] == [] && Present(c.orders, [0]) == [0];
    assert CancelOne(c, 0, "buyer", 505) == None;
  }

  /** A buy order paid in the first token is escrow in neither: the contract holds more of the first than it
      owes, and owes more of the second than it holds. */
  lemma BuyPaidInFirst(start: Chain, txs: seq<Tx>)
    requires start == Deployed("first", "second") && txs == [Create("buyer", 0, "first", 100, 1, "", Buy)]
    ensures var c := Run(start, txs);
            && c.orders.Keys == {0} && c.orders[0].input == 100
            && forall token :: Escrow.Slack(c, token) == Escrow.Slack(start, token)
                                 + (if token == "first" then 100 else 0) - (if token == "second" then 100 else 0)
  {
    hide Escrow.Slack, Run, CreateOrder;
    BoughtIs("first", 100);
    forall token
      ensures Escrow.Slack(Bought("first", 100), token)
                == (if token == "first" then 100 else 0) - (if token == "second" then 100 else 0)
      ensures Escrow.Slack(start, token) == 0
    {
      SlackBought("first", 100, token);
      NothingHeld(token);
    }
  }

  lemma SlackBought(token: Token, paid: nat, t: Token)
    ensures Escrow.Slack(Bought(token, paid), t)
              == (if t == token then paid else 0) - (if t == "second" then paid else 0)
  {
    BoughtIs(token, paid);
    NothingHeld(t);
    hide Run, Escrow.Slack;
    Escrow.CreateSlack(Deployed("first", "second"), "buyer", 0, token, paid, 1, "", Buy, t);
  }

  lemma NothingHeld(token: Token)
    ensures Escrow.Slack(Deployed("first", "second"), token) == 0
  {
    assert Escrow.Escrowed(Deployed("first", "second"), token, 0) == 0;
  }

  // ---------- runs from deployment ----------

  const DEPLOYED := Deployed("first", "second")

  lemma {:induction false} RunSnoc(c: Chain, txs: seq<Tx>, tx: Tx)
    ensures Run(c, txs + [tx]) == Apply(Run(c, txs), tx).0
    decreases |txs|
  {
    if txs == [] {
      assert [] + [tx] == [tx] && [tx][1..] == [];
    } else {
      assert (txs + [tx])[1..] == txs[1..] + [tx] && (txs + [tx])[0] == txs[0];
      RunSnoc(Apply(c, txs[0]).0, txs[1..], tx);
    }
  }

  lemma Then(txs: seq<Tx>, c: Chain, tx: Tx, after: Chain) returns (more: seq<Tx>)
    requires c == Run(DEPLOYED, txs) && Apply(c, tx).0 == after
    ensures after == Run(DEPLOYED, more)
  {
    RunSnoc(DEPLOYED, txs, tx);
    more := txs + [tx];
  }

  /** The state after a first order of a caller. */
  function Opened(c: Chain, caller: Address, token: Token, paid: nat, requested: nat, side: Side): Chain {
    c.(orders := c.orders[c.counter := ChainOrder(c.counter, caller, "", paid, requested, 0, side)],
       index := c.index[caller := [c.counter]], counter := c.counter + 1,
       balance := c.balance[token := BalanceOf(c.balance, token) + paid])
  }

  lemma Open(txs: seq<Tx>, c: Chain, caller: Address, token: Token, paid: nat, requested: nat, side: Side, after: Chain)
    returns (more: seq<Tx>)
    requires c == Run(DEPLOYED, txs) && caller !in c.index && (side == Sell ==> token == c.first)
    requires c.counter + 1 < TWO_TO_THE_64 && after == Opened(c, caller, token, paid, requested, side)
    ensures after == Run(DEPLOYED, more)
  {
    assert Live(c, caller) == [] && [c.counter] + [] == [c.counter];
    var tx := Create(caller, 0, token, paid, requested, "", side);
    hide Run;
    more := Then(txs, c, tx, after);
  }

  lemma NothingRun()
    ensures Run(DEPLOYED, []) == DEPLOYED
    ensures DEPLOYED.index == map[] && DEPLOYED.first == "first" && DEPLOYED.counter == 0 && 3 < TWO_TO_THE_64
  {
  }

  // ---------- a filled maker is refunded as well ----------

  /** A seller and two buyers of ten units for ten; and after the seller was matched with the first buyer. */
  const THREE := Chain(map[0 := ChainOrder(0, "seller", "", 10, 10, 0, Sell),
                           1 := ChainOrder(1, "buyer", "", 10, 10, 0, Buy),
                           2 := ChainOrder(2, "other", "", 10, 10, 0, Buy)],
                       map["seller" := [0], "buyer" := [1], "other" := [2]], 3, map["first" := 10, "second" := 20],
                       "first", "second")

  const SERVED := THREE.(orders := THREE.orders[0 := ChainOrder(0, "seller", "", 0, 0, 0, Sell)],
                         balance := map["first" := 0, "second" := 10])

  const EMPTIED := SERVED.(orders := SERVED.orders - {1}, index := SERVED.index["buyer" := []],
                           balance := map["first" := 0, "second" := 0])

  const SELLER := Chain(map[0 := ChainOrder(0, "seller", "", 10, 10, 0, Sell)], map["seller" := [0]], 1,
                        map["first" := 10], "first", "second")

  const SELLER_AND_BUYER := Chain(map[0 := ChainOrder(0, "seller", "", 10, 10, 0, Sell),
                                      1 := ChainOrder(1, "buyer", "", 10, 10, 0, Buy)],
                                  map["seller" := [0], "buyer" := [1]], 2, map["first" := 10, "second" := 10],
                                  "first", "second")

  lemma ThreeStates()
    ensures Opened(DEPLOYED, "seller", "first", 10, 10, Sell) == SELLER
    ensures "buyer" !in SELLER.index && SELLER.counter == 1
    ensures Opened(SELLER, "buyer", "second", 10, 10, Buy) == SELLER_AND_BUYER
    ensures "other" !in SELLER_AND_BUYER.index && SELLER_AND_BUYER.counter == 2
    ensures Opened(SELLER_AND_BUYER, "other", "second", 10, 10, Buy) == THREE
  {
  }

  lemma ThreeOpened() returns (txs: seq<Tx>)
    ensures THREE == Run(DEPLOYED, txs)
  {
    hide *;
    ThreeStates();
    NothingRun();
    var one, two := SELLER, SELLER_AND_BUYER;
    txs := Open([], DEPLOYED, "seller", "first", 10, 10, Sell, one);
    txs := Open(txs, one, "buyer", "second", 10, 10, Buy, two);
    txs := Open(txs, two, "other", "second", 10, 10, Buy, THREE);
  }

  /** A match with a single maker. */
  lemma OneMaker(c: Chain, taker: nat, maker: nat, leg: Leg, transfers: seq<Transfer>, balance: map<Token, nat>)
    requires taker in c.orders && maker in c.orders && Fill(c.orders[taker], c.orders[maker]) == Some(leg)
    requires transfers == LegTransfers(leg, c.first, c.second) && Pay(c.balance, transfers) == Some(balance)
    ensures var stored := Store(c.orders, leg);
            MatchOrders(c, taker, [maker])
            == (c.(orders := stored, balance := balance), Executed(transfers, Present(stored, [taker, maker])))
  {
    hide Fill, Store, LegTransfers, Pay, Present;
    var stored := Store(c.orders, leg);
    assert [maker][1..] == [] && transfers + [] == transfers && [taker] + [maker] == [taker, maker];
    assert MatchLoop(stored, leg.taker, [], c.first, c.second) == Some(Settled(stored, leg.taker, []));
    assert MatchLoop(c.orders, c.orders[taker], [maker], c.first, c.second)
        == Some(Settled(stored, leg.taker, transfers));
  }

  lemma EvenLeg(t: ChainOrder, m: ChainOrder)
    requires t.side == Sell && m.side == Buy && t.input == t.output == m.input == m.output == 10
    ensures Fill(t, m) == Some(Leg(t.(input := 0, output := 0), m, 10, 10, true))
  {
  }

  lemma EvenPaid(c: Chain, leg: Leg, transfers: seq<Transfer>)
    requires c == THREE && leg == Leg(c.orders[0].(input := 0, output := 0), c.orders[1], 10, 10, true)
    requires transfers == [Transfer("buyer", "first", 10), Transfer("seller", "second", 10)]
    ensures LegTransfers(leg, c.first, c.second) == transfers && Pay(c.balance, transfers) == Some(SERVED.balance)
    ensures c.(orders := Store(c.orders, leg), balance := SERVED.balance) == SERVED
  {
    NewBalance(c.balance, 0, 10);
    PayTwo(c.balance, transfers[0], transfers[1]);
    hide Pay;
  }

  lemma Matched(c: Chain)
    requires c == THREE
    ensures var transfers := [Transfer("buyer", "first", 10), Transfer("seller", "second", 10)];
            MatchOrders(c, 0, [1]) == (SERVED, Executed(transfers, [0, 1]))
  {
    var leg := Leg(c.orders[0].(input := 0, output := 0), c.orders[1], 10, 10, true);
    var transfers := [Transfer("buyer", "first", 10), Transfer("seller", "second", 10)];
    EvenLeg(c.orders[0], c.orders[1]);
    EvenPaid(c, leg, transfers);
    AllPresent(SERVED.orders, [0, 1], [0, 1]);
    hide Fill, MatchOrders, Pay, LegTransfers, Store, Present;
    OneMaker(c, 0, 1, leg, transfers, SERVED.balance);
  }

  lemma NewBalance(balance: map<Token, nat>, first: nat, second: nat)
    requires balance.Keys == {"first", "second"}
    ensures balance["first" := first]["second" := second] == map["first" := first, "second" := second]
  {
  }

  lemma PayOne(balance: map<Token, nat>, t: Transfer)
    requires 0 < t.amount <= BalanceOf(balance, t.token)
    ensures Pay(balance, [t]) == Some(balance[t.token := BalanceOf(balance, t.token) - t.amount])
  {
    assert [t][1..] == [];
  }

  lemma PayTwo(balance: map<Token, nat>, t: Transfer, u: Transfer)
    requires t.token != u.token
    requires 0 < t.amount <= BalanceOf(balance, t.token) && 0 < u.amount <= BalanceOf(balance, u.token)
    ensures var one := balance[t.token := BalanceOf(balance, t.token) - t.amount];
            Pay(balance, [t, u]) == Some(one[u.token := BalanceOf(balance, u.token) - u.amount])
  {
    PayOne(balance[t.token := BalanceOf(balance, t.token) - t.amount], u);
    assert [t, u][1..] == [u];
  }

  /** The first buyer's cancel, and that of the second, who is left with nothing to be refunded from. */
  lemma Refunded(c: Chain, transfers: seq<Transfer>)
    requires c == SERVED && |transfers| == 1 && transfers[0] == Transfer("buyer", "second", 10)
    ensures CancelOne(c, 1, "buyer", 0)
              == Some((c.(orders := EMPTIED.orders, balance := EMPTIED.balance), transfers))
  {
    assert Penalty(c.orders[1], 0) == 0;
    NewBalance(c.balance, 0, 0);
    assert c.balance["first" := 0] == c.balance;
    assert transfers == [Transfer("buyer", RefundToken(c, c.orders[1]), 10)];
    PayOne(c.balance, transfers[0]);
    hide Pay, Penalty;
  }

  lemma OneLive(c: Chain, caller: Address, id: nat)
    requires caller in c.index && c.index[caller] == [id] && id in c.orders
    ensures Live(c, caller) == [id]
  {
    AllPresent(c.orders, [id], [id]);
  }

  lemma Emptied(c: Chain)
    requires c == SERVED
    ensures CancelOrders(c, "buyer", 0, [1]) == (EMPTIED, Executed([Transfer("buyer", "second", 10)], [1]))
  {
    var transfers := [Transfer("buyer", "second", 10)];
    Refunded(c, transfers);
    OneLive(c, "buyer", 1);
    hide CancelOne, CancelOrders, Live;
    CancelsOne(c, 1, "buyer", 0, Some((c.(orders := EMPTIED.orders, balance := EMPTIED.balance), transfers)));
  }

  lemma Stranded(c: Chain)
    requires c == EMPTIED
    ensures Penalty(c.orders[2], 0) == 0 && CancelOrders(c, "other", 0, [2]) == (c, Reverted)
  {
    assert Penalty(c.orders[2], 0) == 0;
    assert CancelOne(c, 2, "other", 0) == None;
    OneLive(c, "other", 2);
    hide CancelOne, CancelOrders, Live, Penalty;
    CancelsOne(c, 2, "other", 0, None);
  }

  /** A match fills a buyer in full; its cancel pays it all it put in once more, out of what another buyer put in,
      whose own cancel then fails for lack of funds though no penalty is due. */
  lemma FilledMakerRefunded() returns (txs: seq<Tx>, served: Chain, emptied: Chain)
    ensures served == Run(DEPLOYED, txs)
    ensures 1 in served.orders && served.orders[1] == ChainOrder(1, "buyer", "", 10, 10, 0, Buy)
    ensures CancelOrders(served, "buyer", 0, [1]) == (emptied, Executed([Transfer("buyer", "second", 10)], [1]))
    ensures 2 in emptied.orders && emptied.orders[2] == ChainOrder(2, "other", "", 10, 10, 0, Buy)
    ensures Penalty(emptied.orders[2], 0) == 0 && CancelOrders(emptied, "other", 0, [2]) == (emptied, Reverted)
  {
    hide Run, MatchOrders, CancelOrders, Penalty;
    var three := THREE;
    served, emptied := SERVED, EMPTIED;
    Matched(three);
    Emptied(served);
    Stranded(emptied);
    txs := ThreeOpened();
    txs := Then(txs, three, Tx.Match(0, [1]), served);
  }

  // ---------- a match within one type ----------

  /** A seller of one unit for two, one of one unit for one, and a buyer; and after the second seller was matched
      with the first. */
  const SAME := Chain(map[0 := ChainOrder(0, "maker", "", 1, 2, 0, Sell),
                          1 := ChainOrder(1, "taker", "", 1, 1, 0, Sell),
                          2 := ChainOrder(2, "buyer", "", 1, 1, 0, Buy)],
                      map["maker" := [0], "taker" := [1], "buyer" := [2]], 3, map["first" := 2, "second" := 1],
                      "first", "second")

  const CHEAPER := SAME.(orders := SAME.orders[0 := ChainOrder(0, "maker", "", 1, 1, 0, Sell)],
                         balance := map["first" := 1, "second" := 0])

  const ONE_SELLER := Chain(map[0 := ChainOrder(0, "maker", "", 1, 2, 0, Sell)], map["maker" := [0]], 1,
                            map["first" := 1], "first", "second")

  const TWO_SELLERS := Chain(map[0 := ChainOrder(0, "maker", "", 1, 2, 0, Sell),
                                 1 := ChainOrder(1, "taker", "", 1, 1, 0, Sell)],
                             map["maker" := [0], "taker" := [1]], 2, map["first" := 2], "first", "second")

  lemma SameFirst()
    ensures Opened(DEPLOYED, "maker", "first", 1, 2, Sell) == ONE_SELLER
    ensures "taker" !in ONE_SELLER.index && ONE_SELLER.first == "first" && ONE_SELLER.counter == 1
  {
  }

  lemma SameSecond()
    ensures Opened(ONE_SELLER, "taker", "first", 1, 1, Sell) == TWO_SELLERS
    ensures "buyer" !in TWO_SELLERS.index && TWO_SELLERS.counter == 2
  {
  }

  lemma SameThird()
    ensures Opened(TWO_SELLERS, "buyer", "second", 1, 1, Buy) == SAME
  {
  }

  lemma SameOpened() returns (txs: seq<Tx>)
    ensures SAME == Run(DEPLOYED, txs)
  {
    hide *;
    SameFirst();
    SameSecond();
    SameThird();
    NothingRun();
    var one, two := ONE_SELLER, TWO_SELLERS;
    txs := Open([], DEPLOYED, "maker", "first", 1, 2, Sell, one);
    txs := Open(txs, one, "taker", "first", 1, 1, Sell, two);
    txs := Open(txs, two, "buyer", "second", 1, 1, Buy, SAME);
  }

  lemma SameLeg(t: ChainOrder, m: ChainOrder)
    requires t.side == m.side == Sell && t.input == t.output == m.input == 1 && m.output == 2
    ensures Fill(t, m) == Some(Leg(t, m.(output := 1), 1, 1, false))
  {
    assert RuleOfThree(m.input, m.output, t.input) == 0;
  }

  lemma SamePaid(c: Chain, leg: Leg, transfers: seq<Transfer>)
    requires c == SAME && leg == Leg(c.orders[1], c.orders[0].(output := 1), 1, 1, false)
    requires transfers == [Transfer("maker", "first", 1), Transfer("taker", "second", 1)]
    ensures LegTransfers(leg, c.first, c.second) == transfers && Pay(c.balance, transfers) == Some(CHEAPER.balance)
    ensures c.(orders := Store(c.orders, leg), balance := CHEAPER.balance) == CHEAPER
  {
    NewBalance(c.balance, 1, 0);
    PayTwo(c.balance, transfers[0], transfers[1]);
    hide Pay;
  }

  lemma SameMatched(c: Chain)
    requires c == SAME
    ensures MatchOrders(c, 1, [0]).0 == CHEAPER
  {
    var leg := Leg(c.orders[1], c.orders[0].(output := 1), 1, 1, false);
    var transfers := [Transfer("maker", "first", 1), Transfer("taker", "second", 1)];
    SameLeg(c.orders[1], c.orders[0]);
    SamePaid(c, leg, transfers);
    hide Fill, MatchOrders, Pay, LegTransfers, Store;
    OneMaker(c, 1, 0, leg, transfers, CHEAPER.balance);
  }

  /** A seller that asked two for its one unit is left asking one, however many fills one grants it. */
  lemma SameTypeBreaksDrift() returns (txs: seq<Tx>, c: Chain)
    ensures c == Run(DEPLOYED, txs + [Tx.Match(1, [0])])
    ensures Run(DEPLOYED, txs).orders.Keys == {0, 1, 2}
    ensures Run(DEPLOYED, txs).orders[0] == ChainOrder(0, "maker", "", 1, 2, 0, Sell)
    ensures 0 in c.orders && forall fills: nat :: !WithinDrift(c.orders[0], 2, 1, fills)
  {
    hide Run, MatchOrders, WithinDrift;
    SameMatched(SAME);
    txs := SameOpened();
    c := CHEAPER;
    RunSnoc(DEPLOYED, txs, Tx.Match(1, [0]));
    OneForOne(c.orders[0]);
  }

  lemma OneForOne(o: ChainOrder)
    requires o.side == Sell && o.input == 1 && o.output == 1
    ensures forall fills: nat :: !WithinDrift(o, 2, 1, fills)
  {
  }
}

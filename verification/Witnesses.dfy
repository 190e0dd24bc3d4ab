/** Inputs at which the code does not do what one might expect of it, each reached from the very start. */
module Witnesses {
  import opened Orders
  import Matching
  import opened Books
  import opened Settlement
  import opened Fills
  import opened Funding
  import opened Simulation
  import opened Lockstep
  import opened Pipeline
  import opened MatchTables
  import Handshake

  // ---------- engine and chain ----------

  lemma Onward(actions: seq<Action>, s: System, a: Action, after: System) returns (more: seq<Action>)
    requires Reaches(INITIAL, actions, s) && Good(s.book) && Enabled(s, a) && Harmless(s, a) && Perform(s, a) == after
    ensures Reaches(INITIAL, more, after)
  {
    hide Good, Enabled, Harmless, Perform;
    ReachesThen(INITIAL, actions, s, a, after);
    more := actions + [a];
  }

  /** A price unit and a half, and two. */
  const ONE_AND_A_HALF: nat := 15_000_000_000_000_000
  const TWO: nat := 20_000_000_000_000_000

  function Seller(input: nat, output: nat): ChainOrder { ChainOrder(0, "", "", input, output, 0, Sell) }

  function Buyer(id: nat, input: nat, output: nat): ChainOrder { ChainOrder(id, "", "", input, output, 0, Buy) }

  function Resting(quantity: int): Order { Order(0, Sell, quantity, ONE_AND_A_HALF, "", 0) }

  /** Two units for three, made, then resting; a buyer of one unit made, and its match on its way; one unit sold. */
  const MADE := System(EMPTY, map[0 := Seller(2, 3)], 1, [Seller(2, 3)], [], map[0 := Seller(2, 3)])

  const OPENED := System(Book([Resting(2)], [], 2, 0), map[0 := Seller(2, 3)], 1, [], [], map[0 := Seller(2, 3)])

  const BOTH := map[0 := Seller(2, 3), 1 := Buyer(1, 2, 1)]

  const BIDDING := System(OPENED.book, BOTH, 2, [Buyer(1, 2, 1)], [], BOTH)

  const MATCHED := BIDDING.(book := Book([Resting(1)], [], 2, 0), created := [], submitted := [Submission(1, [0])])

  const SOLD := MATCHED.(chain := BOTH[0 := Seller(1, 2)], submitted := [])

  const FIRST := Make("", "", 2, 3, 0, Sell)
  const SECOND := Make("", "", 2, 1, 0, Buy)
  const ARRIVE := Deliver(0, true)

  lemma ThreePrices()
    ensures PriceOf(Seller(2, 3)) == PriceOf(Buyer(2, 3, 2)) == ONE_AND_A_HALF
    ensures PriceOf(Buyer(1, 2, 1)) == PriceOf(Seller(1, 2)) == TWO
  {
  }

  lemma GoodBooks()
    ensures Good(EMPTY) && Good(OPENED.book) && Good(SOLD.book)
  {
  }

  lemma PlaceInEmpty(b: Book, side: Side, id: OrderId, quantity: nat, price: nat)
    requires Good(b) && b.asks == [] && b.bids == [] && quantity > 0 && price > 0
    ensures var r := PlaceLimit(b, "", side, id, quantity, price, 0);
            && r.book == b.With(side, [Order(id, side, quantity, price, "", 0)], b.VolumeOn(side) + quantity)
            && SubmissionOf(id, r).None?
  {
    hide Good, Cost, RoundDiv;
    var f := Matching.Match([], LimitOf(side, price), "", quantity);
    assert f == Matching.Fill.Fill([], None, 0, quantity, []);
  }

  lemma PlaceSecond()
    requires Good(OPENED.book)
    ensures var r := PlaceLimit(OPENED.book, "", Buy, 1, 1, TWO, 0);
            && r.book == SOLD.book && |r.done| == 1 && r.done[0].id == 1 && r.partial == Some(Resting(1))
  {
    assert Find([Resting(2)], 1) == None;
    var f := Matching.Match([Resting(2)], AtMost(TWO), "", 1);
    assert f == Matching.Fill.Fill([], Some(Resting(1)), 1, 0, [Resting(1)] + [Resting(2)][1..]);
    assert [Resting(2)][1..] == [];
  }

  lemma SubmitSecond(r: LimitResult)
    requires |r.done| == 1 && r.done[0].id == 1 && r.partial == Some(Resting(1))
    ensures SubmissionOf(1, r) == Some(Submission(1, [0]))
  {
    assert r.done[1..] == [] && Others(1, []) == [];
    assert Others(1, r.done) == [] + [];
    assert MakersOf(1, r.done, r.partial) == [] + [0] == [0];
  }

  lemma ExecSecond()
    ensures Exec(BOTH, Submission(1, [0])) == Some(SOLD.chain)
  {
    var o := Buyer(1, 2, 1);
    assert Settlement.Fill(o, Seller(2, 3)) == Some(Leg(o, Seller(1, 2), 1, 1, false));
    assert [0][1..] == [];
    assert MatchLoop(SOLD.chain, o, [], "", "").value.orders == SOLD.chain;
  }

  lemma FirstStep()
    requires Good(EMPTY)
    ensures Perform(INITIAL, FIRST) == MADE
  {
    assert INITIAL.created + [Seller(2, 3)] == [Seller(2, 3)];
  }

  lemma SecondStep()
    requires Good(OPENED.book)
    ensures Perform(OPENED, SECOND) == BIDDING
  {
    assert OPENED.created + [Buyer(1, 2, 1)] == [Buyer(1, 2, 1)];
  }

  lemma ArrivalIsDelivery(s: System)
    requires Good(s.book) && s.created != [] && Base(s.created[0]) > 0
    ensures Perform(s, ARRIVE) == Delivered(s, 0)
  {
  }

  /** A delivered order, given what the book and the market make of it. */
  lemma DeliveryOf(s: System, o: ChainOrder, price: nat, book: Book, m: Option<Submission>, submitted: seq<Submission>)
    requires Good(s.book) && s.created == [o] && Base(o) > 0 && PriceOf(o) == price
    requires var r := PlaceLimit(s.book, o.creator, o.side, o.id, Base(o), price, 0);
             r.book == book && SubmissionOf(o.id, r) == m
    requires submitted == s.submitted + (if m.Some? then [m.value] else [])
    ensures Perform(s, ARRIVE) == s.(book := book, created := [], submitted := submitted)
  {
    hide PlaceLimit, Good, PriceOf, SubmissionOf, Perform;
    ArrivalIsDelivery(s);
    assert s.created[1..] == [];
  }

  lemma ArrivesInEmpty(s: System, o: ChainOrder, price: nat)
    requires Good(s.book) && s.book.asks == [] && s.book.bids == [] && s.created == [o] && o.creator == ""
    requires Base(o) > 0 && PriceOf(o) == price > 0
    ensures var book := s.book.With(o.side, [Order(o.id, o.side, Base(o), price, "", 0)],
              s.book.VolumeOn(o.side) + Base(o));
            Perform(s, ARRIVE) == s.(book := book, created := [])
  {
    PlaceInEmpty(s.book, o.side, o.id, Base(o), price);
    var r := PlaceLimit(s.book, "", o.side, o.id, Base(o), price, 0);
    hide Perform, PlaceLimit, Good, PriceOf, SubmissionOf, RoundDiv;
    assert s.submitted + [] == s.submitted;
    DeliveryOf(s, o, price, r.book, SubmissionOf(o.id, r), s.submitted);
  }

  lemma SecondRuns()
    requires Good(MATCHED.book)
    ensures Perform(MATCHED, Execute) == SOLD
  {
    ExecSecond();
    hide Exec;
    assert MATCHED.submitted[1..] == [];
  }

  lemma Open() returns (actions: seq<Action>)
    ensures Reaches(INITIAL, actions, OPENED)
  {
    GoodBooks();
    ThreePrices();
    FirstStep();
    ReachesSelf(INITIAL);
    hide Perform, Good, Reaches, PriceOf;
    ArrivesInEmpty(MADE, Seller(2, 3), ONE_AND_A_HALF);
    actions := Onward([], INITIAL, FIRST, MADE);
    actions := Onward(actions, MADE, ARRIVE, OPENED);
  }

  lemma Bid() returns (actions: seq<Action>)
    ensures Reaches(INITIAL, actions, BIDDING)
  {
    GoodBooks();
    SecondStep();
    hide Perform, Good, Reaches;
    actions := Open();
    actions := Onward(actions, OPENED, SECOND, BIDDING);
  }

  /** The buyer is delivered to a book with one seller of two units, and its match is submitted. */
  lemma SecondArrives(s: System, m: Submission)
    requires s == BIDDING && m == Submission(1, [0])
    ensures Good(s.book) && Enabled(s, ARRIVE) && Harmless(s, ARRIVE) && Perform(s, ARRIVE) == MATCHED
  {
    GoodBooks();
    ThreePrices();
    PlaceSecond();
    var r := PlaceLimit(s.book, "", Buy, 1, 1, TWO, 0);
    SubmitSecond(r);
    hide Perform, Good, PlaceLimit, PriceOf, SubmissionOf, RoundDiv;
    assert s.submitted + [m] == [m];
    DeliveryOf(s, Buyer(1, 2, 1), TWO, r.book, SubmissionOf(1, r), [m]);
  }

  lemma MatchSecond() returns (actions: seq<Action>)
    ensures Reaches(INITIAL, actions, MATCHED)
  {
    SecondArrives(BIDDING, Submission(1, [0]));
    hide *;
    var bidding := BIDDING;
    actions := Bid();
    actions := Onward(actions, bidding, ARRIVE, MATCHED);
  }

  const THIRD := Make("", "", 3, 2, 0, Buy)

  const DEARER := System(SOLD.book, SOLD.chain[2 := Buyer(2, 3, 2)], 3, [Buyer(2, 3, 2)], [], BOTH[2 := Buyer(2, 3, 2)])

  lemma ThirdStep()
    requires Good(SOLD.book)
    ensures Perform(SOLD, THIRD) == DEARER
  {
    assert SOLD.created + [Buyer(2, 3, 2)] == [Buyer(2, 3, 2)];
  }

  /** The buyer takes one unit: the seller's amounts round up to one for two, its price stays one and a half. */
  lemma Dearer() returns (actions: seq<Action>)
    ensures Reaches(INITIAL, actions, DEARER)
  {
    GoodBooks();
    SecondRuns();
    ThirdStep();
    hide Perform, Good, Reaches;
    actions := MatchSecond();
    actions := Onward(actions, MATCHED, Execute, SOLD);
    actions := Onward(actions, SOLD, THIRD, DEARER);
  }

  /** A maker whose amounts have drifted is matched although what is left of it neither crosses the taker nor
      rounds to the taker's price: the contract pays it two and debits the buyer one. */
  lemma MatchedWithoutCrossing() returns (actions: seq<Action>, s: System)
    ensures Reaches(INITIAL, actions, s) && s.submitted == [] && s.created != [] && Good(s.book)
    ensures var o := s.created[0];
            && o.side == Buy && Base(o) > 0 && 0 in s.chain && s.chain[0].side == Sell && Base(s.chain[0]) > 0
            && SubmissionOf(o.id, PlaceLimit(s.book, o.creator, o.side, o.id, Base(o), PriceOf(o), 0))
                == Some(Submission(2, [0]))
            && !Crosses(o, s.chain[0]) && PriceOf(o) != PriceOf(s.chain[0])
            && Base(o) * Base(s.chain[0]) <= PRICE_UNIT
            && Settlement.Fill(o, s.chain[0]).Some?
            && var leg := Settlement.Fill(o, s.chain[0]).value; leg.toMaker == 2 && o.input - leg.taker.input == 1
  {
    GoodBooks();
    ThreePrices();
    ThirdSubmits();
    actions := Dearer();
    s := DEARER;
    hide PlaceLimit, Good, SubmissionOf, PriceOf, Reaches;
    assert s.created[0] == Buyer(2, 3, 2) && s.chain[0] == Seller(1, 2);
  }

  lemma ThirdSubmits()
    requires Good(SOLD.book)
    ensures SubmissionOf(2, PlaceLimit(SOLD.book, "", Buy, 2, 2, ONE_AND_A_HALF, 0)) == Some(Submission(2, [0]))
  {
    assert Find([Resting(1)], 2) == None;
    var f := Matching.Match([Resting(1)], AtMost(ONE_AND_A_HALF), "", 2);
    assert [Resting(1)][1..] == [];
    assert f == Matching.Fill.Fill([], None, 0, 1, []).After([Resting(1)]);
    var r := PlaceLimit(SOLD.book, "", Buy, 2, 2, ONE_AND_A_HALF, 0);
    assert r.done == [Resting(1)] && r.partial.Some? && r.partial.value.id == 2;
    assert r.done[1..] == [] && Others(2, []) == [];
    assert Others(2, r.done) == [0];
  }

  /** An order cancelled before the engine heard of it, and a taker cancelled while its match is on its way: in
      both cases the engine's book held nothing of the order when it went, and in the end, with nothing on its
      way, a resting order is not on chain or not with its quantity. */
  lemma RemovedWhileUndelivered() returns (made: System, removed: System, last: System)
    ensures Takes(INITIAL, FIRST, made) && Takes(made, Remove({0}), removed) && Takes(removed, ARRIVE, last)
    ensures BookMatches(removed.book, removed.chain) && 0 !in removed.book.AllIds()
    ensures last.created == [] && last.submitted == [] && last.book.asks == [Resting(2)] && 0 !in last.chain
  {
    GoodBooks();
    FirstStep();
    ThreePrices();
    made := MADE;
    removed := MADE.(chain := map[0 := Seller(2, 3)] - {0});
    assert Perform(made, Remove({0})) == removed;
    hide Good, PriceOf;
    ArrivesInEmpty(removed, Seller(2, 3), ONE_AND_A_HALF);
    last := Perform(removed, ARRIVE);
  }

  lemma RemovedWhileInFlight() returns (actions: seq<Action>, matched: System, removed: System, last: System)
    ensures Reaches(INITIAL, actions, matched)
    ensures Takes(matched, Remove({1}), removed) && Takes(removed, Execute, last)
    ensures 1 !in removed.book.AllIds()
    ensures last.created == [] && last.submitted == [] && last.book.asks == [Resting(1)]
    ensures last.chain == map[0 := Seller(2, 3)]
  {
    GoodBooks();
    actions := MatchSecond();
    matched := MATCHED;
    removed := Perform(matched, Remove({1}));
    assert removed.chain == map[0 := Seller(2, 3)];
    assert Exec(removed.chain, Submission(1, [0])) == None;
    last := Perform(removed, Execute);
    hide Reaches, Good;
  }

  /** Somebody matches the buyer before the engine has heard of it: the seller that rests with two units has one
      on chain, and the engine and the chain are out of step. */
  lemma HarmfulIntrusion() returns (actions: seq<Action>, bidding: System, after: System)
    ensures Reaches(INITIAL, actions, bidding) && InSync(bidding) && bidding.submitted == []
    ensures Takes(bidding, Intrude(Submission(1, [0])), after) && !InSync(after)
    ensures |after.book.asks| == 1 && after.book.asks[0].id == 0 && after.book.asks[0].quantity == 2
    ensures 0 in after.chain && after.chain[0].input == 1
  {
    GoodBooks();
    assert InSync(INITIAL);
    actions := Bid();
    bidding, after := BIDDING, INTRUDED;
    RunInSync(INITIAL, actions, bidding);
    Intruded(bidding);
    hide InSync, Reaches, Good, Perform;
    OutOfStep(after);
  }

  const INTRUDED := SOLD.(book := OPENED.book, created := [Buyer(1, 2, 1)])

  lemma Intruded(s: System)
    requires s == BIDDING
    ensures Takes(s, Intrude(Submission(1, [0])), INTRUDED)
  {
    ExecSecond();
    hide Exec;
    assert BIDDING.chain == BOTH;
  }

  lemma OutOfStep(s: System)
    requires s.submitted == [] && s.book.asks != []
    requires s.book.asks[0].id in s.chain && Base(s.chain[s.book.asks[0].id]) != s.book.asks[0].quantity
    ensures !InSync(s)
  {
    hide Good;
    assert ExecAll(s.chain, []) == Some(s.chain);
    assert BookMatches(s.book, s.chain) ==> Mirrors(s.book.asks[0], s.chain);
  }

  /** A second buyer of one unit, not yet delivered, while the first one's match is on its way. */
  const CROWDED := System(SOLD.book, BOTH[2 := Buyer(2, 2, 1)], 3, [Buyer(2, 2, 1)], [Submission(1, [0])],
                          BOTH[2 := Buyer(2, 2, 1)])

  /** Somebody matches the second buyer with the seller first. The seller shrinks once by the intruding match and
      is then met in full by the one in flight, which leaves its amounts alone: its base comes out right. */
  lemma IntrusionByCoincidence() returns (actions: seq<Action>)
    ensures Reaches(INITIAL, actions, CROWDED)
    ensures var m := Submission(2, [0]);
            InSync(CROWDED) && Exec(CROWDED.chain, m).Some? && !Harmless(CROWDED, Intrude(m))
            && InSync(CROWDED.(chain := Exec(CROWDED.chain, m).value))
  {
    hide *;
    var crowded, chain, twice := CROWDED, CROWDED.chain, ServedFirst();
    var once := chain[0 := Seller(1, 2)];
    actions := CrowdedReached();
    CrowdedMatches(chain);
    CrowdedChains(chain, once, twice);
    CrowdedInSync(chain, once);
    CrowdedInSync(once, twice);
    CrowdedConcerned(crowded, once);
  }

  lemma CrowdedConcerned(s: System, after: map<nat, ChainOrder>)
    requires s == CROWDED && Exec(s.chain, Submission(2, [0])) == Some(after) && after == s.chain[0 := Seller(1, 2)]
    ensures Enabled(s, Intrude(Submission(2, [0]))) && !Harmless(s, Intrude(Submission(2, [0])))
  {
    hide Exec;
    assert s.book.asks[0].id == 0;
    assert s.chain[0] == Seller(2, 3) && Concerned(s, 0);
  }

  lemma CrowdedChains(chain: map<nat, ChainOrder>, once: map<nat, ChainOrder>, twice: map<nat, ChainOrder>)
    requires chain == CROWDED.chain && once == chain[0 := Seller(1, 2)] && twice == ServedFirst()
    ensures chain.Keys == once.Keys == twice.Keys == {0, 1, 2}
    ensures forall id :: id in chain ==> chain[id].id == once[id].id == twice[id].id == id
    ensures once[0] == twice[0] == Seller(1, 2) && once[2] == twice[2] == Buyer(2, 2, 1)
  {
  }

  /** The second buyer's match, the first one's, and the first one's after the second's. */
  lemma CrowdedMatches(chain: map<nat, ChainOrder>)
    requires chain == CROWDED.chain
    ensures Exec(chain, Submission(2, [0])) == Some(chain[0 := Seller(1, 2)])
    ensures Exec(chain, Submission(1, [0])) == Some(chain[0 := Seller(1, 2)])
    ensures Exec(chain[0 := Seller(1, 2)], Submission(1, [0])) == Some(ServedFirst())
  {
    CrowdedLegs();
    hide Exec, Settlement.Fill;
    OneLeg(chain, Buyer(2, 2, 1), Leg(Buyer(2, 2, 1), Seller(1, 2), 1, 1, false));
    OneLeg(chain, Buyer(1, 2, 1), Leg(Buyer(1, 2, 1), Seller(1, 2), 1, 1, false));
    OneLeg(chain[0 := Seller(1, 2)], Buyer(1, 2, 1), Leg(Buyer(1, 0, 0), Seller(1, 2), 2, 1, true));
  }

  lemma CrowdedLegs()
    ensures Settlement.Fill(Buyer(2, 2, 1), Seller(2, 3)) == Some(Leg(Buyer(2, 2, 1), Seller(1, 2), 1, 1, false))
    ensures Settlement.Fill(Buyer(1, 2, 1), Seller(2, 3)) == Some(Leg(Buyer(1, 2, 1), Seller(1, 2), 1, 1, false))
    ensures Settlement.Fill(Buyer(1, 2, 1), Seller(1, 2)) == Some(Leg(Buyer(1, 0, 0), Seller(1, 2), 2, 1, true))
  {
  }

  lemma CrowdedReached() returns (actions: seq<Action>)
    ensures Reaches(INITIAL, actions, CROWDED)
  {
    GoodBooks();
    CrowdedStep();
    hide Perform, Good, Reaches;
    actions := MatchSecond();
    actions := Onward(actions, MATCHED, SECOND, CROWDED);
  }

  lemma CrowdedStep()
    requires Good(MATCHED.book)
    ensures Perform(MATCHED, SECOND) == CROWDED
  {
    assert MATCHED.created + [Buyer(2, 2, 1)] == [Buyer(2, 2, 1)];
  }

  function ServedFirst(): map<nat, ChainOrder> { CROWDED.chain[0 := Seller(1, 2)][1 := Buyer(1, 0, 0)] }

  /** A match of a taker with order 0 alone. */
  lemma OneLeg(chain: map<nat, ChainOrder>, taker: ChainOrder, leg: Leg)
    requires taker.id in chain && chain[taker.id] == taker && 0 in chain
    requires Settlement.Fill(taker, chain[0]) == Some(leg)
    ensures Exec(chain, Submission(taker.id, [0])) == Some(Store(chain, leg))
  {
    assert [0][1..] == [];
    assert MatchLoop(Store(chain, leg), leg.taker, [], "", "") == Some(Settled(Store(chain, leg), leg.taker, []));
  }

  lemma CrowdedInSync(chain: map<nat, ChainOrder>, settled: map<nat, ChainOrder>)
    requires chain.Keys == settled.Keys == {0, 1, 2}
    requires forall id :: id in chain ==> chain[id].id == id && settled[id].id == id
    requires Exec(chain, Submission(1, [0])) == Some(settled)
    requires settled[0] == Seller(1, 2) && settled[2] == Buyer(2, 2, 1)
    ensures InSync(CROWDED.(chain := chain))
  {
    GoodBooks();
    hide Good, Exec;
    var ms := [Submission(1, [0])];
    assert ms[1..] == [];
    assert ExecAll(chain, ms) == ExecAll(settled, []);
    assert RefersTo(ms[0], chain.Keys);
    assert Mirrors(Resting(1), settled);
  }

  // ---------- the handshake ----------

  function Row(taker: nat, maker: nat): MatchRecord { MatchRecord("market", "", taker, [maker], [1], Sell, false) }

  function Tx(taker: nat, maker: nat, hash: Option<Handshake.Hash>, registered: bool, outcome: Handshake.Outcome,
              delivered: nat):
    Handshake.Tx
  {
    Handshake.Tx("market", taker, [maker], hash, registered, outcome, delivered)
  }

  /** A contract with nothing stored, and one with a seller 2 and a buyer 3 of one unit for one. */
  const BARE := Deployed("first", "second")

  const STOCKED := BARE.(orders := map[2 := ChainOrder(2, "s", "", 1, 1, 0, Sell),
                                       3 := ChainOrder(3, "b", "", 1, 1, 0, Buy)],
                         balance := map["first" := 1, "second" := 1], counter := 4)

  lemma MatchOutcomes()
    ensures Settlement.MatchOrders(BARE, 0, [1]).1 == Reverted
    ensures Settlement.MatchOrders(STOCKED, 2, [3]).1.Executed?
    ensures Settlement.MatchOrders(STOCKED, 2, [3]).1.events == [2, 3]
  {
    var t, m := STOCKED.orders[2], STOCKED.orders[3];
    var leg := Leg(t.(input := 0, output := 0), m, 1, 1, true);
    assert Settlement.Fill(t, m) == Some(leg);
    assert [3][1..] == [];
    var transfers := [Transfer("b", "first", 1), Transfer("s", "second", 1)];
    assert LegTransfers(leg, "first", "second") + [] == transfers;
    assert transfers[1..] == [Transfer("s", "second", 1)] && transfers[1..][1..] == [];
    assert MatchLoop(STOCKED.orders, t, [3], "first", "second").value.transfers == transfers;
    assert Pay(STOCKED.balance, transfers).Some?;
    Handshake.MatchEmits(STOCKED, 2, [3]);
  }

  /** Two rows and what becomes of the two transactions; the second one's hash is "b". */
  function Two(first: Handshake.Tx, second: Handshake.Tx, waiting: map<Handshake.Hash, Handshake.Wait>,
               pushed: seq<Handshake.Update>, log: seq<nat>): Handshake.World
  {
    Handshake.World([first, second], [Row(0, 1), Row(2, 3)], Handshake.Notifier(waiting, pushed), log, 0, false)
  }

  function First(hash: Option<Handshake.Hash>, outcome: Handshake.Outcome): Handshake.Tx {
    Tx(0, 1, hash, false, outcome, 0)
  }

  function Second(registered: bool, outcome: Handshake.Outcome, delivered: nat): Handshake.Tx {
    Tx(2, 3, Some("b"), registered, outcome, delivered)
  }

  function Waits(received: seq<OrderId>): map<Handshake.Hash, Handshake.Wait> {
    map["b" := Handshake.Wait(2, received)]
  }

  function Fresh(taker: nat, maker: nat): Handshake.Tx { Tx(taker, maker, None, false, Handshake.Unsettled, 0) }

  const LOST := First(Some("a"), Handshake.Failed)

  lemma BothSubmitted() returns (actions: seq<Handshake.Action>)
    ensures Handshake.Reaches(Handshake.INITIAL, actions, Two(Fresh(0, 1), Fresh(2, 3), map[], [], []))
  {
    var one := Handshake.World([Fresh(0, 1)], [Row(0, 1)], Handshake.Notifier(map[], []), [], 0, false);
    var two := Two(Fresh(0, 1), Fresh(2, 3), map[], [], []);
    assert Handshake.Steps(Handshake.INITIAL, Handshake.Submit(Row(0, 1)), one);
    assert Handshake.Steps(one, Handshake.Submit(Row(2, 3)), two);
    Handshake.ReachesThen(Handshake.INITIAL, [], Handshake.INITIAL, Handshake.Submit(Row(0, 1)), one);
    Handshake.ReachesThen(Handshake.INITIAL, [] + [Handshake.Submit(Row(0, 1))], one, Handshake.Submit(Row(2, 3)), two);
    actions := [] + [Handshake.Submit(Row(0, 1))] + [Handshake.Submit(Row(2, 3))];
  }

  lemma BothSent(sent: Handshake.Tx, after: Handshake.Tx)
    requires sent == First(Some("a"), Handshake.Unsettled) && after == Second(false, Handshake.Unsettled, 0)
    ensures Handshake.Steps(Two(Fresh(0, 1), Fresh(2, 3), map[], [], []), Handshake.Send(0, "a"),
                            Two(sent, Fresh(2, 3), map[], [], []))
    ensures Handshake.Steps(Two(sent, Fresh(2, 3), map[], [], []), Handshake.Send(1, "b"),
                            Two(sent, after, map[], [], []))
  {
  }

  lemma SecondAnnounced(sent: Handshake.Tx, before: Handshake.Tx, after: Handshake.Tx)
    requires sent == First(Some("a"), Handshake.Unsettled)
    requires before == Second(false, Handshake.Unsettled, 0) && after == Second(true, Handshake.Unsettled, 0)
    ensures Handshake.Steps(Two(sent, before, map[], [], []), Handshake.Announce(1),
              Two(sent, after, Waits([]), [], []))
  {
  }

  lemma BothSettled(sent: Handshake.Tx, before: Handshake.Tx, after: Handshake.Tx)
    requires sent == First(Some("a"), Handshake.Unsettled) && before == Second(true, Handshake.Unsettled, 0)
    requires after == Second(true, Handshake.Done([2, 3]), 0)
    ensures Handshake.Steps(Two(sent, before, Waits([]), [], []), Handshake.Settle(0, BARE),
                            Two(LOST, before, Waits([]), [], []))
    ensures Handshake.Steps(Two(LOST, before, Waits([]), [], []), Handshake.Settle(1, STOCKED),
                            Two(LOST, after, Waits([]), [], []))
  {
    MatchOutcomes();
    hide Settlement.MatchOrders;
  }

  const UPDATE := Handshake.Update("market", [2, 3])

  lemma SecondHeard(done: Handshake.Outcome)
    requires done == Handshake.Done([2, 3])
    ensures Handshake.Steps(Two(LOST, Second(true, done, 0), Waits([]), [], []), Handshake.Deliver(1),
                            Two(LOST, Second(true, done, 1), Waits([2]), [], []))
    ensures Handshake.Steps(Two(LOST, Second(true, done, 1), Waits([2]), [], []), Handshake.Deliver(1),
                            Two(LOST, Second(true, done, 2), Waits([2, 3]), [UPDATE], [1]))
  {
    assert [] + [2] == [2] && [2] + [3] == [2, 3];
  }

  lemma OneUpdate(done: Handshake.Outcome) returns (actions: seq<Handshake.Action>)
    requires done == Handshake.Done([2, 3])
    ensures Handshake.Reaches(Handshake.INITIAL, actions,
                              Two(LOST, Second(true, done, 2), Waits([2, 3]), [UPDATE], [1]))
  {
    var unsettled := Handshake.Unsettled;
    var sent := First(Some("a"), unsettled);
    BothSent(sent, Second(false, unsettled, 0));
    SecondAnnounced(sent, Second(false, unsettled, 0), Second(true, unsettled, 0));
    BothSettled(sent, Second(true, unsettled, 0), Second(true, done, 0));
    SecondHeard(done);
    var w2 := Two(Fresh(0, 1), Fresh(2, 3), map[], [], []);
    var w3 := Two(sent, Fresh(2, 3), map[], [], []);
    var w4 := Two(sent, Second(false, unsettled, 0), map[], [], []);
    var w5 := Two(sent, Second(true, unsettled, 0), Waits([]), [], []);
    var w6 := Two(LOST, Second(true, unsettled, 0), Waits([]), [], []);
    var w7 := Two(LOST, Second(true, done, 0), Waits([]), [], []);
    var w8 := Two(LOST, Second(true, done, 1), Waits([2]), [], []);
    var w9 := Two(LOST, Second(true, done, 2), Waits([2, 3]), [UPDATE], [1]);
    hide Handshake.Steps, Handshake.Reaches, Two;
    actions := BothSubmitted();
    actions := Then(actions, w2, Handshake.Send(0, "a"), w3);
    actions := Then(actions, w3, Handshake.Send(1, "b"), w4);
    actions := Then(actions, w4, Handshake.Announce(1), w5);
    actions := Then(actions, w5, Handshake.Settle(0, BARE), w6);
    actions := Then(actions, w6, Handshake.Settle(1, STOCKED), w7);
    actions := Then(actions, w7, Handshake.Deliver(1), w8);
    actions := Then(actions, w8, Handshake.Deliver(1), w9);
  }

  lemma Then(actions: seq<Handshake.Action>, w: Handshake.World, a: Handshake.Action, after: Handshake.World)
    returns (more: seq<Handshake.Action>)
    requires Handshake.Reaches(Handshake.INITIAL, actions, w) && Handshake.Steps(w, a, after)
    ensures Handshake.Reaches(Handshake.INITIAL, more, after)
  {
    Handshake.ReachesThen(Handshake.INITIAL, actions, w, a, after);
    more := actions + [a];
  }

  /** The first of two matches fails on chain, the second goes through, and its UPDATE finishes the first's row. */
  lemma WrongRowFinished() returns (actions: seq<Handshake.Action>, w: Handshake.World)
    ensures Handshake.Reaches(Handshake.INITIAL, actions, w) && Handshake.Quiet(w) && !w.down
    ensures |w.rows| == |w.txs| == 2 && w.txs[0].outcome.Failed? && w.txs[1].outcome.Done?
    ensures w.rows[0].finished && !w.rows[1].finished
  {
    var done := Handshake.Done([2, 3]);
    var w9 := Two(LOST, Second(true, done, 2), Waits([2, 3]), [UPDATE], [1]);
    w := w9.(rows := [Row(0, 1).(finished := true), Row(2, 3)], confirmed := 1);
    assert Handshake.Steps(w9, Handshake.Process, w);
    hide Handshake.Steps, Handshake.Reaches;
    actions := OneUpdate(done);
    actions := Then(actions, w9, Handshake.Process, w);
  }
}

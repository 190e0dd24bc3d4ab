/** Every interleaving of creates on chain, deliveries to the engine and executions of submitted matches,
    and of what others do to the chain meanwhile. */
module Pipeline {
  import opened Orders
  import Matching
  import opened Books
  import opened BookLaws
  import opened Settlement
  import opened Fills
  import opened Ownership
  import opened Simulation
  import opened Lockstep

  /** The price unit: sixteen decimal digits. */
  const PRICE_UNIT: nat := 10_000_000_000_000_000

  /** The limit price the notifier derives from the two amounts; it would divide by a zero base. */
  function PriceOf(o: ChainOrder): nat
    requires Base(o) > 0
  {
    RoundDiv(Quote(o) * PRICE_UNIT, Base(o))
  }

  /** It is the second token per unit of the first that the amounts come to, to the nearest sixteenth digit, upwards
      if two are as near. */
  lemma PriceIsNearest(o: ChainOrder)
    requires Base(o) > 0
    ensures NearestPrice(PriceOf(o), o)
  {
    RoundsToNearest(Quote(o) * PRICE_UNIT, Base(o));
  }

  ghost predicate NearestPrice(price: int, o: ChainOrder) {
    var (base, quote) := if o.side == Sell then (o.input, o.output) else (o.output, o.input);
    -base < 2 * (price * base - quote * 10_000_000_000_000_000) <= base
  }

  /** `created` are create events on their way to the engine, `submitted` matches on their way to the chain;
      `made` keeps every order as it was made. */
  datatype System = System(book: Book, chain: map<nat, ChainOrder>, counter: nat, created: seq<ChainOrder>,
                           submitted: seq<Submission>, made: map<nat, ChainOrder>)

  const INITIAL := System(EMPTY, map[], 0, [], [], map[])

  /** `saved` is whether the database takes a delivered order. `Lose` is a submission that is never sent, or that
      the contract reverts for lack of funds. `Remove` is what cancels and frees do to the order storage, `Intrude`
      what a match called by somebody else does. */
  datatype Action =
    | Make(creator: Address, matchProvider: Address, input: nat, output: nat, epoch: nat, side: Side)
    | Deliver(now: int, saved: bool)
    | Execute
    | Lose
    | Remove(ids: set<nat>)
    | Intrude(m: Submission)

  predicate Enabled(s: System, a: Action) {
    match a
    case Make(_, _, _, _, _, _) => s.counter + 1 < TWO_TO_THE_64
    case Deliver(_, _) => s.created != [] && Base(s.created[0]) > 0
    case Execute => s.submitted != []
    case Lose => s.submitted != []
    case Remove(_) => true
    case Intrude(_) => true
  }

  /** The engine takes a delivered order and submits its match, if it made one. */
  function Delivered(s: System, now: int): System
    requires s.created != [] && Base(s.created[0]) > 0 && Good(s.book)
  {
    var o := s.created[0];
    var r := PlaceLimit(s.book, o.creator, o.side, o.id, Base(o), PriceOf(o), now);
    var m := SubmissionOf(o.id, r);
    s.(book := r.book, created := s.created[1..], submitted := s.submitted + (if m.Some? then [m.value] else []))
  }

  /** A match that cannot run leaves the chain as it is. */
  function Executed(chain: map<nat, ChainOrder>, m: Submission): map<nat, ChainOrder> {
    match Exec(chain, m)
    case None => chain
    case Some(after) => after
  }

  function Perform(s: System, a: Action): System
    requires Enabled(s, a) && Good(s.book)
  {
    match a
    case Make(creator, matchProvider, input, output, epoch, side) =>
      var o := ChainOrder(s.counter, creator, matchProvider, input, output, epoch, side);
      s.(chain := s.chain[o.id := o], counter := s.counter + 1, created := s.created + [o], made := s.made[o.id := o])
    case Deliver(now, saved) => if saved then Delivered(s, now) else s.(created := s.created[1..])
    case Execute => s.(chain := Executed(s.chain, s.submitted[0]), submitted := s.submitted[1..])
    case Lose => s.(submitted := s.submitted[1..])
    case Remove(ids) => s.(chain := s.chain - ids)
    case Intrude(m) => s.(chain := Executed(s.chain, m))
  }

  /** Where the chain will be when it has executed all that is submitted. */
  function ExecAll(chain: map<nat, ChainOrder>, ms: seq<Submission>): Option<map<nat, ChainOrder>>
    decreases |ms|
  {
    if ms == [] then Some(chain)
    else
      match Exec(chain, ms[0])
      case None => None
      case Some(after) => ExecAll(after, ms[1..])
  }

  // ---------- the invariant ----------

  predicate Names(m: Submission, id: nat) {
    id == m.taker || id in m.makers
  }

  /** A submission refers to orders among `ids` only. */
  ghost predicate RefersTo(m: Submission, ids: set<nat>) {
    forall id :: Names(m, id) ==> id in ids
  }

  ghost predicate Undelivered(created: seq<ChainOrder>, book: Book, chain: map<nat, ChainOrder>) {
    && (forall k :: 0 <= k < |created| ==>
          created[k].id in chain && chain[created[k].id] == created[k] && created[k].id !in book.AllIds())
    && (forall j, k :: 0 <= j < k < |created| ==> created[j].id != created[k].id)
  }

  ghost predicate NamedBelow(chain: map<nat, ChainOrder>, n: nat) {
    forall id :: id in chain ==> chain[id].id == id && id < n
  }

  ghost predicate AllRefer(ms: seq<Submission>, ids: set<nat>) {
    forall k :: 0 <= k < |ms| ==> RefersTo(ms[k], ids)
  }

  /** Nothing submitted can fail, and the chain it leads to has, for every order resting in the engine, the
      engine's quantity as its base amount; orders not yet delivered are there as they were made. */
  ghost predicate InSync(s: System) {
    && Good(s.book) && NamedBelow(s.chain, s.counter)
    && AllRefer(s.submitted, s.chain.Keys)
    && ExecAll(s.chain, s.submitted).Some?
    && var settled := ExecAll(s.chain, s.submitted).value;
       && settled.Keys == s.chain.Keys && NamedBelow(settled, s.counter)
       && BookMatches(s.book, settled)
       && Undelivered(s.created, s.book, settled)
  }

  // ---------- who is concerned ----------

  ghost predicate InFlight(s: System, id: nat) {
    exists k :: 0 <= k < |s.submitted| && Names(s.submitted[k], id)
  }

  ghost predicate Awaited(s: System, id: nat) {
    exists k :: 0 <= k < |s.created| && s.created[k].id == id
  }

  /** The engine holds the order, or will be told of it, or a match on its way to the chain names it. */
  ghost predicate Concerned(s: System, id: nat) {
    id in s.book.AllIds() || Awaited(s, id) || InFlight(s, id)
  }

  /** Others may do to the chain what they like with orders that do not concern the engine, and a match may be
      lost that would change only orders of no concern once it is gone. */
  ghost predicate Harmless(s: System, a: Action)
    requires Enabled(s, a)
  {
    match a
    case Remove(ids) => forall id :: id in ids && id in s.chain ==> !Concerned(s, id)
    case Intrude(m) =>
      var after := Executed(s.chain, m);
      forall id :: id in s.chain && id in after && after[id] != s.chain[id] ==> !Concerned(s, id)
    case Lose =>
      var after, rest := Executed(s.chain, s.submitted[0]), s.(submitted := s.submitted[1..]);
      forall id :: id in s.chain && id in after && after[id] != s.chain[id] ==> !Concerned(rest, id)
    case _ => true
  }

  // ---------- executing ----------

  /** The two after-states agree on `ids` and are otherwise as before. */
  ghost predicate Alike(one: map<nat, ChainOrder>, two: map<nat, ChainOrder>, r: map<nat, ChainOrder>,
                        q: map<nat, ChainOrder>,
                        ids: set<nat>)
  {
    && r.Keys == one.Keys && q.Keys == two.Keys
    && (forall id :: id in ids ==> id in r && id in q && r[id] == q[id] && r[id].id == id)
    && (forall id :: id in one && id !in ids ==> r[id] == one[id])
    && (forall id :: id in two && id !in ids ==> q[id] == two[id])
  }

  lemma StoreAgrees(one: map<nat, ChainOrder>, two: map<nat, ChainOrder>, leg: Leg, ids: set<nat>)
    requires forall id :: id in ids ==> id in one && id in two && one[id] == two[id] && one[id].id == id
    requires leg.taker.id in ids && leg.maker.id in ids
    ensures Alike(one, two, Store(one, leg), Store(two, leg), ids)
  {
  }

  lemma AlikeThrough(one: map<nat, ChainOrder>, two: map<nat, ChainOrder>, one': map<nat, ChainOrder>,
                     two': map<nat, ChainOrder>, r: map<nat, ChainOrder>, q: map<nat, ChainOrder>, ids: set<nat>)
    requires Alike(one, two, one', two', ids) && Alike(one', two', r, q, ids)
    ensures Alike(one, two, r, q, ids)
  {
  }

  /** On orders that two chains have alike, a match does alike; all others it leaves alone. */
  lemma {:induction false} LoopAgrees(one: map<nat, ChainOrder>, two: map<nat, ChainOrder>, taker: ChainOrder,
                                      makers: seq<nat>, ids: set<nat>)
    requires forall id :: id in ids ==> id in one && id in two && one[id] == two[id] && one[id].id == id
    requires taker.id in ids && forall k :: 0 <= k < |makers| ==> makers[k] in ids
    requires MatchLoop(one, taker, makers, "", "").Some?
    ensures var r, q := MatchLoop(one, taker, makers, "", ""), MatchLoop(two, taker, makers, "", "");
            q.Some? && Alike(one, two, r.value.orders, q.value.orders, ids)
    decreases |makers|
  {
    if makers != [] {
      var leg := Settlement.Fill(taker, one[makers[0]]).value;
      LegKeepsIdentity(taker, one[makers[0]]);
      hide Settlement.Fill, LegTransfers, Store;
      StoreAgrees(one, two, leg, ids);
      LoopAgrees(Store(one, leg), Store(two, leg), leg.taker, makers[1..], ids);
      var r, q := MatchLoop(one, taker, makers, "", ""), MatchLoop(two, taker, makers, "", "");
      AlikeThrough(one, two, Store(one, leg), Store(two, leg), r.value.orders, q.value.orders, ids);
    }
  }

  lemma ExecAgrees(one: map<nat, ChainOrder>, two: map<nat, ChainOrder>, m: Submission, ids: set<nat>)
    requires forall id :: id in ids ==> id in one && id in two && one[id] == two[id] && one[id].id == id
    requires RefersTo(m, ids) && Exec(one, m).Some?
    ensures Exec(two, m).Some? && Alike(one, two, Exec(one, m).value, Exec(two, m).value, ids)
  {
    assert Names(m, m.taker);
    assert forall k :: 0 <= k < |m.makers| ==> Names(m, m.makers[k]);
    LoopAgrees(one, two, one[m.taker], m.makers, ids);
  }

  lemma {:induction false} ExecAllAgrees(one: map<nat, ChainOrder>, two: map<nat, ChainOrder>, ms: seq<Submission>,
                                         ids: set<nat>)
    requires forall id :: id in ids ==> id in one && id in two && one[id] == two[id] && one[id].id == id
    requires AllRefer(ms, ids) && ExecAll(one, ms).Some?
    ensures ExecAll(two, ms).Some? && Alike(one, two, ExecAll(one, ms).value, ExecAll(two, ms).value, ids)
    decreases |ms|
  {
    if ms != [] {
      hide Exec, RefersTo;
      assert RefersTo(ms[0], ids);
      ExecAgrees(one, two, ms[0], ids);
      forall k | 0 <= k < |ms[1..]| ensures RefersTo(ms[1..][k], ids) {
        assert RefersTo(ms[k + 1], ids);
      }
      ExecAllAgrees(Exec(one, ms[0]).value, Exec(two, ms[0]).value, ms[1..], ids);
    }
  }

  lemma ExecKeepsKeys(chain: map<nat, ChainOrder>, m: Submission, n: nat)
    requires NamedBelow(chain, n) && Exec(chain, m).Some? && RefersTo(m, chain.Keys)
    ensures Exec(chain, m).value.Keys == chain.Keys && NamedBelow(Exec(chain, m).value, n)
  {
    ExecAgrees(chain, chain, m, chain.Keys);
  }

  /** A match that runs names stored orders only. */
  lemma {:induction false} LoopFindsMakers(chain: map<nat, ChainOrder>, taker: ChainOrder, makers: seq<nat>)
    requires forall id :: id in chain ==> chain[id].id == id
    requires taker.id in chain && MatchLoop(chain, taker, makers, "", "").Some?
    ensures forall k :: 0 <= k < |makers| ==> makers[k] in chain
    decreases |makers|
  {
    if makers != [] {
      var leg := Settlement.Fill(taker, chain[makers[0]]).value;
      LegKeepsIdentity(taker, chain[makers[0]]);
      LoopFindsMakers(Store(chain, leg), leg.taker, makers[1..]);
    }
  }

  lemma ExecRefers(chain: map<nat, ChainOrder>, m: Submission, n: nat)
    requires NamedBelow(chain, n) && Exec(chain, m).Some?
    ensures RefersTo(m, chain.Keys)
  {
    LoopFindsMakers(chain, chain[m.taker], m.makers);
  }

  lemma {:induction false} ExecAllAppend(chain: map<nat, ChainOrder>, ms: seq<Submission>, m: Submission)
    requires ExecAll(chain, ms).Some?
    ensures ExecAll(chain, ms + [m]) == Exec(ExecAll(chain, ms).value, m)
    decreases |ms|
  {
    if ms == [] {
      assert ms + [m] == [m] && [m][1..] == [];
    } else {
      assert (ms + [m])[1..] == ms[1..] + [m];
      ExecAllAppend(Exec(chain, ms[0]).value, ms[1..], m);
    }
  }

  // ---------- every action keeps engine and chain in step ----------

  /** What is in flight does to another chain, alike on the orders it names, just what it does to this one. */
  lemma FlyingLead(s: System, chain: map<nat, ChainOrder>)
    requires InSync(s) && NamedBelow(chain, s.counter)
    requires forall id :: InFlight(s, id) ==> id in s.chain ==> id in chain && chain[id] == s.chain[id]
    ensures AllRefer(s.submitted, chain.Keys) && ExecAll(chain, s.submitted).Some?
    ensures var one, two := ExecAll(s.chain, s.submitted).value, ExecAll(chain, s.submitted).value;
            && two.Keys == chain.Keys && NamedBelow(two, s.counter)
            && (forall id :: InFlight(s, id) ==> id in one && id in two && two[id] == one[id])
            && (forall id :: id in s.chain && !InFlight(s, id) ==> id in one && one[id] == s.chain[id])
            && (forall id :: id in chain && !InFlight(s, id) ==> id in two && two[id] == chain[id])
  {
    hide ExecAll, Good, BookMatches, Undelivered;
    var flying := set id | id in s.chain && InFlight(s, id);
    InFlightStored(s);
    forall k | 0 <= k < |s.submitted| ensures RefersTo(s.submitted[k], flying) && RefersTo(s.submitted[k], chain.Keys) {
      assert RefersTo(s.submitted[k], s.chain.Keys);
      assert forall id :: Names(s.submitted[k], id) ==> InFlight(s, id);
    }
    ExecAllAgrees(s.chain, chain, s.submitted, flying);
  }

  /** A chain that differs only on orders of no concern leads to the same place on those that are. */
  lemma OthersKeepSync(s: System, chain: map<nat, ChainOrder>)
    requires InSync(s) && NamedBelow(chain, s.counter)
    requires forall id :: Concerned(s, id) ==> id in s.chain ==> id in chain && chain[id] == s.chain[id]
    ensures InSync(s.(chain := chain))
    ensures var one, two := ExecAll(s.chain, s.submitted).value, ExecAll(chain, s.submitted).value;
            forall id :: Concerned(s, id) ==> id in one && id in two && two[id] == one[id]
  {
    hide ExecAll, Good, Matches, InFlight, NamedBelow, RefersTo;
    var settled := ExecAll(s.chain, s.submitted).value;
    BookIdsOnChain(s.book, settled);
    FlyingLead(s, chain);
    var after := ExecAll(chain, s.submitted).value;
    MatchesFrame(s.book.asks, settled, after);
    MatchesFrame(s.book.bids, settled, after);
    forall k | 0 <= k < |s.created| ensures s.created[k].id in after && after[s.created[k].id] == s.created[k] {
      assert Awaited(s, s.created[k].id);
    }
  }

  // ---------- exactly which changes keep the step ----------

  /** An order may become `o` on chain: the engine is not still to hear of it, and if it rests there, it keeps its
      type and base. */
  ghost predicate Bearable(s: System, id: nat, before: ChainOrder, o: ChainOrder) {
    !Awaited(s, id) && (id in s.book.AllIds() ==> o.side == before.side && Base(o) == Base(before))
  }

  lemma AlikeMirrors(orders: seq<Order>, one: map<nat, ChainOrder>, two: map<nat, ChainOrder>)
    requires Matches(orders, one)
    requires forall id :: id in Ids(orders) && id in one ==>
               id in two && two[id].id == id && two[id].side == one[id].side && Base(two[id]) == Base(one[id])
    ensures Matches(orders, two)
  {
    forall k | 0 <= k < |orders| ensures Mirrors(orders[k], two) {
      assert Mirrors(orders[k], one) && orders[k].id in Ids(orders);
    }
  }

  lemma BearableKeepsSync(s: System, chain: map<nat, ChainOrder>)
    requires InSync(s) && NamedBelow(chain, s.counter) && chain.Keys == s.chain.Keys
    requires forall id :: InFlight(s, id) && id in chain ==> chain[id] == s.chain[id]
    requires forall id :: id in chain && chain[id] != s.chain[id] ==> Bearable(s, id, s.chain[id], chain[id])
    ensures InSync(s.(chain := chain))
  {
    hide ExecAll, Good, Matches, InFlight, RefersTo;
    var settled := ExecAll(s.chain, s.submitted).value;
    BookIdsOnChain(s.book, settled);
    FlyingLead(s, chain);
    var after := ExecAll(chain, s.submitted).value;
    AlikeMirrors(s.book.asks, settled, after);
    AlikeMirrors(s.book.bids, settled, after);
    forall k | 0 <= k < |s.created| ensures s.created[k].id in after && after[s.created[k].id] == s.created[k] {
      assert Awaited(s, s.created[k].id);
    }
  }

  lemma SyncIsBearable(s: System, chain: map<nat, ChainOrder>, id: nat)
    requires InSync(s) && NamedBelow(chain, s.counter) && chain.Keys == s.chain.Keys && InSync(s.(chain := chain))
    requires forall i :: InFlight(s, i) && i in chain ==> chain[i] == s.chain[i]
    requires id in chain && chain[id] != s.chain[id]
    ensures Bearable(s, id, s.chain[id], chain[id])
  {
    hide ExecAll, Good, Matches, RefersTo, NamedBelow, InFlight;
    FlyingLead(s, chain);
    SameBase(s.book, ExecAll(s.chain, s.submitted).value, ExecAll(chain, s.submitted).value);
  }

  /** Whatever becomes of the orders no match in flight names, engine and chain stay in step exactly when every
      change is bearable. */
  lemma ChangeKeepsStepIff(s: System, chain: map<nat, ChainOrder>)
    requires InSync(s) && NamedBelow(chain, s.counter) && chain.Keys == s.chain.Keys
    requires forall id :: InFlight(s, id) && id in chain ==> chain[id] == s.chain[id]
    ensures InSync(s.(chain := chain))
            <==> forall id :: id in chain && chain[id] != s.chain[id] ==> Bearable(s, id, s.chain[id], chain[id])
  {
    hide InSync, NamedBelow, Bearable;
    if InSync(s.(chain := chain)) {
      forall id | id in chain && chain[id] != s.chain[id] ensures Bearable(s, id, s.chain[id], chain[id]) {
        SyncIsBearable(s, chain, id);
      }
    }
    if forall id :: id in chain && chain[id] != s.chain[id] ==> Bearable(s, id, s.chain[id], chain[id]) {
      BearableKeepsSync(s, chain);
    }
  }

  lemma InFlightStored(s: System)
    requires InSync(s)
    ensures forall id :: InFlight(s, id) ==> id in s.chain
  {
    forall id | InFlight(s, id) ensures id in s.chain {
      var k :| 0 <= k < |s.submitted| && Names(s.submitted[k], id);
      assert RefersTo(s.submitted[k], s.chain.Keys);
    }
  }

  lemma MakeInSync(s: System, a: Action)
    requires InSync(s) && a.Make? && Enabled(s, a)
    ensures InSync(Perform(s, a))
    ensures ExecAll(Perform(s, a).chain, s.submitted).value
            == ExecAll(s.chain, s.submitted).value[s.counter := Perform(s, a).created[|s.created|]]
  {
    hide ExecAll, Good, Matches;
    var after := Perform(s, a);
    var o := after.created[|s.created|];
    var settled := ExecAll(s.chain, s.submitted).value;
    assert s.counter !in s.chain;
    ExecAllAgrees(s.chain, after.chain, s.submitted, s.chain.Keys);
    assert ExecAll(after.chain, s.submitted).value == settled[o.id := o];
    forall k | 0 <= k < |s.submitted| ensures RefersTo(s.submitted[k], after.chain.Keys) {
      assert RefersTo(s.submitted[k], s.chain.Keys);
    }
    BookIdsOnChain(s.book, settled);
    MatchesFrame(s.book.asks, settled, settled[o.id := o]);
    MatchesFrame(s.book.bids, settled, settled[o.id := o]);
    assert o.id !in s.book.AllIds();
    assert forall k :: 0 <= k < |s.created| ==> after.created[k] == s.created[k];
  }

  lemma BookIdsOnChain(b: Book, chain: map<nat, ChainOrder>)
    requires BookMatches(b, chain)
    ensures forall id :: id in b.AllIds() ==> id in chain
  {
    forall id | id in b.AllIds() ensures id in chain {
      if id in Ids(b.asks) {
        var k :| 0 <= k < |b.asks| && b.asks[k].id == id;
        assert Mirrors(b.asks[k], chain);
      } else {
        var k :| 0 <= k < |b.bids| && b.bids[k].id == id;
        assert Mirrors(b.bids[k], chain);
      }
    }
  }

  lemma ExecuteInSync(s: System)
    requires InSync(s) && s.submitted != []
    ensures Exec(s.chain, s.submitted[0]).Some? && InSync(Perform(s, Execute))
    ensures ExecAll(Perform(s, Execute).chain, Perform(s, Execute).submitted) == ExecAll(s.chain, s.submitted)
  {
    ExecKeepsKeys(s.chain, s.submitted[0], s.counter);
    var after := Perform(s, Execute);
    forall k | 0 <= k < |after.submitted| ensures RefersTo(after.submitted[k], after.chain.Keys) {
      assert RefersTo(s.submitted[k + 1], s.chain.Keys);
    }
  }

  /** Only the taker's own id can be new in the book. */
  lemma LimitBookIds(b: Book, account: Account, side: Side, id: OrderId, quantity: int, price: int, now: int)
    requires Good(b)
    ensures PlaceLimit(b, account, side, id, quantity, price, now).book.AllIds() <= b.AllIds() + {id}
  {
    var r := PlaceLimit(b, account, side, id, quantity, price, now);
    if r.error.None? {
      MatchIds(side.Opposite(), b.On(side.Opposite()), LimitOf(side, price), account, quantity);
      var f := Matching.Match(b.On(side.Opposite()), LimitOf(side, price), account, quantity);
      var o := Order(id, side, f.left, price, account, now);
      var k := InsertSplits(side, b.On(side), o);
      SpliceIds(b.On(side), k, o);
    }
  }

  /** What a delivery must do for the chain to stay where the engine expects it. */
  lemma SubmitInSync(s: System, book: Book, m: Option<Submission>)
    requires InSync(s) && s.created != [] && Good(book)
    requires book.AllIds() <= s.book.AllIds() + {s.created[0].id}
    requires var settled := ExecAll(s.chain, s.submitted).value;
             match m
             case None => BookMatches(book, settled)
             case Some(m) =>
               && m.taker == s.created[0].id && (forall id :: id in m.makers ==> id in s.book.AllIds())
               && Exec(settled, m).Some? && BookMatches(book, Exec(settled, m).value)
               && ChainStep(settled, m, Exec(settled, m).value)
    ensures InSync(s.(book := book, created := s.created[1..],
              submitted := s.submitted + (if m.Some? then [m.value] else [])))
  {
    hide Good, Matches, ExecAll, Exec;
    var settled := ExecAll(s.chain, s.submitted).value;
    BookIdsOnChain(s.book, settled);
    assert s.submitted + [] == s.submitted;
    assert s.created[0].id in settled;
    if m.Some? {
      ExecAllAppend(s.chain, s.submitted, m.value);
      forall k | 1 <= k < |s.created| ensures Exec(settled, m.value).value[s.created[k].id] == s.created[k] {
        assert s.created[0].id != s.created[k].id;
      }
    }
  }

  lemma DeliverInSync(s: System, now: int)
    requires InSync(s) && Enabled(s, Deliver(now, true))
    ensures InSync(Perform(s, Deliver(now, true)))
  {
    hide PlaceLimit, Matches, Exec, SubmissionOf, RoundDiv, ChainStep;
    var o := s.created[0];
    var settled := ExecAll(s.chain, s.submitted).value;
    var r := PlaceLimit(s.book, o.creator, o.side, o.id, Base(o), PriceOf(o), now);
    DeliverInStep(s.book, settled, o, o.creator, PriceOf(o), now);
    LimitKeepsGood(s.book, o.creator, o.side, o.id, Base(o), PriceOf(o), now);
    LimitBookIds(s.book, o.creator, o.side, o.id, Base(o), PriceOf(o), now);
    SubmitInSync(s, r.book, SubmissionOf(o.id, r));
  }

  lemma DropInSync(s: System, now: int)
    requires InSync(s) && Enabled(s, Deliver(now, false))
    ensures InSync(Perform(s, Deliver(now, false)))
  {
  }

  /** What others do keeps engine and chain in step as long as it is harmless. */
  lemma OutsideInSync(s: System, a: Action)
    requires InSync(s) && (a.Remove? || a.Intrude?) && Harmless(s, a)
    ensures InSync(Perform(s, a))
    ensures var one, two := ExecAll(s.chain, s.submitted).value, ExecAll(Perform(s, a).chain, s.submitted).value;
            forall id :: Concerned(s, id) ==> id in one && id in two && two[id] == one[id]
  {
    hide ExecAll, Good, Matches, Exec, Concerned;
    if a.Intrude? && Exec(s.chain, a.m).Some? {
      ExecRefers(s.chain, a.m, s.counter);
      ExecKeepsKeys(s.chain, a.m, s.counter);
    }
    OthersKeepSync(s, Perform(s, a).chain);
  }

  /** Losing a match is undoing it on the chain it would have made. */
  lemma LoseInSync(s: System)
    requires InSync(s) && s.submitted != [] && Harmless(s, Lose)
    ensures InSync(Perform(s, Lose))
    ensures var one := ExecAll(s.chain, s.submitted).value;
            var two := ExecAll(s.chain, s.submitted[1..]).value;
            forall id :: Concerned(Perform(s, Lose), id) ==> id in one && id in two && two[id] == one[id]
  {
    hide ExecAll, Good, Matches, Exec, Awaited, InFlight, NamedBelow;
    ExecuteInSync(s);
    ExecKeepsKeys(s.chain, s.submitted[0], s.counter);
    var run := Perform(s, Execute);
    assert forall id :: Concerned(run, id) <==> Concerned(Perform(s, Lose), id) by {
      hide Exec;
      SameConcern(run, Perform(s, Lose));
    }
    OthersKeepSync(run, s.chain);
    assert run.(chain := s.chain) == Perform(s, Lose);
  }

  lemma SameConcern(s: System, other: System)
    requires s.book == other.book && s.created == other.created && s.submitted == other.submitted
    ensures forall id :: Concerned(s, id) <==> Concerned(other, id)
    ensures forall id :: InFlight(s, id) <==> InFlight(other, id)
    ensures forall id :: Awaited(s, id) <==> Awaited(other, id)
  {
    forall id ensures Awaited(s, id) <==> Awaited(other, id) {
    }
  }

  /** From the start, under any interleaving, engine and chain stay in step. */
  lemma PerformInSync(s: System, a: Action)
    requires InSync(s) && Enabled(s, a) && Harmless(s, a)
    ensures InSync(Perform(s, a))
  {
    match a
    case Make(_, _, _, _, _, _) => MakeInSync(s, a);
    case Deliver(now, saved) => if saved { DeliverInSync(s, now); } else { DropInSync(s, now); }
    case Execute => ExecuteInSync(s);
    case Lose => LoseInSync(s);
    case Remove(_) => OutsideInSync(s, a);
    case Intrude(_) => OutsideInSync(s, a);
  }

  ghost predicate Takes(s: System, a: Action, after: System) {
    Good(s.book) && Enabled(s, a) && after == Perform(s, a)
  }

  /** One action, enabled and, if it is that of others, harmless. */
  ghost predicate Steps(s: System, a: Action, after: System) {
    Takes(s, a, after) && Harmless(s, a)
  }

  ghost predicate Trace(states: seq<System>, actions: seq<Action>, s: System, after: System) {
    && |states| == |actions| + 1 && states[0] == s && states[|actions|] == after
    && forall k :: 0 <= k < |actions| ==> Steps(states[k], actions[k], states[k + 1])
  }

  /** `after` can be reached from `s` by the actions, one step each. */
  ghost predicate Reaches(s: System, actions: seq<Action>, after: System) {
    exists states :: Trace(states, actions, s, after)
  }

  lemma ReachesSelf(s: System)
    ensures Reaches(s, [], s)
  {
    assert Trace([s], [], s, s);
  }

  lemma ReachesThen(s: System, actions: seq<Action>, between: System, a: Action, after: System)
    requires Reaches(s, actions, between) && Steps(between, a, after)
    ensures Reaches(s, actions + [a], after)
  {
    hide Steps;
    var states :| Trace(states, actions, s, between);
    assert Trace(states + [after], actions + [a], s, after);
  }

  lemma StepInSync(s: System, a: Action, after: System)
    requires InSync(s) && Steps(s, a, after)
    ensures InSync(after)
  {
    PerformInSync(s, a);
  }

  lemma {:induction false} TraceInSync(states: seq<System>, actions: seq<Action>, s: System, after: System, k: nat)
    requires Trace(states, actions, s, after) && InSync(s) && k < |states|
    ensures InSync(states[k])
  {
    hide InSync, Steps;
    if k > 0 {
      TraceInSync(states, actions, s, after, k - 1);
      StepInSync(states[k - 1], actions[k - 1], states[k]);
    }
  }

  lemma RunInSync(s: System, actions: seq<Action>, after: System)
    requires InSync(s) && Reaches(s, actions, after)
    ensures InSync(after)
  {
    hide InSync, Steps;
    var states :| Trace(states, actions, s, after);
    TraceInSync(states, actions, s, after, |actions|);
  }

  /** In every reachable state where the chain has caught up, each order resting in the engine has on chain
      its own type and exactly its own quantity left to trade: input of a seller, output of a buyer. */
  lemma BookEqualsChain(actions: seq<Action>, after: System, side: Side, k: nat)
    requires Reaches(INITIAL, actions, after) && after.submitted == [] && k < |after.book.On(side)|
    ensures var o := after.book.On(side)[k];
            && o.id in after.chain && after.chain[o.id].side == o.side == side
            && o.quantity == if side == Sell then after.chain[o.id].input else after.chain[o.id].output
  {
    RunInSync(INITIAL, actions, after);
    assert Mirrors(after.book.On(side)[k], after.chain);
  }

  // ---------- when others break the step ----------

  /** Removing stored orders, by cancels or frees, keeps engine and chain in step exactly when none of them
      rests in the engine, is still to be delivered to it, or is named by a match in flight. */
  lemma RemovalKeepsStepIff(s: System, ids: set<nat>)
    requires InSync(s)
    ensures InSync(s.(chain := s.chain - ids)) <==> forall id :: id in ids && id in s.chain ==> !Concerned(s, id)
  {
    hide ExecAll, Good, Matches;
    var after := s.(chain := s.chain - ids);
    if Harmless(s, Remove(ids)) {
      OutsideInSync(s, Remove(ids));
    }
    if InSync(after) {
      BookIdsOnChain(s.book, ExecAll(after.chain, s.submitted).value);
      InFlightStored(after);
      forall id | id in ids && id in s.chain ensures !Concerned(s, id) {
        assert id !in after.chain && InFlight(after, id) == InFlight(s, id);
      }
    }
  }

  /** A removed maker also makes the match that names it fail. */
  lemma {:induction false} CancelledMakerFails(chain: map<nat, ChainOrder>, taker: ChainOrder, makers: seq<nat>,
                                               id: nat)
    requires forall i :: i in chain ==> chain[i].id == i
    requires taker.id in chain && id in makers && id !in chain
    ensures MatchLoop(chain, taker, makers, "", "").None?
    decreases |makers|
  {
    if makers[0] in chain && Settlement.Fill(taker, chain[makers[0]]).Some? {
      var leg := Settlement.Fill(taker, chain[makers[0]]).value;
      LegKeepsIdentity(taker, chain[makers[0]]);
      CancelledMakerFails(Store(chain, leg), leg.taker, makers[1..], id);
    }
  }

  ghost predicate Lowered(before: ChainOrder, after: ChainOrder) {
    after.side == before.side && (after == before || Base(after) < Base(before))
  }

  lemma ShrunkIsLowered(before: ChainOrder, after: ChainOrder, fill: nat)
    requires Shrunk(before, after, fill)
    ensures Lowered(before, after) && after.id == before.id
  {
    NothingOfNothing(Quote(before), Base(before));
  }

  lemma WritingLowersBase(chain: map<nat, ChainOrder>, o: ChainOrder, fill: nat)
    requires o.id in chain && Shrunk(chain[o.id], o, fill)
    ensures var stored := chain[o.id := o];
            && stored.Keys == chain.Keys
            && forall id :: id in chain ==> (id != o.id ==> stored[id] == chain[id]) && Lowered(chain[id], stored[id])
  {
    hide Shrunk;
    ShrunkIsLowered(chain[o.id], o, fill);
  }

  lemma LegLowersBase(chain: map<nat, ChainOrder>, taker: ChainOrder, maker: ChainOrder)
    requires taker.id in chain && chain[taker.id] == taker && maker.id in chain && chain[maker.id] == maker
    requires maker.side != taker.side && Settlement.Fill(taker, maker).Some?
    ensures var leg := Settlement.Fill(taker, maker).value;
            var stored := Store(chain, leg);
            && leg.taker.id == taker.id && leg.taker.side == taker.side && stored.Keys == chain.Keys
            && stored[taker.id] == leg.taker
            && (forall id :: id in chain && chain[id].id == id ==> stored[id].id == id)
            && forall id :: id in chain ==> Lowered(chain[id], stored[id])
  {
    FillShrinksOne(taker, maker);
    LegKeepsIdentity(taker, maker);
    hide Settlement.Fill, Shrunk, Lowered, Base, Quote;
    var leg := Settlement.Fill(taker, maker).value;
    if leg.writesTaker {
      WritingLowersBase(chain, leg.taker, Base(maker));
    } else {
      WritingLowersBase(chain, leg.maker, Base(taker));
    }
  }

  /** A match between orders of opposite types lowers the base of every order it changes. */
  lemma {:induction false} ChangeLowersBase(chain: map<nat, ChainOrder>, taker: ChainOrder, makers: seq<nat>)
    requires forall i :: i in chain ==> chain[i].id == i
    requires taker.id in chain && chain[taker.id] == taker
    requires forall k :: 0 <= k < |makers| ==> makers[k] in chain && chain[makers[k]].side != taker.side
    requires MatchLoop(chain, taker, makers, "", "").Some?
    ensures var after := MatchLoop(chain, taker, makers, "", "").value.orders;
            forall id :: id in chain ==> id in after && Lowered(chain[id], after[id])
    decreases |makers|
  {
    if makers != [] {
      hide Settlement.Fill, Store;
      var leg := Settlement.Fill(taker, chain[makers[0]]).value;
      LegLowersBase(chain, taker, chain[makers[0]]);
      var stored := Store(chain, leg);
      forall k | 0 <= k < |makers[1..]|
        ensures makers[1..][k] in stored && stored[makers[1..][k]].side != leg.taker.side
      {
        assert makers[1..][k] == makers[k + 1];
      }
      ChangeLowersBase(stored, leg.taker, makers[1..]);
    }
  }

  lemma SameBase(b: Book, one: map<nat, ChainOrder>, two: map<nat, ChainOrder>)
    requires BookMatches(b, one) && BookMatches(b, two)
    ensures forall id :: id in b.AllIds() ==>
              id in one && id in two && one[id].side == two[id].side && Base(one[id]) == Base(two[id])
  {
    BookIdsOnChain(b, one);
    BookIdsOnChain(b, two);
    forall id | id in b.AllIds() ensures one[id].side == two[id].side && Base(one[id]) == Base(two[id]) {
      if id in Ids(b.asks) {
        var k :| 0 <= k < |b.asks| && b.asks[k].id == id;
        assert Mirrors(b.asks[k], one) && Mirrors(b.asks[k], two);
      } else {
        var k :| 0 <= k < |b.bids| && b.bids[k].id == id;
        assert Mirrors(b.bids[k], one) && Mirrors(b.bids[k], two);
      }
    }
  }

  lemma ChangeIsLower(chain: map<nat, ChainOrder>, m: Submission, id: nat, n: nat)
    requires NamedBelow(chain, n) && Exec(chain, m).Some? && RefersTo(m, chain.Keys)
    requires forall i :: i in m.makers && i in chain ==> chain[i].side != chain[m.taker].side
    requires id in chain && id in Exec(chain, m).value && Exec(chain, m).value[id] != chain[id]
    ensures Base(Exec(chain, m).value[id]) < Base(chain[id])
  {
    assert forall k :: 0 <= k < |m.makers| ==> Names(m, m.makers[k]) && m.makers[k] in m.makers;
    ChangeLowersBase(chain, chain[m.taker], m.makers);
  }

  /** A match keeps the keys and types of the orders, and changes none it does not name. */
  lemma ExecTouchesNamed(chain: map<nat, ChainOrder>, m: Submission, n: nat)
    requires NamedBelow(chain, n) && Exec(chain, m).Some?
    ensures var after := Exec(chain, m).value;
            && RefersTo(m, chain.Keys) && after.Keys == chain.Keys && NamedBelow(after, n)
            && forall id :: id in chain ==>
                after[id].side == chain[id].side && (after[id] != chain[id] ==> Names(m, id))
  {
    ExecRefers(chain, m, n);
    var named := set id | id in chain && Names(m, id);
    ExecAgrees(chain, chain, m, named);
    MatchKeepsOrders(chain, chain[m.taker], m.makers, "", "");
  }

  ghost predicate PairsOpposites(chain: map<nat, ChainOrder>, m: Submission) {
    m.taker in chain && forall id :: id in m.makers && id in chain ==> chain[id].side != chain[m.taker].side
  }

  /** What a match changes on chain is bearable for the rest of the system. */
  ghost predicate BearableMatch(s: System, m: Submission, chain: map<nat, ChainOrder>) {
    var after := Executed(chain, m);
    forall id :: id in chain && id in after && after[id] != chain[id] ==>
      !Awaited(s, id) && (id in s.book.AllIds() ==> Base(after[id]) == Base(chain[id]))
  }

  /** A match called by somebody else that names no order in flight keeps engine and chain in step exactly when no
      order it changes is awaited, and those that rest keep their base. Between opposite types that is: exactly
      when it changes no order that concerns the engine. */
  lemma IntrusionKeepsStepIff(s: System, m: Submission)
    requires InSync(s) && Exec(s.chain, m).Some? && forall id :: Names(m, id) ==> !InFlight(s, id)
    ensures InSync(Perform(s, Intrude(m))) <==> BearableMatch(s, m, s.chain)
    ensures PairsOpposites(s.chain, m) ==> (InSync(Perform(s, Intrude(m))) <==> Harmless(s, Intrude(m)))
  {
    ExecTouchesNamed(s.chain, m, s.counter);
    var after := Exec(s.chain, m).value;
    IntrudePerformed(s, m, after);
    hide InSync, Exec, InFlight, BearableMatch, Bearable, Harmless, Awaited, PairsOpposites, RefersTo, Perform, Good;
    ChangeKeepsStepIff(s, after);
    BearableForth(s, m, after);
    if PairsOpposites(s.chain, m) {
      OppositesHarmless(s, m);
    }
  }

  lemma IntrudePerformed(s: System, m: Submission, after: map<nat, ChainOrder>)
    requires Good(s.book) && Exec(s.chain, m) == Some(after)
    ensures Enabled(s, Intrude(m)) && Perform(s, Intrude(m)) == s.(chain := after)
  {
    hide Exec, Good;
  }

  lemma BearableForth(s: System, m: Submission, after: map<nat, ChainOrder>)
    requires Exec(s.chain, m) == Some(after) && after.Keys == s.chain.Keys
    requires forall id :: id in s.chain ==> after[id].side == s.chain[id].side
    ensures BearableMatch(s, m, s.chain)
            <==> forall id :: id in after && after[id] != s.chain[id] ==> Bearable(s, id, s.chain[id], after[id])
  {
    hide Awaited, Base, Exec;
  }

  lemma OppositesHarmless(s: System, m: Submission)
    requires InSync(s) && Exec(s.chain, m).Some? && forall id :: Names(m, id) ==> !InFlight(s, id)
    requires PairsOpposites(s.chain, m)
    ensures BearableMatch(s, m, s.chain) <==> Harmless(s, Intrude(m))
  {
    ExecTouchesNamed(s.chain, m, s.counter);
    OppositesLower(s.chain, m, s.counter);
    hide ExecAll, Good, Matches, Exec, InFlight, Awaited, Base, PairsOpposites;
  }

  /** A lost match no later submission of which names an order: the step is kept exactly when the changes that do
      not come are bearable for what remains; between opposite types, exactly when they are of no concern to it. */
  lemma LossKeepsStepIff(s: System)
    requires InSync(s) && s.submitted != []
    requires forall id :: Names(s.submitted[0], id) ==> !InFlight(Perform(s, Lose), id)
    ensures InSync(Perform(s, Lose)) <==> BearableMatch(s, s.submitted[0], s.chain)
    ensures PairsOpposites(s.chain, s.submitted[0]) ==> (InSync(Perform(s, Lose)) <==> Harmless(s, Lose))
  {
    hide ExecAll, Good, Matches, Exec, InFlight, Awaited;
    var m := s.submitted[0];
    ExecuteInSync(s);
    var run, lost := Perform(s, Execute), Perform(s, Lose);
    ExecTouchesNamed(s.chain, m, s.counter);
    SameConcern(run, lost);
    SameAwaited(s, run);
    ChangeKeepsStepIff(run, s.chain);
    assert run.(chain := s.chain) == lost;
    BearableBack(s, run, m);
    if PairsOpposites(s.chain, m) {
      OppositesLower(s.chain, m, s.counter);
    }
  }

  lemma SameAwaited(s: System, other: System)
    requires s.created == other.created
    ensures forall id :: Awaited(s, id) <==> Awaited(other, id)
  {
  }

  lemma BearableBack(s: System, run: System, m: Submission)
    requires Exec(s.chain, m) == Some(run.chain) && run.chain.Keys == s.chain.Keys && run.book == s.book
    requires forall id :: Awaited(s, id) <==> Awaited(run, id)
    requires forall id :: id in s.chain ==> run.chain[id].side == s.chain[id].side
    ensures BearableMatch(s, m, s.chain)
            <==> forall id :: id in s.chain && s.chain[id] != run.chain[id] ==>
                Bearable(run, id, run.chain[id], s.chain[id])
  {
    hide Awaited, Base, Exec;
  }

  lemma OppositesLower(chain: map<nat, ChainOrder>, m: Submission, n: nat)
    requires NamedBelow(chain, n) && Exec(chain, m).Some? && PairsOpposites(chain, m)
    ensures var after := Exec(chain, m).value;
            forall id :: id in chain && id in after && after[id] != chain[id] ==> Base(after[id]) < Base(chain[id])
  {
    var after := Exec(chain, m).value;
    ExecRefers(chain, m, n);
    forall id | id in chain && id in after && after[id] != chain[id] ensures Base(after[id]) < Base(chain[id]) {
      ChangeIsLower(chain, m, id, n);
    }
  }
}

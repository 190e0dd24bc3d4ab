/** What the engine keeps of an order and what the chain makes of it: prices stay those of the amounts an
    order was made with, while the amounts themselves drift. */
module Origins {
  import opened Orders
  import opened Books
  import opened BookLaws
  import opened Settlement
  import opened Fills
  import opened Simulation
  import opened Lockstep
  import opened Pipeline

  // ---------- the price of a resting order ----------

  /** The order rests at the price of the amounts it was made with. */
  ghost predicate Priced(id: nat, price: int, side: Side, made: map<nat, ChainOrder>) {
    id in made && made[id].id == id && made[id].side == side && Base(made[id]) > 0 && price == PriceOf(made[id])
  }

  ghost predicate PricedBook(b: Book, made: map<nat, ChainOrder>) {
    forall e :: e in Entries(b) ==> Priced(e.0, e.1, e.2, made)
  }

  // ---------- the drift of its amounts ----------

  /** Filled `n` times, each time by at least one unit, since it was made. */
  ghost predicate FilledTimes(o: ChainOrder, origin: ChainOrder, n: nat) {
    && o.side == origin.side && Base(o) + n <= Base(origin)
    && WithinDrift(o, Quote(origin), Base(origin), n)
  }

  ghost predicate Drifted(o: ChainOrder, origin: ChainOrder) {
    exists n: nat :: FilledTimes(o, origin, n)
  }

  lemma FreshIsDrifted(o: ChainOrder)
    ensures Drifted(o, o)
  {
    assert FilledTimes(o, o, 0);
  }

  lemma ShrunkByNothing(o: ChainOrder, after: ChainOrder)
    requires Shrunk(o, after, 0)
    ensures Base(after) == Base(o) && Quote(after) == Quote(o) && after.side == o.side
  {
    NothingOfNothing(Quote(o), Base(o));
    hide RuleOfThree;
  }

  lemma SameAmounts(o: ChainOrder, after: ChainOrder, origin: ChainOrder, n: nat)
    requires FilledTimes(o, origin, n)
    requires Base(after) == Base(o) && Quote(after) == Quote(o) && after.side == o.side
    ensures FilledTimes(after, origin, n)
  {
  }

  lemma FilledOnce(o: ChainOrder, after: ChainOrder, fill: nat, origin: ChainOrder, n: nat)
    requires FilledTimes(o, origin, n) && Shrunk(o, after, fill) && fill > 0
    ensures FilledTimes(after, origin, n + 1)
  {
    DriftStep(o, after, fill, Quote(origin), Base(origin), n);
    hide WithinDrift, RuleOfThree;
  }

  lemma ShrunkIsDrifted(o: ChainOrder, after: ChainOrder, fill: nat, origin: ChainOrder)
    requires Drifted(o, origin) && Shrunk(o, after, fill)
    ensures Drifted(after, origin)
  {
    var n: nat :| FilledTimes(o, origin, n);
    hide FilledTimes, WithinDrift, RuleOfThree;
    if fill == 0 {
      ShrunkByNothing(o, after);
      SameAmounts(o, after, origin, n);
    } else {
      FilledOnce(o, after, fill, origin, n);
    }
  }

  lemma LegKeepsDrifted(chain: map<nat, ChainOrder>, taker: ChainOrder, maker: ChainOrder, id: nat, origin: ChainOrder)
    requires taker.id in chain && chain[taker.id] == taker && maker.id in chain && chain[maker.id] == maker
    requires maker.side != taker.side && Settlement.Fill(taker, maker).Some?
    requires id in chain && chain[id].id == id && Drifted(chain[id], origin)
    ensures var stored := Store(chain, Settlement.Fill(taker, maker).value); id in stored && Drifted(stored[id], origin)
  {
    FillShrinksOne(taker, maker);
    var leg := Settlement.Fill(taker, maker).value;
    if leg.writesTaker && id == taker.id {
      ShrunkIsDrifted(taker, leg.taker, Base(maker), origin);
    } else if !leg.writesTaker && id == maker.id {
      ShrunkIsDrifted(maker, leg.maker, Base(taker), origin);
    }
  }

  lemma {:induction false} LoopKeepsDrifted(chain: map<nat, ChainOrder>, taker: ChainOrder, makers: seq<nat>, id: nat,
                                            origin: ChainOrder)
    requires forall i :: i in chain ==> chain[i].id == i
    requires taker.id in chain && chain[taker.id] == taker
    requires forall k :: 0 <= k < |makers| ==> makers[k] in chain && chain[makers[k]].side != taker.side
    requires MatchLoop(chain, taker, makers, "", "").Some? && id in chain && Drifted(chain[id], origin)
    ensures var after := MatchLoop(chain, taker, makers, "", "").value.orders; id in after && Drifted(after[id], origin)
    decreases |makers|
  {
    if makers != [] {
      hide Settlement.Fill, Store, Drifted;
      var leg := Settlement.Fill(taker, chain[makers[0]]).value;
      LegLowersBase(chain, taker, chain[makers[0]]);
      LegKeepsDrifted(chain, taker, chain[makers[0]], id, origin);
      var stored := Store(chain, leg);
      forall k | 0 <= k < |makers[1..]|
        ensures makers[1..][k] in stored && stored[makers[1..][k]].side != leg.taker.side
      {
        assert makers[1..][k] == makers[k + 1];
      }
      LoopKeepsDrifted(stored, leg.taker, makers[1..], id, origin);
    }
  }

  // ---------- every reachable state ----------

  /** The chain once everything submitted has run. */
  ghost function SettledChain(s: System): map<nat, ChainOrder>
    requires InSync(s)
  {
    ExecAll(s.chain, s.submitted).value
  }

  ghost predicate DriftedBook(b: Book, settled: map<nat, ChainOrder>, made: map<nat, ChainOrder>) {
    forall id :: id in b.AllIds() ==> id in made && id in settled && Drifted(settled[id], made[id])
  }

  /** Each resting order has the price of the amounts it was made with, and on chain amounts that have drifted
      from those; each order not yet delivered is still as it was made. */
  ghost predicate Kept(s: System)
    requires InSync(s)
  {
    && PricedBook(s.book, s.made)
    && DriftedBook(s.book, SettledChain(s), s.made)
    && (forall k :: 0 <= k < |s.created| ==> s.created[k].id in s.made && s.made[s.created[k].id] == s.created[k])
    && (forall id :: id in s.made ==> s.made[id].id == id && id < s.counter)
  }

  lemma MakeKept(s: System, a: Action)
    requires InSync(s) && Kept(s) && a.Make? && Enabled(s, a)
    ensures InSync(Perform(s, a)) && Kept(Perform(s, a))
  {
    hide ExecAll, Good, Drifted, Matches, Ids, Entries;
    MakeInSync(s, a);
    var after := Perform(s, a);
    var o := after.created[|s.created|];
    assert forall k :: 0 <= k < |s.created| ==> after.created[k] == s.created[k];
  }

  lemma ExecuteKept(s: System)
    requires InSync(s) && Kept(s) && s.submitted != []
    ensures InSync(Perform(s, Execute)) && Kept(Perform(s, Execute))
  {
    hide ExecAll, Good, Drifted, Matches, Ids, Entries;
    ExecuteInSync(s);
  }

  lemma OutsideKept(s: System, a: Action)
    requires InSync(s) && Kept(s) && (a.Remove? || a.Intrude?) && Harmless(s, a)
    ensures InSync(Perform(s, a)) && Kept(Perform(s, a))
  {
    hide ExecAll, Good, Drifted, Matches, Ids, Entries;
    OutsideInSync(s, a);
    assert forall id :: id in s.book.AllIds() ==> Concerned(s, id);
  }

  lemma LoseKept(s: System)
    requires InSync(s) && Kept(s) && s.submitted != [] && Harmless(s, Lose)
    ensures InSync(Perform(s, Lose)) && Kept(Perform(s, Lose))
  {
    hide ExecAll, Good, Drifted, Matches, Ids, Entries;
    LoseInSync(s);
    assert forall id :: id in s.book.AllIds() ==> Concerned(Perform(s, Lose), id);
  }

  /** The makers of a delivered order's match are of the other type. */
  lemma MakersOppose(b: Book, settled: map<nat, ChainOrder>, side: Side, makers: seq<nat>)
    requires Good(b) && BookMatches(b, settled) && forall id :: id in makers ==> id in Ids(b.On(side.Opposite()))
    ensures forall k :: 0 <= k < |makers| ==> makers[k] in settled && settled[makers[k]].side != side
  {
    var resting := b.On(side.Opposite());
    forall k | 0 <= k < |makers| ensures makers[k] in settled && settled[makers[k]].side != side {
      assert makers[k] in makers;
      var j :| 0 <= j < |resting| && resting[j].id == makers[k];
      assert Mirrors(resting[j], settled);
    }
  }

  lemma DeliverKept(s: System, now: int)
    requires InSync(s) && Kept(s) && Enabled(s, Deliver(now, true))
    ensures InSync(Perform(s, Deliver(now, true))) && Kept(Perform(s, Deliver(now, true)))
  {
    hide PlaceLimit, ExecAll, Good, Matches, Exec, SubmissionOf, RoundDiv, Drifted, Ids, Entries;
    DeliverInSync(s, now);
    var o := s.created[0];
    var settled := SettledChain(s);
    var r := PlaceLimit(s.book, o.creator, o.side, o.id, Base(o), PriceOf(o), now);
    LimitEntries(s.book, o.creator, o.side, o.id, Base(o), PriceOf(o), now);
    LimitBookIds(s.book, o.creator, o.side, o.id, Base(o), PriceOf(o), now);
    FreshIsDrifted(o);
    var m := SubmissionOf(o.id, r);
    assert s.submitted + [] == s.submitted;
    if m.Some? {
      ExecAllAppend(s.chain, s.submitted, m.value);
      DeliverInStep(s.book, settled, o, o.creator, PriceOf(o), now);
      ExecKeepsDrifted(s.book, settled, o, m.value);
    }
    assert DriftedBook(s.book, settled, s.made);
  }

  lemma ExecKeepsDrifted(b: Book, settled: map<nat, ChainOrder>, o: ChainOrder, m: Submission)
    requires Good(b) && BookMatches(b, settled) && (forall i :: i in settled ==> settled[i].id == i)
    requires o.id in settled && settled[o.id] == o && m.taker == o.id && Exec(settled, m).Some?
    requires forall id :: id in m.makers ==> id in Ids(b.On(o.side.Opposite()))
    ensures var after := Exec(settled, m).value;
            forall id, origin :: id in settled && Drifted(settled[id], origin) ==>
                id in after && Drifted(after[id], origin)
  {
    MakersOppose(b, settled, o.side, m.makers);
    var after := Exec(settled, m).value;
    forall id, origin | id in settled && Drifted(settled[id], origin)
      ensures id in after && Drifted(after[id], origin)
    {
      LoopKeepsDrifted(settled, o, m.makers, id, origin);
    }
  }

  lemma StepKept(s: System, a: Action, after: System)
    requires InSync(s) && Kept(s) && Steps(s, a, after)
    ensures InSync(after) && Kept(after)
  {
    match a
    case Make(_, _, _, _, _, _) => MakeKept(s, a);
    case Deliver(now, saved) => if saved { DeliverKept(s, now); }
    case Execute => ExecuteKept(s);
    case Lose => LoseKept(s);
    case Remove(_) => OutsideKept(s, a);
    case Intrude(_) => OutsideKept(s, a);
  }

  lemma {:induction false} TraceKept(states: seq<System>, actions: seq<Action>, s: System, after: System, k: nat)
    requires Trace(states, actions, s, after) && InSync(s) && Kept(s) && k < |states|
    ensures InSync(states[k]) && Kept(states[k])
  {
    hide InSync, Kept, Steps;
    if k > 0 {
      TraceKept(states, actions, s, after, k - 1);
      StepKept(states[k - 1], actions[k - 1], states[k]);
    }
  }

  lemma RunKept(s: System, actions: seq<Action>, after: System)
    requires InSync(s) && Kept(s) && Reaches(s, actions, after)
    ensures InSync(after) && Kept(after)
  {
    hide InSync, Kept, Steps;
    var states :| Trace(states, actions, s, after);
    TraceKept(states, actions, s, after, |actions|);
  }

  /** In every reachable state a resting order has the price of the amounts it was made with, whatever has
      been filled since, and once all submitted matches have run its amounts will have drifted from those. */
  lemma PriceIsOfOrigin(actions: seq<Action>, s: System, side: Side, k: nat)
    requires Reaches(INITIAL, actions, s) && k < |s.book.On(side)|
    ensures InSync(s)
    ensures var o := s.book.On(side)[k];
            && o.id in s.made && o.id in SettledChain(s) && o.side == side == s.made[o.id].side
            && Base(s.made[o.id]) > 0 && o.price == PriceOf(s.made[o.id]) && NearestPrice(o.price, s.made[o.id])
            && Base(SettledChain(s)[o.id]) == o.quantity && Drifted(SettledChain(s)[o.id], s.made[o.id])
  {
    RunKept(INITIAL, actions, s);
    var o := s.book.On(side)[k];
    EntryOf(s.book, side, k);
    assert Mirrors(o, SettledChain(s));
    assert o.id in Ids(s.book.On(side));
    PriceIsNearest(s.made[o.id]);
  }
}

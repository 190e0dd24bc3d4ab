/** Saving and reloading a book is invisible to everything that follows, owners and volume counters aside. */
module Reloads {
  import opened Orders
  import opened Matching
  import opened Books
  import opened BookRuns
  import opened Records

  /** What a caller sees of a command, owners aside. */
  datatype Observation =
    | SawLimit(done: seq<Order>, partial: Option<Order>, processed: int, error: Option<Error>)
    | SawMarket(done: seq<Order>, partial: Option<Order>, processed: int, left: int, error: Option<Error>)
    | SawCancel(order: Option<Order>)

  function EraseOption(o: Option<Order>): Option<Order> {
    match o
    case None => None
    case Some(o) => Some(Erase(o))
  }

  function Observe(b: Book, c: Command): Observation
    requires Good(b)
  {
    match c
    case Limit(account, side, id, quantity, price, now) =>
      var r := PlaceLimit(b, account, side, id, quantity, price, now);
      SawLimit(EraseAll(r.done), EraseOption(r.partial), r.processed, r.error)
    case Market(account, side, quantity) =>
      var r := PlaceMarket(b, account, side, quantity);
      SawMarket(EraseAll(r.done), EraseOption(r.partial), r.processed, r.left, r.error)
    case Cancel(id) => SawCancel(EraseOption(Books.Cancel(b, id).1))
  }

  lemma EraseFillParts(resting: seq<Order>, limit: Limit, account: Account, quantity: int)
    ensures var f, g := Match(resting, limit, account, quantity), Match(EraseAll(resting), limit, account, quantity);
            && EraseAll(g.done) == EraseAll(f.done) && EraseAll(g.resting) == EraseAll(f.resting)
            && EraseOption(g.partial) == EraseOption(f.partial) && g.processed == f.processed && g.left == f.left
            && |g.done| == |f.done| && Cost(g) == Cost(f) && Total(g.done) == Total(f.done)
  {
    EraseMatch(resting, limit, account, quantity);
    var f, g := Match(resting, limit, account, quantity), Match(EraseAll(resting), limit, account, quantity);
    EraseTotals(f.done);
    EraseTotals(g.done);
    assert |EraseAll(g.done)| == |EraseAll(f.done)|;
    assert f.partial.Some? ==> Erase(f.partial.value).price == f.partial.value.price;
    assert g.partial.Some? ==> Erase(g.partial.value).price == g.partial.value.price;
  }

  /** The two books after a limit order left something to rest, and what the caller saw. */
  lemma RestedAlike(b: Book, account: Account, side: Side, id: OrderId, quantity: int, price: int, now: int)
    requires Good(b) && Good(Reloaded(b))
    requires PlaceLimit(b, account, side, id, quantity, price, now).error.None?
    requires Match(b.On(side.Opposite()), LimitOf(side, price), account, quantity).left > 0
    ensures var c := Limit(account, side, id, quantity, price, now);
            && Reloaded(Step(Reloaded(b), c)) == Reloaded(Step(b, c))
            && Observe(Reloaded(b), c) == Observe(b, c)
  {
    hide Match, Insert, Find, Good, Cost, Total, RoundDiv;
    var maker, limit := side.Opposite(), LimitOf(side, price);
    RefusedAlike(b, account, side, id, quantity, price, now);
    EraseFillParts(b.On(maker), limit, account, quantity);
    EraseTwice(b.On(side));
    var f := Match(b.On(maker), limit, account, quantity);
    var o := Order(id, side, f.left, price, account, now);
    EraseInsert(side, b.On(side), o);
    EraseInsert(side, EraseAll(b.On(side)), o);
  }

  function Filled(b: Book, account: Account, side: Side, id: OrderId, quantity: int, price: int, now: int,
                  t: Order): LimitResult {
    var maker := side.Opposite();
    var f := Match(b.On(maker), LimitOf(side, price), account, quantity);
    LimitResult(AfterMatch(b, maker, f), f.done + [t], f.partial, f.processed, None)
  }

  /** A limit order that is filled at once, with its own record appended to the makers it filled. */
  lemma FilledResult(b: Book, account: Account, side: Side, id: OrderId, quantity: int, price: int, now: int)
    returns (t: Order)
    requires Good(b) && PlaceLimit(b, account, side, id, quantity, price, now).error.None?
    requires Match(b.On(side.Opposite()), LimitOf(side, price), account, quantity).left <= 0
    ensures PlaceLimit(b, account, side, id, quantity, price, now)
              == Filled(b, account, side, id, quantity, price, now, t)
    ensures var f := Match(b.On(side.Opposite()), LimitOf(side, price), account, quantity);
            && 0 <= Cost(f) && 0 < Total(f.done) + f.processed
            && t == Order(id, side, quantity, RoundDiv(Cost(f), Total(f.done) + f.processed), account, now)
  {
    hide Match, Insert, Find, Cost, Total, RoundDiv;
    MatchedCost(b, side.Opposite(), LimitOf(side, price), account, quantity);
    var f := Match(b.On(side.Opposite()), LimitOf(side, price), account, quantity);
    t := Order(id, side, quantity, RoundDiv(Cost(f), Total(f.done) + f.processed), account, now);
  }

  lemma FilledAlike(b: Book, account: Account, side: Side, id: OrderId, quantity: int, price: int, now: int)
    requires Good(b) && Good(Reloaded(b))
    requires PlaceLimit(b, account, side, id, quantity, price, now).error.None?
    requires Match(b.On(side.Opposite()), LimitOf(side, price), account, quantity).left <= 0
    ensures var c := Limit(account, side, id, quantity, price, now);
            && Reloaded(Step(Reloaded(b), c)) == Reloaded(Step(b, c))
            && Observe(Reloaded(b), c) == Observe(b, c)
  {
    hide PlaceLimit, Match, Good, Cost, Total, RoundDiv, Value, EraseAll, Find, Insert, Books.Remove;
    var maker, limit := side.Opposite(), LimitOf(side, price);
    RefusedAlike(b, account, side, id, quantity, price, now);
    EraseFillParts(b.On(maker), limit, account, quantity);
    EraseTwice(b.On(side));
    var t := FilledResult(b, account, side, id, quantity, price, now);
    var u := FilledResult(Reloaded(b), account, side, id, quantity, price, now);
    EraseConcat(Match(b.On(maker), limit, account, quantity).done, [t]);
    EraseConcat(Match(EraseAll(b.On(maker)), limit, account, quantity).done, [t]);
  }

  /** The ids taken are the same, so a limit order is refused by both books or by neither. */
  lemma RefusedAlike(b: Book, account: Account, side: Side, id: OrderId, quantity: int, price: int, now: int)
    requires Good(b) && Good(Reloaded(b))
    ensures PlaceLimit(Reloaded(b), account, side, id, quantity, price, now).error
            == PlaceLimit(b, account, side, id, quantity, price, now).error
  {
    hide Match, Insert, Good, Cost, Total, RoundDiv, Remove;
    EraseRemove(b.asks, id);
    EraseRemove(b.bids, id);
  }

  lemma BothRefused(b: Book, account: Account, side: Side, id: OrderId, quantity: int, price: int, now: int)
    requires Good(b) && Good(Reloaded(b)) && PlaceLimit(b, account, side, id, quantity, price, now).error.Some?
    ensures var c := Limit(account, side, id, quantity, price, now);
            && Reloaded(Step(Reloaded(b), c)) == Reloaded(Step(b, c))
            && Observe(Reloaded(b), c) == Observe(b, c)
  {
    RefusedAlike(b, account, side, id, quantity, price, now);
    RefusedResult(b, account, side, id, quantity, price, now);
    RefusedResult(Reloaded(b), account, side, id, quantity, price, now);
    hide PlaceLimit, Good, EraseAll;
    EraseTwice(b.asks);
    EraseTwice(b.bids);
  }

  lemma RefusedResult(b: Book, account: Account, side: Side, id: OrderId, quantity: int, price: int, now: int)
    requires Good(b) && PlaceLimit(b, account, side, id, quantity, price, now).error.Some?
    ensures var r := PlaceLimit(b, account, side, id, quantity, price, now);
            r == LimitResult(b, [], None, 0, r.error)
  {
    hide Match, Insert, Find, Good, Cost, Total, RoundDiv;
  }

  lemma LimitAlike(b: Book, account: Account, side: Side, id: OrderId, quantity: int, price: int, now: int)
    requires Good(b) && Good(Reloaded(b))
    ensures var c := Limit(account, side, id, quantity, price, now);
            && Reloaded(Step(Reloaded(b), c)) == Reloaded(Step(b, c))
            && Observe(Reloaded(b), c) == Observe(b, c)
  {
    hide Match, PlaceLimit, Good, Reloaded, Step, Observe;
    if PlaceLimit(b, account, side, id, quantity, price, now).error.Some? {
      BothRefused(b, account, side, id, quantity, price, now);
    } else if Match(b.On(side.Opposite()), LimitOf(side, price), account, quantity).left > 0 {
      RestedAlike(b, account, side, id, quantity, price, now);
    } else {
      FilledAlike(b, account, side, id, quantity, price, now);
    }
  }

  lemma MatchedCost(b: Book, maker: Side, limit: Limit, account: Account, quantity: int)
    requires Good(b) && quantity > 0
    ensures var f := Match(b.On(maker), limit, account, quantity);
            && 0 <= f.left && Cost(f) >= Total(f.done) + f.processed == quantity - f.left
  {
    CostIsPositive(b.On(maker), limit, account, quantity);
  }

  lemma MarketAlike(b: Book, account: Account, side: Side, quantity: int)
    requires Good(b) && Good(Reloaded(b))
    ensures var c := Market(account, side, quantity);
            && Reloaded(Step(Reloaded(b), c)) == Reloaded(Step(b, c))
            && Observe(Reloaded(b), c) == Observe(b, c)
  {
    hide Match, Good, Cost, Total, EraseAll;
    if quantity > 0 {
      EraseFillParts(b.On(side.Opposite()), AnyPrice, account, quantity);
      EraseTwice(b.On(side));
    } else {
      EraseTwice(b.asks);
      EraseTwice(b.bids);
    }
  }

  lemma CancelAlike(b: Book, id: OrderId)
    requires Good(b) && Good(Reloaded(b))
    ensures Reloaded(Step(Reloaded(b), Command.Cancel(id))) == Reloaded(Step(b, Command.Cancel(id)))
    ensures Observe(Reloaded(b), Command.Cancel(id)) == Observe(b, Command.Cancel(id))
  {
    hide Good, Find, Books.Remove, EraseAll;
    EraseRemove(b.asks, id);
    EraseRemove(b.bids, id);
    EraseRemove(EraseAll(b.asks), id);
    EraseRemove(EraseAll(b.bids), id);
    EraseTwice(b.asks);
    EraseTwice(b.bids);
  }

  lemma StepAlike(b: Book, c: Command)
    requires Good(b) && Good(Reloaded(b))
    ensures Reloaded(Step(Reloaded(b), c)) == Reloaded(Step(b, c))
    ensures Observe(Reloaded(b), c) == Observe(b, c)
  {
    hide Good, Reloaded, Step, Observe;
    match c
    case Limit(account, side, id, quantity, price, now) => LimitAlike(b, account, side, id, quantity, price, now);
    case Market(account, side, quantity) => MarketAlike(b, account, side, quantity);
    case Cancel(id) => CancelAlike(b, id);
  }

  // ---------- runs with reloads anywhere ----------

  datatype Event = Do(command: Command) | Reload

  function Commands(events: seq<Event>): seq<Command> {
    if events == [] then []
    else (if events[0].Do? then [events[0].command] else []) + Commands(events[1..])
  }

  function EventStep(b: Book, e: Event): (after: Book)
    requires Good(b)
    ensures Good(after)
  {
    match e
    case Do(c) => Step(b, c)
    case Reload => ReloadedGood(b); Reloaded(b)
  }

  function EventRun(b: Book, events: seq<Event>): (after: Book)
    requires Good(b)
    ensures Good(after)
    decreases |events|
  {
    if events == [] then b else EventRun(EventStep(b, events[0]), events[1..])
  }

  function Observed(b: Book, commands: seq<Command>): seq<Observation>
    requires Good(b)
    decreases |commands|
  {
    if commands == [] then [] else [Observe(b, commands[0])] + Observed(Step(b, commands[0]), commands[1..])
  }

  function EventObserved(b: Book, events: seq<Event>): seq<Observation>
    requires Good(b)
    decreases |events|
  {
    if events == [] then []
    else
      (if events[0].Do? then [Observe(b, events[0].command)] else [])
      + EventObserved(EventStep(b, events[0]), events[1..])
  }

  /** Two books that differ only in owners and volume counters behave alike for ever. */
  lemma {:induction false} AlikeForEver(a: Book, b: Book, commands: seq<Command>)
    requires Good(a) && Good(b) && Reloaded(a) == Reloaded(b)
    ensures Observed(a, commands) == Observed(b, commands)
    ensures Reloaded(Run(a, commands)) == Reloaded(Run(b, commands))
    decreases |commands|
  {
    if commands != [] {
      ReloadedGood(a);
      StepAlike(a, commands[0]);
      StepAlike(b, commands[0]);
      AlikeForEver(Step(a, commands[0]), Step(b, commands[0]), commands[1..]);
    }
  }

  lemma ReloadedTwice(b: Book)
    ensures Reloaded(Reloaded(b)) == Reloaded(b)
  {
    EraseTwice(b.asks);
    EraseTwice(b.bids);
  }

  /** Reloads at any points of a run change nothing that is observed, nor where the run ends. */
  lemma {:induction false} ReloadsInvisible(b: Book, events: seq<Event>)
    requires Good(b)
    ensures EventObserved(b, events) == Observed(b, Commands(events))
    ensures Reloaded(EventRun(b, events)) == Reloaded(Run(b, Commands(events)))
    decreases |events|
  {
    hide Good, Step, Observe, Reloaded;
    if events != [] {
      var commands := Commands(events[1..]);
      match events[0]
      case Do(c) =>
        assert Commands(events) == [c] + commands && ([c] + commands)[1..] == commands;
        ReloadsInvisible(Step(b, c), events[1..]);
      case Reload =>
        assert Commands(events) == commands;
        ReloadedGood(b);
        ReloadedTwice(b);
        ReloadsInvisible(Reloaded(b), events[1..]);
        AlikeForEver(Reloaded(b), b, commands);
    }
  }
}

/** The settlement contract as a state machine: what every endpoint does to storage and balances. */
module Settlement {
  import opened Orders

  type Address = string

  type Token = string

  const MAX_ORDERS_PER_USER: nat := 100
  const PERCENT_BASE_POINTS: nat := 100_000
  const FEE_PENALTY_INCREASE_EPOCHS: nat := 5
  const FEE_PENALTY_INCREASE_PERCENT: nat := 1_000
  const FREE_ORDER_FROM_STORAGE_MIN_PENALTIES: nat := 6

  const TWO_TO_THE_64: nat := 0x1_0000_0000_0000_0000

  /** A stored order. `side` is its order type; a buyer pays in the second token, a seller in the first. */
  datatype ChainOrder = ChainOrder(id: nat, creator: Address, matchProvider: Address, input: nat, output: nat,
                                   createEpoch: nat, side: Side)

  datatype Transfer = Transfer(to: Address, token: Token, amount: nat)

  datatype Chain = Chain(orders: map<nat, ChainOrder>, index: map<Address, seq<nat>>, counter: nat,
                         balance: map<Token, nat>, first: Token, second: Token)

  /** A transaction either runs to its end, with its transfers and the ids of its events, or leaves no trace. */
  datatype TxResult = Reverted | Executed(transfers: seq<Transfer>, events: seq<nat>)

  // ---------- balances ----------

  function BalanceOf(balance: map<Token, nat>, token: Token): nat {
    if token in balance then balance[token] else 0
  }

  /** The contract pays out in order; a transfer it cannot cover fails the transaction. */
  function Pay(balance: map<Token, nat>, transfers: seq<Transfer>): Option<map<Token, nat>> {
    if transfers == [] then Some(balance)
    else
      var t := transfers[0];
      if t.amount > BalanceOf(balance, t.token) then None
      else
        var left := if t.amount > 0 then balance[t.token := BalanceOf(balance, t.token) - t.amount] else balance;
        Pay(left, transfers[1..])
  }

  // ---------- matching ----------

  /** Truncating, as the contract's big-integer division is. */
  function RuleOfThree(part: nat, total: nat, value: nat): nat
    requires total > 0
  {
    part * value / total
  }

  /** One taker against one maker. `writesTaker` says which of the two goes back to storage. */
  datatype Leg = Leg(taker: ChainOrder, maker: ChainOrder, toMaker: nat, toTaker: nat, writesTaker: bool)

  /** The four fill branches. None stands for a division by zero or a subtraction below zero. */
  function Fill(taker: ChainOrder, maker: ChainOrder): Option<Leg> {
    if taker.side == Sell then
      if taker.input >= maker.output then
        if taker.input == 0 then None
        else
          var output := RuleOfThree(taker.output, taker.input, maker.output);
          if taker.output < output then None
          else Some(Leg(taker.(input := taker.input - maker.output, output := taker.output - output), maker,
                        taker.input, maker.input, true))
      else
        var input := RuleOfThree(maker.input, maker.output, taker.input);
        if maker.input < input then None
        else Some(Leg(taker, maker.(input := maker.input - input, output := maker.output - taker.input),
                      taker.input, taker.output, false))
    else
      if taker.output >= maker.input then
        if taker.output == 0 then None
        else
          var output := RuleOfThree(taker.input, taker.output, maker.input);
          if taker.input < output then None
          else Some(Leg(taker.(input := taker.input - output, output := taker.output - maker.input), maker,
                        maker.output, maker.input, true))
      else
        var output := RuleOfThree(maker.output, maker.input, taker.output);
        if maker.output < output then None
        else Some(Leg(taker, maker.(input := maker.input - taker.output, output := maker.output - output),
                      output, taker.output, false))
  }

  function LegTransfers(leg: Leg, first: Token, second: Token): seq<Transfer> {
    if leg.taker.side == Sell then
      [Transfer(leg.maker.creator, first, leg.toMaker), Transfer(leg.taker.creator, second, leg.toTaker)]
    else
      [Transfer(leg.maker.creator, second, leg.toMaker), Transfer(leg.taker.creator, first, leg.toTaker)]
  }

  function Store(orders: map<nat, ChainOrder>, leg: Leg): map<nat, ChainOrder> {
    if leg.writesTaker then orders[leg.taker.id := leg.taker] else orders[leg.maker.id := leg.maker]
  }

  datatype Settled = Settled(orders: map<nat, ChainOrder>, taker: ChainOrder, transfers: seq<Transfer>)

  /** The maker loop: the taker is kept at hand, every maker is read from storage as it then is. */
  function MatchLoop(orders: map<nat, ChainOrder>, taker: ChainOrder, makers: seq<nat>, first: Token,
                     second: Token): Option<Settled>
    decreases |makers|
  {
    if makers == [] then Some(Settled(orders, taker, []))
    else if makers[0] !in orders then None
    else
      match Fill(taker, orders[makers[0]])
      case None => None
      case Some(leg) =>
        match MatchLoop(Store(orders, leg), leg.taker, makers[1..], first, second)
        case None => None
        case Some(rest) => Some(rest.(transfers := LegTransfers(leg, first, second) + rest.transfers))
  }

  /** Ids with a stored order, in the order asked for. */
  function Present(orders: map<nat, ChainOrder>, ids: seq<nat>): seq<nat> {
    if ids == [] then [] else (if ids[0] in orders then [ids[0]] else []) + Present(orders, ids[1..])
  }

  function MatchOrders(c: Chain, taker: nat, makers: seq<nat>): (Chain, TxResult) {
    if taker !in c.orders then (c, Reverted)
    else
      match MatchLoop(c.orders, c.orders[taker], makers, c.first, c.second)
      case None => (c, Reverted)
      case Some(s) =>
        match Pay(c.balance, s.transfers)
        case None => (c, Reverted)
        case Some(balance) =>
          (c.(orders := s.orders, balance := balance), Executed(s.transfers, Present(s.orders, [taker] + makers)))
  }

  // ---------- creating ----------

  function Indexed(c: Chain, address: Address): seq<nat> {
    if address in c.index then c.index[address] else []
  }

  /** The caller's ids that still have an order. */
  function Live(c: Chain, address: Address): seq<nat> {
    Present(c.orders, Indexed(c, address))
  }

  function CreateOrder(c: Chain, caller: Address, epoch: nat, token: Token, paid: nat, requested: nat,
                       matchProvider: Address, side: Side): (Chain, TxResult) {
    if side == Sell && token != c.first then (c, Reverted)
    else if |Live(c, caller)| >= MAX_ORDERS_PER_USER then (c, Reverted)
    else
      var o := ChainOrder(c.counter, caller, matchProvider, paid, requested, epoch, side);
      (c.(orders := c.orders[o.id := o],
          index := c.index[caller := [o.id] + Live(c, caller)],
          counter := (c.counter + 1) % TWO_TO_THE_64,
          balance := c.balance[token := BalanceOf(c.balance, token) + paid]),
       Executed([], [o.id]))
  }

  // ---------- cancelling and freeing ----------

  function RefundToken(c: Chain, o: ChainOrder): Token {
    if o.side == Buy then c.second else c.first
  }

  /** Periods since creation, in the 64-bit arithmetic of the contract. */
  function PenaltyCount(o: ChainOrder, epoch: nat): nat {
    ((epoch - o.createEpoch) % TWO_TO_THE_64) / FEE_PENALTY_INCREASE_EPOCHS
  }

  function Penalty(o: ChainOrder, epoch: nat): nat {
    RuleOfThree((PenaltyCount(o, epoch) * FEE_PENALTY_INCREASE_PERCENT) % TWO_TO_THE_64, PERCENT_BASE_POINTS, o.input)
  }

  /** Removes an order against its refund: all of it back to the caller but the penalty, which stays. */
  function CancelOne(c: Chain, id: nat, caller: Address, epoch: nat): Option<(Chain, seq<Transfer>)> {
    if id !in c.orders then None
    else
      var o := c.orders[id];
      var penalty := Penalty(o, epoch);
      if o.input < penalty then None
      else
        var transfers := [Transfer(caller, RefundToken(c, o), o.input - penalty)];
        match Pay(c.balance, transfers)
        case None => None
        case Some(balance) => Some((c.(orders := c.orders - {id}, balance := balance), transfers))
  }

  /** Removes an old order: the creator gets it back but for the penalty, which the caller earns. */
  function FreeOne(c: Chain, id: nat, caller: Address, epoch: nat): Option<(Chain, seq<Transfer>)> {
    if id !in c.orders then None
    else
      var o := c.orders[id];
      var penalty := Penalty(o, epoch);
      if PenaltyCount(o, epoch) < FREE_ORDER_FROM_STORAGE_MIN_PENALTIES || o.input < penalty then None
      else
        var transfers := [Transfer(o.creator, RefundToken(c, o), o.input - penalty),
            Transfer(caller, RefundToken(c, o), penalty)];
        match Pay(c.balance, transfers)
        case None => None
        case Some(balance) => Some((c.(orders := c.orders - {id}, balance := balance), transfers))
  }

  function RemoveOne(c: Chain, id: nat, caller: Address, epoch: nat, free: bool): Option<(Chain, seq<Transfer>)> {
    if free then FreeOne(c, id, caller, epoch) else CancelOne(c, id, caller, epoch)
  }

  function RemoveLoop(c: Chain, ids: seq<nat>, caller: Address, epoch: nat, free: bool): Option<(Chain, seq<Transfer>)>
    decreases |ids|
  {
    if ids == [] then Some((c, []))
    else
      match RemoveOne(c, ids[0], caller, epoch, free)
      case None => None
      case Some((after, transfers)) =>
        match RemoveLoop(after, ids[1..], caller, epoch, free)
        case None => None
        case Some((last, rest)) => Some((last, transfers + rest))
  }

  predicate ContainsAll(base: seq<nat>, items: seq<nat>) {
    forall i :: 0 <= i < |items| ==> items[i] in base
  }

  predicate ContainsNone(base: seq<nat>, items: seq<nat>) {
    forall i :: 0 <= i < |items| ==> items[i] !in base
  }

  /** The ids a cancel writes back: those it cancelled that the caller did not own. */
  function KeptIds(cancelled: seq<nat>, owned: seq<nat>): seq<nat> {
    if cancelled == [] then []
    else (if cancelled[0] in owned then [] else [cancelled[0]]) + KeptIds(cancelled[1..], owned)
  }

  function CancelListed(c: Chain, caller: Address, epoch: nat, ids: seq<nat>): (Chain, TxResult) {
    var owned := Live(c, caller);
    if !ContainsAll(owned, ids) then (c, Reverted)
    else
      var cancelled := Present(c.orders, ids);
      match RemoveLoop(c, cancelled, caller, epoch, false)
      case None => (c, Reverted)
      case Some((after, transfers)) =>
        (after.(index := after.index[caller := KeptIds(cancelled, owned)]), Executed(transfers, cancelled))
  }

  function CancelOrders(c: Chain, caller: Address, epoch: nat, ids: seq<nat>): (Chain, TxResult) {
    if ids == [] then (c, Reverted) else CancelListed(c, caller, epoch, ids)
  }

  function CancelAll(c: Chain, caller: Address, epoch: nat): (Chain, TxResult) {
    CancelListed(c, caller, epoch, Live(c, caller))
  }

  function FreeOrders(c: Chain, caller: Address, epoch: nat, ids: seq<nat>): (Chain, TxResult) {
    if ids == [] || !ContainsNone(Live(c, caller), ids) then (c, Reverted)
    else
      var freed := Present(c.orders, ids);
      match RemoveLoop(c, freed, caller, epoch, true)
      case None => (c, Reverted)
      case Some((after, transfers)) => (after, Executed(transfers, freed))
  }

  // ---------- transactions ----------

  datatype Tx =
    | Create(caller: Address, epoch: nat, token: Token, paid: nat, requested: nat, matchProvider: Address, side: Side)
    | Match(taker: nat, makers: seq<nat>)
    | CancelSome(caller: Address, epoch: nat, ids: seq<nat>)
    | CancelEvery(caller: Address, epoch: nat)
    | Free(caller: Address, epoch: nat, ids: seq<nat>)

  function Apply(c: Chain, tx: Tx): (Chain, TxResult) {
    match tx
    case Create(caller, epoch, token, paid, requested, matchProvider, side) =>
      CreateOrder(c, caller, epoch, token, paid, requested, matchProvider, side)
    case Match(taker, makers) => MatchOrders(c, taker, makers)
    case CancelSome(caller, epoch, ids) => CancelOrders(c, caller, epoch, ids)
    case CancelEvery(caller, epoch) => CancelAll(c, caller, epoch)
    case Free(caller, epoch, ids) => FreeOrders(c, caller, epoch, ids)
  }

  function Run(c: Chain, txs: seq<Tx>): Chain
    decreases |txs|
  {
    if txs == [] then c else Run(Apply(c, txs[0]).0, txs[1..])
  }

  /** A freshly deployed contract. */
  function Deployed(first: Token, second: Token): Chain {
    Chain(map[], map[], 0, map[], first, second)
  }
}

# An order book, its settlement contract, and the road between them

The repository is an exchange in three parts, and this project models all three and the way they fit.

**The matching engine** (`engine/orderbook`) keeps a price-time-priority book in structures that overlap:
an id map onto list elements, and per side a search tree and a map of price queues, linked lists with cached
volumes, and counters. `OrderBooks`, `OrderSides` and `OrderQueues` are classes over shared, mutable list
elements that do what the source does, step by step. `Books` is the reference: two sequences in price-time
order and a matcher (`Matching`) that reads one of them from the front. Every public method of the classes is
proved to do to its objects exactly what the reference does to the sequences (`Levels`, `Links` and
`PriceTree` carry the structure in between), and what an exchange promises is proved of the reference:
priority, maximality, conservation, never crossed, place-then-cancel, exact depth and quotes (`BookLaws`,
`BookRuns`, `Quotes`), and that saving and loading the book cannot be noticed by any later run
(`Records`, `Reloads`).

**The settlement contract** (`contract/contract/src`) is a class over its storage (`Contracts`) and a
transition function over its state (`Settlement`). A transaction runs to its end or leaves no trace. Proved of
its runs: who owns and who is paid (`Ownership`), what is held in escrow (`Escrow`), what rounding does to one
fill, a batch, and the whole life of an order (`Fills`, `Funding`, `Drift`). `Ledger` is the exact account of
what the contract holds beyond its escrow, over every run; `Removals` says when cancels and frees go through and
what they pay, and `Refunds` what becomes of a maker that was filled.

**The link** is a market that submits what its book matched, a notifier that counts the events that come back,
and a contract that recomputes each fill from its own storage. `Simulation`, `Lockstep` and `Pipeline` run
engine and contract side by side under every interleaving of creates, deliveries, executions, submissions that
are lost or fail, and of cancels, frees and matches that others call meanwhile; `Endpoints` shows that these
actions are what the contract's own transactions do. `Origins` and `Prices` say what the engine's prices, which
stay those of the amounts an order was made with, mean for the amounts it has left. `Markets`, `MatchTables`,
`Notifiers` and `Handshake` are the market loop and the event-counting protocol with any number of matches in
flight; `Trades` is what the match table and the trades made of it record.

`Witnesses` and `ContractWitnesses` hold inputs, each reached from the very start, at which the code does not do
what one might expect.

## How the model reads the source

- Quantities are integers in the tokens' base units and prices integers in units of 1e-16, the precision of
  the decimal library's division. `RoundDiv` is that division: half away from zero. A decimal price and its
  printed form name each other, so the price map is keyed by the price itself.
- Engine ids are the decimal text of the contract's 64-bit ids, and stand here as numbers.
- The current time, the epoch, the caller, the token paid in, and whether the database accepts an order are
  parameters. Matching never reads the time: arrival order is the order of the queue.
- Sums of money are unbounded naturals as the contract's big integers are; a subtraction below zero or a
  division by zero is a failed transaction. The order counter and the penalty count wrap at 2^64 as they do
  on chain, and run theorems ask for fewer than 2^64 orders.
- The order table of the database is a map that takes an id once; its other columns are not modelled.
- The tree library is not part of this model: a plain search tree stands for it (`PriceTree`), and the order
  side uses of it only that Put and Remove change one entry and keep the rest in order. The descents
  `LessThan` and `GreaterThan` are the repository's own and are modelled loop by loop (`Floor`, `Ceiling`).
- `Take`, `FillFront`, `WalkLevels`, `TotalCost`, `Rest`, `LoadSides`, `Index` and, in the contract,
  `FillLeg`, `RemoveAll` and `KeepUnowned` are stretches of longer source functions given a name.

## Where the code and its promises part

- `OrderSide.volume` is not touched by a partial fill and not restored by a load. The model keeps that:
  `RunVolume` says by exactly how much the cached volume exceeds what rests.
- A partially filled maker takes the taker's account as its owner, and neither owner nor side volume survives
  a save. `ReloadsInvisible` is therefore stated with owner and side volume erased.
- A buy order is accepted whatever token it is paid in; `CreateConservesIff` gives the exact condition under
  which a create keeps the escrow balanced, `BuyPaidInFirst` a create that does not.
- The penalty grows without bound and a removal fails once it exceeds the deposit. `PenaltyFitsIff` says when, in
  periods and deposit; `PenaltyBlocksCancel` is the first such period of an order of a hundred units.
- The engine compares rounded prices of the amounts orders were made with. It accepts a pair exactly when those
  amounts cross or the two prices round to the same (`AcceptedIff`, and `AcceptedWithoutCrossing` for a pair of
  the second kind). The contract settles from the amounts left, which rounding has moved: what is left of a maker
  crosses the taker exactly when its rise is covered by the margin at which the two were made
  (`AcceptedAndCrossing`). A maker that sells can stop crossing, one that buys cannot, and a margin of a unit per
  fill always suffices (`MarginSuffices`). `MatchedWithoutCrossing` is a run in which the engine has a maker
  matched that crosses neither in amounts nor in rounded price, and the buyer is debited less than the maker is
  paid; `SubmittedBatchFunded` says exactly which submissions are crossing batches and so cannot do that.
- No event of a cancel or free on chain, nor of a match somebody else calls, reaches the engine's book. Removals
  keep engine and chain in step exactly when they concern no order that rests, is still to be delivered, or is
  named by a match in flight (`RemovalKeepsStepIff`; `RemovedWhileUndelivered` and `RemovedWhileInFlight` are
  removals of an order that rests nowhere and yet break it). A match of others that names no order in flight
  keeps them in step exactly when no order it changes is awaited and those that rest keep their base; between
  opposite types, exactly when it changes no order of concern (`IntrusionKeepsStepIff`). `HarmfulIntrusion` is one
  that leaves an order resting with more than it has on chain; one that names an order in flight can leave the
  bases right by coincidence, as `IntrusionByCoincidence` does.
- The launcher gives up on a submission it cannot send, and one that is sent can fail for want of funds; nothing
  tells the engine's book. `LossKeepsStepIff` is the exact condition under which that does no harm.
- An event whose transaction is not registered, be it that the registration is late or that somebody else called
  the match, is a nil dereference that ends the engine process: `DownIffUnregistered`.
- The amount a match row and its trade record for a maker is the quantity of the order the book reports. For a maker
  filled in part that is what is left of it, not what was traded: the two are the same exactly when no maker was
  filled in part, or one by just half (`AmountsTradedIff`). `PartFillMisrecorded` is a run that records two for one.
- An UPDATE message names no transaction, so a confirmation finishes the oldest pending match of its market.
  `FinishedAreExecutedIff` says exactly when those are the matches that were executed, and `WrongRowFinished` is
  a run in which they are not.
- The contract does not check that a match pairs opposite types. With its own type, a full fill and an even share
  of a maker keep it within its drift and an uneven share need not: `SameTypeDriftIff` says of any maker, whatever
  it has been through, exactly when. `SameTypeBreaksDrift` is a run in which it does not.
- A full fill leaves the filled maker stored with all its input, so its creator can cancel it and be refunded
  the whole deposit on top of what the match paid: `FilledIsRefundedAgain`, of every such maker. In the run
  `FilledMakerRefunded` the refund is what another order was made with, whose own cancel then reverts with no
  penalty due. A sell taker's full fill pays the maker the taker's whole input. `LegShortfall` is what each branch
  pays out beyond what it releases, and `LegBalancedIff` when that is nothing.

## Model

| member | source | states |
|---|---|---|
| Matching.MatchTakesPrefix | engine/orderbook/orderbook.go:169-188 | Price-time priority: the makers filled whole are a prefix of the queue, a maker filled in part is the next in line, keeps its place, id, side, price and time, gives exactly the processed quantity, and what is left of it has the taker's account for owner; nothing behind it changes |
| Matching.MatchTradesMaximum | engine/orderbook/orderbook.go:133-141 | The quantity traded is the lesser of what the taker wants and what the crossing makers offer; if some is left, every crossing maker is gone |
| Matching.CrossingIsEveryAcceptable | engine/orderbook/orderbook.go:121-134 | On a sorted side the crossing makers at the front are all the makers whose price the taker accepts |
| Matching.MatchConserves | engine/orderbook/orderbook.go:169-188 | Every unit the taker wanted is traded or left, and leaves the makers' side exactly once |
| Matching.MatchConcat | engine/orderbook/orderbook.go:133-141 | Filling level by level from the best is the same as filling the side read as one queue |
| Books.InsertSplits | engine/orderbook/orderside.go:55-69 | A new order queues behind every order whose price is at least as good and ahead of every worse one |
| BookLaws.LimitKeepsGood | engine/orderbook/orderbook.go:100-167 | A limit order of any kind leaves a book sorted, uniquely named, positive and uncrossed |
| BookLaws.MarketKeepsGood | engine/orderbook/orderbook.go:50-79 | So does a market order |
| BookLaws.CancelKeepsGood | engine/orderbook/orderbook.go:223-236 | So does a cancel, known id or not |
| BookLaws.CancelRemovesOne | engine/orderbook/orderbook.go:223-236 | A cancel finds exactly the ids in the book, takes out that one order with its volume, and leaves all others in their places |
| BookLaws.LimitEntries | engine/orderbook/orderbook.go:169-188 | A limit order leaves every order it does not use up under its id, at its price and on its side; only the taker can be new |
| BookRuns.Run | engine/orderbook/orderbook.go:100-188 | After any sequence of limit, market and cancel commands from a good book, the empty one included, best bid is below best ask and the other book invariants hold |
| BookRuns.LimitTrades | engine/orderbook/orderbook.go:133-141 | What a limit order takes from the opposite side is the lesser of its quantity and the quantity offered at prices it accepts |
| BookRuns.LimitRests | engine/orderbook/orderbook.go:143-150 | Quantity equals traded plus rested; the remainder rests under the order's own id and its own side is otherwise unchanged |
| BookRuns.LimitReports | engine/orderbook/orderbook.go:100-167 | Which of the three errors when, the book then untouched; and for every accepted order what done, partial, processed and the opposite side are, position by position and field by field |
| BookRuns.LimitAverage | engine/orderbook/orderbook.go:150-165 | A taker filled at once is reported at the value that left the opposite side per unit, to the nearest price unit, half a unit upwards, and never beyond its limit |
| BookRuns.MarketAccounts | engine/orderbook/orderbook.go:50-79 | A market order takes the lesser of its quantity and the side, front of the queue first, reports exactly the shortfall, and pays the value that left the side; one for no quantity is refused and changes nothing |
| BookRuns.PlaceThenCancel | engine/orderbook/orderbook.go:143-150 | A limit order that meets no maker and is then cancelled leaves the very book it found, volumes included, and is handed back |
| RoundTrips.PlaceThenCancel | engine/orderbook/orderbook.go:223-236 | The same over the objects: orders, levels, prices, depth, order counts and volumes are as before, and every id has the same list element |
| BookRuns.RunVolume | engine/orderbook/orderbook.go:176-180 | Over any run the cached side volume runs ahead of the resting quantity by exactly what partial fills took |
| Levels.AppendIsInsert | engine/orderbook/orderside.go:55-69 | Appending to the level of its price, opened if need be, is insertion in price-time order |
| Levels.RemoveIsRemove | engine/orderbook/orderside.go:72-88 | Unlinking one element, and its level if that empties, removes that one id from the price-time sequence |
| Levels.BestFirst | engine/orderbook/orderside.go:91-108 | The lowest ask level or highest bid level is the front of the side's sequence |
| Levels.FlattenInjective | engine/orderbook/orderside.go:15-22 | A side's sequence determines its levels: two well-formed level lists that make the same queue are the same |
| PriceTree.Put | engine/orderbook/orderside.go:55-66 | A new key is one new entry at its place in key order |
| PriceTree.Delete | engine/orderbook/orderside.go:79-83 | A removed key is one entry less, the others in order |
| PriceTree.Build | engine/orderbook/orderside.go:209-215 | A tree rebuilt from the price map, walked in any order, holds exactly its queues, each under its own key, as a search tree |
| OrderQueues.OrderQueue.Append | engine/orderbook/orderqueue.go:54-57 | The order goes to the tail in a fresh element and its quantity onto the volume |
| OrderQueues.OrderQueue.Update | engine/orderbook/orderqueue.go:60-65 | The element is overwritten in place and the volume follows; order of the list unchanged |
| OrderQueues.OrderQueue.Remove | engine/orderbook/orderqueue.go:68-71 | That element leaves the list and its quantity the volume |
| OrderSides.OrderSide.Append | engine/orderbook/orderside.go:55-69 | Tree, price map, lists, volume and counters stay one consistent side, with the order appended at its level |
| OrderSides.OrderSide.Remove | engine/orderbook/orderside.go:72-88 | The same for removal, empty levels dropped from tree, map and depth |
| OrderSides.OrderSide.Overwrite | engine/orderbook/orderbook.go:176-180 | Overwriting an element changes its own order and level volume only, leaving side volume and counters alone |
| OrderSides.OrderSide.BestQueues | engine/orderbook/orderside.go:91-108 | Both best-price getters return the extreme level, and nil exactly on an empty side |
| OrderSides.OrderSide.LenIffDepth | engine/orderbook/orderside.go:40-48 | A side has orders exactly when it has levels, so a best queue asked for is never nil while orders remain |
| PriceTree.Floor | engine/orderbook/orderside.go:111-130 | In any search tree the descent ends at the greatest key strictly below the argument, and finds none exactly if there is none |
| PriceTree.Ceiling | engine/orderbook/orderside.go:133-152 | The mirror descent ends at the least key strictly above the argument |
| OrderSides.OrderSide.LessThan | engine/orderbook/orderside.go:111-130 | The descent returns the level with the greatest price strictly below the argument, nil exactly if there is none |
| OrderSides.OrderSide.GreaterThan | engine/orderbook/orderside.go:133-152 | The descent returns the level with the least price strictly above the argument, nil exactly if there is none |
| OrderSides.OrderSide.Elements | engine/orderbook/orderside.go:155-164 | Walking the queues of the price map visits exactly the elements of the side |
| OrderBooks.OrderBook.constructor | engine/orderbook/orderbook.go:20-26 | A new book is the empty reference book, all invariants established |
| OrderBooks.OrderBook.CancelOrder | engine/orderbook/orderbook.go:223-236 | Refines the reference cancel; in the queue the order stood in, only its own element is gone |
| OrderBooks.OrderBook.OrderIsFind | engine/orderbook/orderbook.go:191-198 | Looking an id up in the map finds exactly what the two queues hold under it |
| OrderBooks.OrderBook.ProcessQueue | engine/orderbook/orderbook.go:169-188 | Refines the reference match on the front level: done, partial, processed, left and the book after |
| OrderBooks.OrderBook.ProcessMarketOrder | engine/orderbook/orderbook.go:50-79 | Refines the reference market order in all results and the next book |
| OrderBooks.OrderBook.ProcessLimitOrder | engine/orderbook/orderbook.go:100-167 | Refines the reference limit order in all results, errors included, and the next book |
| OrderBooks.OrderBook.TotalCost | engine/orderbook/orderbook.go:151-162 | The loop sums quantity and price times quantity over the done makers and the partial one |
| OrderBooks.OrderBook.Depth | engine/orderbook/orderbook.go:201-220 | Each side is listed in strictly falling price, every resting price once, with its true total quantity and no other |
| OrderBooks.OrderBook.CalculateMarketPrice | engine/orderbook/orderbook.go:240-274 | The quote from level volumes is what a market order of that quantity would pay order by order; insufficient exactly when that order would be left short |
| Quotes.QuoteStep | engine/orderbook/orderbook.go:256-267 | Crossing one level costs its price times its volume, or times what is left |
| Quotes.DepthIsExact | engine/orderbook/orderbook.go:201-220 | Listing the levels downwards is an exact depth of the flat sequence |
| OrderBooks.OrderBook.Save | engine/orderbook/orderbook.go:282-292 | The record saved describes every level of both sides |
| OrderBooks.OrderBook.Load | engine/orderbook/orderbook.go:295-318 | From any record both sides come back as recorded and the id map leads every element's id to an element that carries it, the bids' if there are two; from the record of a good book it is a sound book with the same orders in the same price-time order |
| OrderSides.OrderSide.Load | engine/orderbook/orderside.go:195-217 | From any record the queues come back in order, price map and tree hold exactly them, and the counters are those recorded; when the record describes levels in price order, none empty, the side is sound and has them |
| OrderBooks.OrderBook.Index | engine/orderbook/orderbook.go:307-315 | The rebuilt id map leads every id of either side to an element that carries it, whatever the sides hold and in whatever order they are walked; on the sides of a good book it names exactly their orders |
| Records.ReloadedKeeps | engine/orderbook/orderbook.go:295-318 | A reload keeps every order in its place with its id, side, quantity, price and time; only owners and the volume counters are lost |
| Reloads.StepAlike | engine/orderbook/orderbook.go:295-318 | Any command on a reloaded book gives the same results, and again a reload of the same book |
| Reloads.AlikeForEver | engine/orderbook/orderbook.go:295-318 | Two books that differ only in owners and side volume give the same results for ever |
| Reloads.ReloadsInvisible | engine/orderbook/orderbook.go:295-318 | Reloads anywhere in a run change nothing that is observed and nothing about where it ends |
| Fills.ShrinkRoundsUp | contract/contract/src/common.rs:143-145 | Subtracting the floored share never underflows, leaves at least and less than one unit more than the exact share, and leaves zero at a complete fill |
| Fills.FillFailsIffEmpty | contract/contract/src/orders.rs:54-118 | The four branches abort exactly when both orders have nothing left to fill |
| Fills.FillShrinksOne | contract/contract/src/orders.rs:54-118 | In every branch exactly one order is written back: base less by the other's base, quote less by the floored share |
| Fills.DriftStep | contract/contract/src/orders.rs:71-77 | One more fill keeps the drift bound, with one more unit of slack |
| Drift.LegKeepsDriftIff | contract/contract/src/orders.rs:54-118 | A leg of any branch and types keeps the order it writes back within its drift, one fill on, exactly when it is steady: a full fill, opposite types, or a share whose rounding the maker's own drift makes up for |
| Drift.SameTypeDriftIff | contract/contract/src/orders.rs:70-115 | A maker with any history, partly served by a taker of its own type, stays within its drift exactly when it has base left, its quote exceeds the taker's base, and the share's remainder times the quote it began at is at most its drift so far times the quote it is left with |
| Drift.EvenIsSteady | contract/contract/src/orders.rs:70-115 | A share that divides evenly is always made up for |
| Drift.OpposedIsSteady | contract/contract/src/orders.rs:41-156 | A match of a taker with makers of the other type, the only kind the engine submits, has steady legs only |
| Drift.RunDrift | contract/contract/src/orders.rs:41-156 | Over any run with steady legs, an order begun at (Q, B) and filled n >= 1 times has Q*base <= quote*B < Q*base + n*B, and no quote once no base is left |
| Drift.DriftFromDeployment | contract/contract/src/orders.rs:41-156 | In particular over every such run from deployment, each order against its own amounts and fills |
| Funding.FullFillFunded | contract/contract/src/orders.rs:86-99 | A buyer's full fill debits at least what it pays the maker exactly when the prices cross |
| Funding.PartFillFunded | contract/contract/src/orders.rs:100-115 | In the partial leg maker and taker receive exactly what the maker's amounts drop by, and it is within the taker's input |
| Funding.CrossingPersists | contract/contract/src/orders.rs:86-99 | A full fill never lowers the taker's limit ratio: what crossed before crosses after |
| Funding.BatchFunded | contract/contract/src/orders.rs:48-150 | Over a whole crossing batch the makers are paid no more than the taker's input, and the taker receives the lesser of what it wants and what they offer |
| Funding.SellerPartFunded | contract/contract/src/orders.rs:70-84 | In a seller's partial leg the payout is within the maker's debit exactly when the prices cross, and the maker receives exactly its drop in output |
| Ownership.LiveIsOwn | contract/contract/src/orders.rs:392-401 | Every live id listed for an address was created by it |
| Ownership.MatchKeepsOrders | contract/contract/src/orders.rs:41-156 | A match that executes creates and removes no order and changes no creator and no type |
| Ownership.CreateListed | contract/contract/src/orders.rs:17-39 | When a create goes through and when not, a hundred live orders being too many; the order stored is the one asked for, under a fresh id, at the head of its creator's live list, nobody else's list changed |
| Ownership.CreateTakes | contract/contract/src/orders.rs:17-39 | A create that goes through takes what is paid in the token paid, pays nothing out, counts one id up, wrapping at 2^64, and emits the one event of the new order; one that does not leaves no trace |
| Ownership.MatchPays | contract/contract/src/orders.rs:120-149 | Transfers of a match: each maker in the token it asked for, the taker once per maker in the other, to their creators |
| Ownership.RunSound | contract/contract/src/orders.rs:17-39 | After any run: ids below the counter, each list without repetition, at most 100 long and holding its owner's orders only |
| Ownership.NeverReused | contract/contract/src/orders.rs:385-389 | An id once given out never names another order |
| Ownership.SoundFromDeployment | contract/contract/src/orders.rs:17-39 | The index is sound after every run from deployment |
| Ownership.IssuedOnce | contract/contract/src/orders.rs:385-389 | From deployment on, an id given out names one order however the run goes on |
| Ownership.RemoveLoopPays | contract/contract/src/orders.rs:237-325 | Each removed order pays its input out exactly: less the penalty to the caller on a cancel, split between creator and caller on a free |
| Ownership.CancelPaysCreator | contract/contract/src/orders.rs:172-209 | Every refund of a cancel goes to the creator of the order it is for, one each |
| Ownership.CancelShape | contract/contract/src/orders.rs:189-208 | A cancel removes exactly the given orders and empties the caller's list |
| Removals.FreeExecutesIff | contract/contract/src/orders.rs:211-288 | A free goes through exactly when it names some order, none of its caller's own list, each stored one once, all of them at least six periods old with a penalty within the deposit, and the balance covers all they put in |
| Removals.FreePays | contract/contract/src/orders.rs:237-288 | Order by order, in the order named: the creator gets the input less the penalty and the caller the penalty, in the order's own token; the stored orders are gone, each with its event, and nothing else changes but the balance, by just that |
| Removals.CancelExecutesIff | contract/contract/src/orders.rs:158-209 | A cancel goes through exactly when all it names are stored in its caller's own list, each once, with penalties within the deposits, and the balance covers what is left of them; for given orders there must be one, and cancelling all is cancelling the live ones |
| Removals.CancelLeaves | contract/contract/src/orders.rs:172-209 | A cancel emits the events of the orders it names and lowers the balance by what was due |
| Removals.RemoveLoopIff | contract/contract/src/orders.rs:237-325 | Orders are removed one after the other exactly when each is there once, each can be removed, and the balance covers them all together |
| Escrow.PeriodsElapsed | contract/contract/src/orders.rs:252-256 | A penalty period is five whole epochs since the order was made, the 64-bit difference wrapping |
| Escrow.PenaltyIsPercent | contract/contract/src/orders.rs:305-312 | The penalty is a hundredth of the deposit per period, rounded down; once the 64-bit product wraps, of the points it leaves |
| Escrow.PenaltyFitsIff | contract/contract/src/orders.rs:305-312 | The penalty is within the deposit exactly for up to a hundred periods, or while the periods beyond them times the deposit stay below a hundred; with the wrapped percentage in their place once the 64-bit product wraps |
| Escrow.PenaltyFitsForHundredPeriods | contract/contract/src/common.rs:4-8 | In particular for at most a hundred periods |
| Escrow.RemoveNeverShort | contract/contract/src/orders.rs:290-325 | With the escrow covered, a cancel or free of one order fails only for a missing order, a penalty above the deposit, or a free too early |
| Escrow.CreateConservesIff | contract/contract/src/validation.rs:72-81 | A create keeps the balance equal to the escrow exactly when it pays in the token it is refunded in, or nothing |
| Escrow.EscrowConserved | contract/contract/src/orders.rs:172-325 | Over any run without matches each balance stays above the live deposits by exactly the penalties retained |
| Escrow.EscrowFromDeployment | contract/contract/src/orders.rs:17-39 | From deployment the balance is the live deposits plus retained penalties |
| Ledger.LegShortfall | contract/contract/src/orders.rs:54-150 | Branch by branch, whatever the types and tokens, what a leg pays out in each token beyond the drop in input of the order it writes back |
| Ledger.LegShortfalls | contract/contract/src/orders.rs:54-150 | The same per token for a leg between opposite types and two tokens |
| Ledger.LegBalancedIff | contract/contract/src/orders.rs:54-150 | A leg pays out just what it releases, in every token, exactly under the condition given for its branch, its types and its tokens |
| Ledger.MatchSlack | contract/contract/src/orders.rs:41-156 | A match lowers what the contract holds beyond its escrow by the sum of its legs' shortfalls |
| Ledger.RunBalances | contract/contract/src/orders.rs:17-325 | Over every run, matches included, per token: what is held beyond escrow changes by penalties kept, by creates paid in another token, and by each leg's shortfall |
| Ledger.BalancesFromDeployment | contract/contract/src/orders.rs:17-325 | From deployment the balance is the inputs of the live orders plus the sum of those entries |
| Refunds.FilledStaysStored | contract/contract/src/orders.rs:54-118 | A maker that a match serves in full every time it comes to it, and that is not the taker, is stored afterwards exactly as before |
| Refunds.FilledIsRefundedAgain | contract/contract/src/orders.rs:172-209 | After any executed match such a maker has been paid and is still stored and listed, and its creator's cancel goes through exactly if the penalty fits and the balance covers it, and pays the whole deposit less the penalty |
| Contracts.RequireContainsAll | contract/contract/src/validation.rs:127-142 | The loops accept exactly when every item is in the base list |
| Contracts.RequireContainsNone | contract/contract/src/validation.rs:144-159 | The loops accept exactly when no item is |
| Contracts.KeepUnowned | contract/contract/src/orders.rs:189-205 | The list written back is the cancelled ids the caller did not own |
| Contracts.Contract.CreateOrder | contract/contract/src/orders.rs:17-39 | The endpoint makes exactly the transition proved about, or leaves no trace |
| Contracts.Contract.FillLeg | contract/contract/src/orders.rs:54-150 | The branch code on mutable copies computes the leg of the transition |
| Contracts.Contract.MatchOrdersExt | contract/contract/src/orders.rs:41-156 | The maker loop, transfers and events make exactly the match transition |
| Contracts.Contract.CancelOrders | contract/contract/src/orders.rs:172-209 | The same for cancelling listed orders |
| Contracts.Contract.CancelAllOrders | contract/contract/src/orders.rs:158-170 | The same for cancelling all of the caller's |
| Contracts.Contract.FreeOrders | contract/contract/src/orders.rs:211-235 | The same for freeing |
| Contracts.Contract.ExecuteTransfers | contract/contract/src/orders.rs:368-379 | Pays out in order, zero amounts skipped; all or nothing |
| Simulation.MatchInStep | contract/contract/src/orders.rs:48-118 | The contract's loop on the engine's makers runs through, serves exactly the done makers in full and only a last one in part, and leaves each resting maker and the taker with the engine's quantity |
| Lockstep.SubmissionNames | engine/market/market.go:91-123 | The submission names exactly the makers matched, in fill order, and there is one exactly when there are any |
| Lockstep.DeliverInStep | engine/market/market.go:60-125 | One delivered order: whatever the engine does, executing what it submits makes book and chain agree again |
| Pipeline.PriceIsNearest | engine/notifier/mpq/notifier.go:149-186 | The limit price of a created order is the second token per unit of the first, to the nearest of sixteen decimal digits, half a unit upwards |
| Pipeline.PerformInSync | engine/market/market.go:60-125 | Create, deliver (taken by the database or not), execute, and harmless losses of a submission, removals and matches by others each keep engine and chain in step, the chain lagging behind by the matches in flight |
| Pipeline.BookEqualsChain | engine/notifier/mpq/notifier.go:149-186 | In every reachable state with nothing submitted in flight each resting order's quantity is its own on-chain base amount: input of a sell, output of a buy |
| Pipeline.RemovalKeepsStepIff | contract/contract/src/orders.rs:237-325 | Removing orders on chain keeps engine and chain in step exactly when none of them rests in the engine, is still to be delivered to it, or is named by a match in flight |
| Pipeline.IntrusionKeepsStepIff | contract/contract/src/lib.rs:50-54 | A match by somebody else that names no order in flight keeps them in step exactly when no order it changes is awaited and those that rest keep their base; between opposite types, exactly when it changes no order that concerns the engine |
| Pipeline.LossKeepsStepIff | engine/launcher/launcher.go:70-145 | A submission lost or failed, no later one naming its orders, leaves them in step exactly when, of the orders it would have changed, none is awaited and those that rest would have kept their base; between opposite types, exactly when none is of concern to what remains |
| Pipeline.ChangeKeepsStepIff | engine/notifier/mpq/notifier.go:149-186 | Whatever changes stored orders that no match in flight names, engine and chain stay in step exactly when no changed order is awaited and those that rest keep their side and base |
| Pipeline.CancelledMakerFails | contract/contract/src/orders.rs:48-49 | A match naming an order no longer stored does not execute |
| Endpoints.TransactionIsAction | contract/contract/src/orders.rs:17-325 | Every transaction that goes through leaves order storage and counter as one of the pipeline's actions does; one that does not leaves no trace |
| Endpoints.MatchIsExec | contract/contract/src/orders.rs:41-156 | A match goes through exactly when its legs do and its transfers are covered, and stores what the pipeline's execution stores, whatever the tokens |
| Origins.RunKept | engine/orderbook/orderbook.go:169-188 | Every action keeps each resting order at the price of the amounts it was made with, its amounts on chain drifting from those |
| Origins.PriceIsOfOrigin | engine/orderbook/orderbook.go:177 | In every reachable state a resting order's price is the second token per unit of the first in its created amounts, to the nearest sixteenth digit, whatever has been filled, and its amounts left are within the drift of at most one fill per unit traded |
| Prices.AcceptedIff | engine/notifier/mpq/notifier.go:149-186 | Of two orders as they were made: the engine lets them trade exactly when their amounts cross or their prices round to the same |
| Prices.AcceptedIsCrossing | engine/notifier/mpq/notifier.go:149-186 | For created amounts whose product is within the price unit it is crossing as made and nothing else |
| Prices.AcceptedWithoutCrossing | engine/notifier/mpq/notifier.go:149-186 | Beyond that there are pairs of fresh orders the engine accepts that do not cross |
| Prices.OrderUpToOneUnit | engine/notifier/mpq/notifier.go:149-186 | Prices in rounded order are in exact order but for less than one price unit |
| Prices.CrossesNowIff | contract/contract/src/orders.rs:54-118 | Whatever two orders have been through, what is left of them crosses exactly when the seller's rise is covered by the margin they were made with and the buyer's own rise |
| Prices.CrossedThen | contract/contract/src/orders.rs:70-84 | What crosses a drifted seller now crossed it as it was made |
| Prices.CrossesStill | contract/contract/src/orders.rs:100-115 | What crossed a buyer as it was made crosses what is left of it |
| Prices.MarginSuffices | contract/contract/src/orders.rs:100-115 | After n fills a margin of n units of the seller's quote, over what is left of it, suffices to cross |
| Prices.AcceptedAndCrossing | engine/orderbook/orderbook.go:134 | In every reachable state, for the next order and every maker opposite: when the engine accepts the maker, when what is left of the maker crosses, and which of the two implies the other by side |
| Prices.SubmittedBatchFunded | contract/contract/src/orders.rs:48-150 | A submitted buy batch executes, is a crossing batch exactly when every maker's rise is covered, and is then paid out of the buyer's input |
| Markets.MakersSubmitted | engine/market/market.go:91-119 | The list the market collects is the submission the chain is proved to follow |
| Markets.DeliveryIsProcessing | engine/market/market.go:60-125 | Processing the order a create event announces, with its base amount and the nearest price, is the delivery step kept in sync with the chain |
| Markets.Market.CollectMakers | engine/market/market.go:91-119 | The loop leaves out the taker's own entries and keeps ids and orders aligned |
| Markets.Market.ProcessLimitOrder | engine/market/market.go:60-125 | Book, order map, order table, match table and launcher change exactly as specified, a failed save and a refused order included, the order map always taking the order and the table and the book only one that is saved; the published book describes the book as it then stands |
| Markets.Market.ConfirmMatch | engine/market/market.go:127-173 | Finishes the oldest pending match of its market, if any, with one trade per maker in order: the row's account as taker, the creator and price filed for the maker, and the row's amount, side and market |
| Markets.Market.Run | engine/market/market.go:45-58 | Draining the channel is the run of the specification, whatever the messages |
| Markets.StreamAgrees | engine/market/market.go:45-58 | Over any message stream the table names, row by row, what the launcher was handed, and finished rows are the oldest |
| Markets.StreamFiled | engine/market/market.go:151-166 | Over any message stream every resting order is filed at the price it rests at, and every order a match row names is filed, the taker under the row's account and side |
| Trades.RowRecorded | engine/db/match.go:29-66 | An order that meets makers gets one pending row: its market, creator, id and side, and the orders in line opposite it, as many as it met, with the whole quantity of each it filled and what is left of one it filled in part |
| Trades.AmountsTradedIff | engine/db/match.go:29-37 | The recorded amounts are those traded exactly when no maker was filled in part, or one was by half |
| Trades.StreamTrades | engine/market/market.go:151-166 | Whatever comes between a match and its confirmation, the trades are one per order met, in line, between the two orders' creators, at the price the maker rested at, on the taker's side, over the row's amount |
| MatchTables.OldestPending | engine/db/match.go:13-25 | The query returns the first pending row of the market, or none |
| MatchTables.ConfirmFinishesNext | engine/market/market.go:127-173 | If exactly the n oldest rows of a market are finished, then n + 1 are after a confirmation, unless all were |
| MatchTables.FinishedOldestFirst | engine/market/market.go:127-173 | No row is finished while an older one of its market is not |
| Notifiers.WaitOrderMatch.GetMatchedOrderIds | engine/common/notifier_event.go:31-37 | The ids of the events received, in order |
| Notifiers.EventNotifier.HandleEvent | engine/notifier/mpq/notifier.go:137-147 | Registers a fresh wait record under the hash and touches no other |
| Notifiers.EventNotifier.HandleMatch | engine/notifier/mpq/notifier.go:188-206 | Appends the event in place to its own transaction's record and pushes one UPDATE exactly when the count is reached |
| Handshake.MatchEmits | contract/contract/src/orders.rs:46-52 | In any contract state a match that executes emits one event for the taker and one per maker: the number the launcher announces |
| Handshake.RunKeeps | engine/notifier/mpq/notifier.go:188-206 | The protocol invariant holds through every interleaving of submit, send, announce, settle, deliver and process |
| Handshake.ExactlyOnce | engine/notifier/mpq/notifier.go:188-206 | One UPDATE, no more, for each transaction whose len(makers)+1 events are in, naming its orders; per market the finished rows are the oldest, one per UPDATE processed |
| Handshake.DownIffUnregistered | engine/notifier/mpq/notifier.go:188-194 | An event ends the engine process exactly when its transaction is not registered, or not the engine's at all |
| Handshake.FinishedAreExecutedIff | engine/market/market.go:127-173 | When the events of all executed matches are processed, a market's finished rows are those of its executed matches exactly when no match lost or failed was submitted before one that went through |
| Witnesses.MatchedWithoutCrossing | engine/orderbook/orderbook.go:134 | A run to a state where a drifted maker is matched and submitted though it neither crosses nor rounds to the taker's price; it is paid two and the buyer debited one |
| Witnesses.RemovedWhileUndelivered | contract/contract/src/orders.rs:290-325 | An order cancelled before its create event is delivered ends up resting in the engine with nothing on chain |
| Witnesses.RemovedWhileInFlight | contract/contract/src/orders.rs:290-325 | A taker cancelled while its match is in flight leaves a maker resting with less than its on-chain amount |
| Witnesses.IntrusionByCoincidence | contract/contract/src/lib.rs:50-54 | A run in which somebody matches an order that is in flight, changing it, and engine and chain are still in step |
| Witnesses.HarmfulIntrusion | contract/contract/src/lib.rs:50-54 | A run after which somebody matches a buyer the engine has not heard of with the seller that rests: the seller rests with two units and has one on chain |
| ContractWitnesses.FilledMakerRefunded | contract/contract/src/orders.rs:93-100 | A run from deployment: a match pays a buyer in full, its cancel refunds all it put in, and another buyer's cancel then reverts for lack of funds, no penalty due |
| ContractWitnesses.SameTypeBreaksDrift | contract/contract/src/orders.rs:70-84 | A run from deployment after which a seller of one unit for two, matched with a seller, asks one for its unit: outside its drift for any number of fills |
| ContractWitnesses.PenaltyBlocksCancel | contract/contract/src/orders.rs:305-312 | A deployed contract, one order of a hundred units, and the epoch at which cancelling it reverts |
| ContractWitnesses.BuyPaidInFirst | contract/contract/src/validation.rs:72-81 | A buy order paid in the first token unbalances both tokens by what it paid |
| Trades.PartFillMisrecorded | engine/db/match.go:29-37 | A run in a fresh market: a buyer takes one unit of three and the trade is recorded over the two that are left |
| Witnesses.WrongRowFinished | engine/market/market.go:127-173 | A run in which the first match fails, the second goes through, and the first one's row is finished |

## Left out

- OrderBooks.OrderBook.Load: reads records. JSON as text, a text without a side or with an empty queue entry, and
  the printed forms of sides, queues and orders are not modelled.
- OrderSides.OrderSide.Load: likewise; two keys that print one price differently are one key here.
- Drift.RunDrift: asks that the legs of each match are steady and no order is partly served by itself, as in every
  match the engine submits; the contract checks neither, and Drift.LegKeepsDriftIff says what a leg does otherwise.
- Drift.DriftFromDeployment: asks the same.
- Ledger.LegShortfalls: is the case of opposite types and two tokens; Ledger.LegShortfall covers the rest.
- Escrow.EscrowConserved: is for runs without matches; Ledger.RunBalances covers all runs.
- Escrow.EscrowFromDeployment: likewise; Ledger.BalancesFromDeployment covers all runs.
- Pipeline.BookEqualsChain: covers runs in which what others remove and match on chain, and what a lost or failed
  submission would have changed, concerns no order of the engine; a create event with a zero base amount is never
  delivered, where the notifier would stop on a division by zero.
- Pipeline.IntrusionKeepsStepIff: does not decide matches by others that name an order in flight; for those only
  the sufficient half holds, in Pipeline.PerformInSync.
- Pipeline.LossKeepsStepIff: does not decide losses of a submission whose orders a later one names; for those only
  the sufficient half holds, in Pipeline.PerformInSync.
- Handshake.ExactlyOnce: transaction hashes are unique and each queued message is taken once. After an unregistered
  event the process is down and no more is claimed of it than what had happened before.
- Ownership.RunSound: is about the ids listed, not about all ids owned, because a cancel resets the caller's
  whole list.
- Markets.Market.ProcessLimitOrder: does not model the filled and state columns of the order table.
- Markets.Market.ConfirmMatch: does not model the filled and state columns either, nor the hash link of a trade.
- Ids above 2^63, which the launcher's signed parsing does not carry, and the hexadecimal call data.
- The tree's balancing; the order in which a Go map is walked is arbitrary here too.
- Redis, RabbitMQ, MySQL, websockets, signing, gas, the web interface, the global-operation switch and the
  unused fee and matching-provider helpers.

# Verification of the exchange server

A Dafny 4.11 model of the exchange's order matching and of the feeds and stores around it,
with proofs of what they keep. `dafny verify dfyconfig.toml` checks everything.

**The matching engine.** `Orders`, `Matching` and `Exchanges` give the engine as functions on
values: `Core` is what one call on a market sees, `Exchange` is the engine over all markets, `Op` is
a public call and `Run` a sequence of calls. Each call is one atomic step, as all calls run under
one lock. Properties of one call are in `SoundBooks` (index agreement, uncrossed books),
`LevelSweep` (the heap loop against a walk over aggregated levels), `Executions` (the trades as a
walk along the drained heap), `Acceptances` and `Placements` (which orders are accepted, and what
becomes of them), `FillLedger` and `TradeRecords` (trade lists), `UnlistedTrades` (fills where no
market is configured), `Solvency` (frozen funds), `Settlement`, `Payments` and `Payouts` (asset
totals, unpaid deals, balances), `StopSweeps`, `NestedSweeps`, `OppositeSweeps`, `NestedCalls` and
`PanicBounds` (stop orders, and the sweep inside the loop); `FillRuns`, `UnlistedRuns`, `TradeRuns`,
`Origins`, `OrderlyRuns`, `SettlementRuns`, `StopRuns`, `EmptyRuns` and `Counters` carry them to
whole runs. `PriceQueues`, `Balances`, `OrderBooks`, `StopManagers` and `Engines` hold the classes
that update their fields in place; each method is proved equal to the functions above, so the
properties hold of the classes. `Snapshots`, `Loads`, `LoadedRuns`, `Restores` and `SnapshotFiles`
save and reload: `Loads` and `LoadedRuns` say for an arbitrary orders file when the engine loaded
from it meets the invariants of the runs.

**The feeds and stores.** `Crcs`, `LittleEndian`, `Frames` and `Streams`: the RPC frame, its
checksum and the stream reader. `DepthFeeds` and `DealsFeeds`: what subscribers receive.
`Quotients` and `Klines`: the running klines. `KlineStores` and `MarketManagers`: the bucket maps
and their write-back. `Splits` and `KlineHashes`: the text kept in Redis. `Sums`, `Text` and
`Options` are shared.

An order's immutable fields are a record; its `Left` and `Status`, which the map, the heap and
the caller share through a pointer, are one cell for each order ID. Decimals are exact reals. A
Go panic sets a flag after which nothing runs. Times, random choices and replies of other
services are parameters; a map iteration visits its keys in an arbitrary order.

## Where the code differs from what one would expect

Each of these is a proved statement about the code as it is.

- Both heaps have the highest price at the root, so a bid meets the dearest ask first and trades
  only if it reaches every ask (`SoundBooks.BidTradesIff`).
- An order rests exactly when it gets something but not all it wants: it is finished when it gets
  nothing, with all its funds still frozen (`Placements.PlaceRestsIff`, `Placements.PlaceFrozen`).
  So a fresh engine never trades (`EmptyRuns.StartNeverTrades`).
- A call unlocks only what its trades cost the taker: the lock of a filled maker and the rest of a
  bid that traded below its limit stay frozen (`Placements.PlaceFrozen`).
- A canceled order stays in its heap and trades as if it had not been canceled, with every limit
  order that others place later (`Placements.FillsIgnoreCancel`).
- Deductions come from the available balance beside the lock. Settlement drops the error of one
  that is not covered, and such a trade creates supply: a taker that locks all it has pays nothing
  with its first deal (`Payments.AllLockedIsUnpaid`, `Settlement.PaidSupply`).
- A maker fee is taken from the money received, so below the fee rate it exceeds it, and the
  maker's balance goes below zero unless it has the difference (`Settlement.FeeRateIsTheLimit`).
- A stop sweep runs inside the turn of the loop that triggered it and takes from the same queue.
  The loop's pop then panics on an empty queue, or takes out a maker that still has something
  (`NestedSweeps.NestedTurn`, `NestedCalls.PlacePanicsIff`). A stop order of the other side that
  comes to rest in the makers' queue can be popped in place of the filled maker
  (`OppositeSweeps.OppositeTurn`, `NestedCalls.PlaceBehindIff`).
- The handler of stop orders does not check their sign, so an order can enter with a negative
  amount; it never trades (`FillRuns.NegativeStopEnters`, `FillRuns.RunLeftInBoundsIff`).
- Where a market is not configured a trade shrinks both orders and is neither recorded nor paid.
  Loading can put orders there, stop orders are taken for any market name and the periodic sweep
  goes through every book, so the trade lists then stop accounting for what orders have left
  (`UnlistedRuns.RunsStayAccountedIff`, `LoadedRuns.UnlistedFillIsUnrecorded`).
- The ID counter is not part of a snapshot and restarts at 0, so for every loaded order there is a
  run that draws its ID again (`Counters.LoadedIdsAreFreeIff`, `Counters.FreshCounterIsFreeIff`).
- Balances of assets with a colon in the name are skipped on loading (`SnapshotFiles.KeptIsAllIff`).
- The checksum covers neither command nor type nor result (`Frames.WrongByteCaughtIff`).
- The stream reader does not read the ext bytes of a frame without a body (`Streams.AllReadIff`).
- A clean refresh of the depth is sent like a difference (`DepthFeeds.RefreshMergesIff`).
- `ClearOldKlines` drops buckets that still wait to be written (`KlineStores.ClearedThenFlushed`).

## Model

| member | source | states |
|---|---|---|
| PriceQueues.PushCorrect | internal/matchengine/order/pricequeue.go:7-21 | pushing onto a heap of any size keeps the heap order and adds exactly the new order to the multiset |
| PriceQueues.PopCorrect | internal/matchengine/order/pricequeue.go:7-29 | popping a heap of any size keeps the heap order and takes away exactly the root |
| PriceQueues.RootIsDearest | internal/matchengine/order/pricequeue.go:11-13 | the root of a heap has the greatest price in it, for either side |
| PriceQueues.DrainSorts | internal/matchengine/order/pricequeue.go:7-29 | popping a heap until it is empty lists all its orders, each once, from the dearest to the cheapest |
| PriceQueues.PriceQueue.Push | internal/matchengine/order/pricequeue.go:19-21 | the slice in place becomes the sifted-up one of the specification |
| PriceQueues.PriceQueue.Pop | internal/matchengine/order/pricequeue.go:23-29 | the slice in place becomes the sifted-down one, and the old root is returned |
| PriceQueues.PriceQueue.Swap | internal/matchengine/order/pricequeue.go:15-17 | two places are exchanged and no other changes |
| OrderBooks.OrderBook.Add | internal/matchengine/order/orderbook.go:25-37 | the order enters the map under its ID and the heap of its own side |
| OrderBooks.OrderBook.Remove | internal/matchengine/order/orderbook.go:39-44 | the ID leaves the map; the heaps are untouched |
| OrderBooks.OrderBook.GetBestBid | internal/matchengine/order/orderbook.go:58-66 | a queued bid that no queued bid outprices, and a miss only where there is none |
| OrderBooks.OrderBook.GetBestAsk | internal/matchengine/order/orderbook.go:68-76 | a queued ask that no queued ask outprices, so the dearest ask, not the cheapest |
| OrderBooks.OrderBook.GetDepth | internal/matchengine/order/orderbook.go:94-116 | exactly one level for each queued price, its amount the sum of what is left there, in any iteration order |
| OrderBooks.SortedDepthAggregates | internal/matchengine/order/orderbook.go:94-116 | the reported levels sorted from the top are the aggregated book that the level walk walks over |
| Text.KeyInjective | internal/matchengine/balance/balance.go:35-37 | two accounts never share a map key, whatever characters the asset names contain |
| Balances.PutRepresents | internal/matchengine/balance/balance.go:35-48 | writing an entry under its composite key writes that account in the ledger and no other |
| Balances.BalanceManager.GetBalance | internal/matchengine/balance/balance.go:39-48 | the account's available and frozen amounts, and zeros where it has none |
| Balances.BalanceManager.Freeze | internal/matchengine/balance/balance.go:50-68 | moves the amount from available to frozen, or refuses and changes nothing when the account is missing or short |
| Balances.BalanceManager.Unfreeze | internal/matchengine/balance/balance.go:70-87 | moves the amount from frozen to available, or refuses with the error of a missing account or too little frozen |
| Balances.BalanceManager.Sub | internal/matchengine/balance/balance.go:97-113 | takes from available, or refuses with the error of a missing account or too little available |
| Balances.BalanceManager.Add | internal/matchengine/balance/balance.go:115-133 | adds to available, opening the account where it is missing |
| Balances.BalanceManager.SetBalance | internal/matchengine/balance/balance.go:173-184 | the account holds exactly the given amounts and no other account changes |
| Ledgers.SupplyUpdate | internal/matchengine/balance/balance.go:97-133 | replacing one entry moves the total of its asset by the change in that entry, and the total of no other asset |
| Ledgers.MovesIff | internal/matchengine/balance/balance.go:50-133 | locking and deducting succeed exactly when the account is there and has as much available, unlocking when it has as much frozen, each with its error otherwise; an exact amount suffices |
| Ledgers.FreezeUnfreeze | internal/matchengine/balance/balance.go:50-87 | an amount that is locked can be unlocked again, and the ledger is then as it was |
| Acceptances.PlaceAcceptedIff | internal/matchengine/engine/matching.go:33-42 | an order is accepted exactly when the user has at least price times amount in money (a bid) or the amount in stock (an ask); otherwise it is refused for insufficient balance and nothing has changed |
| Origins.StepEntersIff | internal/matchengine/engine/matching.go:22-42 | a placed order enters the engine exactly when its market is configured and it is affordable; otherwise the call only draws an ID |
| Origins.RunOrigins | internal/matchengine/engine/matching.go:189-229 | over every run of any calls an order that is new in the engine has the user, market, side, price and amount of an order that the run placed or of a stop order that fired in it |
| Matching.TakerLoop | internal/matchengine/engine/matching.go:95-206 | the loop with its nested stop sweeps ends, by the measure stop orders left, then makers queued, then whether the taker wants more; no call adds a stop order |
| Matching.Iterated | internal/matchengine/engine/matching.go:100-147 | each turn of the loop makes that measure smaller: a stop order is gone, or a maker, or the taker is filled |
| SoundBooks.LiveIsUncanceled | internal/matchengine/engine/matching.go:81-90 | the order map of a sound book is exactly the queue members that are not canceled |
| SoundBooks.PlaceSound | internal/matchengine/engine/matching.go:22-151 | a limit order keeps the book sound: heaps ordered, each order once in the queue of its own side with 0 < Left <= Amount, map and queues in agreement |
| SoundBooks.CancelSound | internal/matchengine/engine/matching.go:248-300 | a cancel keeps the book sound; the canceled order stays in its heap |
| SoundBooks.LoopExhausts | internal/matchengine/engine/matching.go:100-147 | a taker that traded and has something left has no maker within its limit any more |
| SoundBooks.PlaceUncrossed | internal/matchengine/engine/matching.go:72-151 | no limit order leaves a queued bid at or above a queued ask |
| SoundBooks.CancelUncrossed | internal/matchengine/engine/matching.go:248-300 | nor does a cancel |
| SoundBooks.BidTradesIff | internal/matchengine/engine/matching.go:100-110 | a bid trades exactly when its limit reaches every queued ask, because it meets the dearest one first; stop orders may be waiting |
| SoundBooks.AskTradesIff | internal/matchengine/engine/matching.go:100-110 | an ask trades exactly when some queued bid is at or above its limit; stop orders may be waiting |
| LevelSweep.LoopSweepsLevels | internal/matchengine/engine/matching.go:95-151 | at each price the loop fills what the better levels leave of the quantity, up to what is left at that price |
| LevelSweep.WalkTakesShares | internal/matchengine/order/orderbook.go:94-116 | a highest-first walk over aggregated levels takes those same shares |
| LevelSweep.AskRefinesWalk | internal/matchengine/engine/matching.go:95-151 | an ask fills at each bid price exactly what the highest-first walk over the aggregated levels at or above its limit would |
| LevelSweep.LoopTotal | internal/matchengine/engine/matching.go:95-151 | a taker gets the smaller of its quantity and what it reaches (an ask: the bids at or above its limit; a bid: all asks, or none where one is above its limit) and keeps the difference |
| Executions.LoopFillsInOrder | internal/matchengine/engine/matching.go:95-151 | the trades of a stop-free loop are, in order, the fills of a plain walk along the drained makers: maker, user, price and amount |
| Executions.ExecutesInPriceOrder | internal/matchengine/engine/matching.go:95-151 | so a loop executes at falling prices, for a bid as for an ask |
| Executions.PlaceFillsProspect | internal/matchengine/engine/matching.go:22-70 | an affordable order is accepted, and its trades are the fills that the book held for it before the call |
| Executions.LoopTakes | internal/matchengine/engine/matching.go:112-135 | every trade of a loop, nested sweeps or not, names the taking order with its user, market and side, at a price within its limit, and either fee is a thousandth of the amount |
| TradeRecords.PlaceTells | internal/matchengine/engine/matching.go:95-229 | through a call with all its nested sweeps, published trades agree with the records of both their orders and trade lists with what is published |
| TradeRuns.RunTradesFit | internal/matchengine/engine/matching.go:112-158 | over every run of any calls, each published trade has the users of its two orders, their market, opposite sides, the price of the maker, within the limit of the taker, and a thousandth as either fee; each trade list grows by exactly the published trades of its order |
| LoadedRuns.LoadedTradesFit | internal/matchengine/engine/engine.go:348-354 | so from a loaded file each trade list is exactly the published trades of its order |
| Placements.PlaceRestsIff | internal/matchengine/engine/matching.go:72-93 | on any sound book an affordable limit order is accepted and rests, with its remainder, exactly when it reaches more than nothing and less than its amount; otherwise it is finished and in neither queue nor map |
| Placements.PlaceFrozen | internal/matchengine/engine/matching.go:33-42 | a call changes frozen funds by exactly the need of the order less the summed cost of its trades, in the taker's account only; no unlock fails |
| Placements.FillsIgnoreCancel | internal/matchengine/engine/matching.go:248-300 | after a cancel any sequence of limit orders by other users makes, order by order, the same trades as without it, with the canceled order too |
| FillLedger.LoopAccounted | internal/matchengine/engine/matching.go:95-206 | the loop, nested sweeps included, keeps Amount - Left equal to what an order had filled when it was loaded plus the volume of its trade list, with 0 <= Left <= Amount, or Left = Amount where the amount is negative |
| FillLedger.PlaceAccounted | internal/matchengine/engine/matching.go:22-206 | so does a whole call, which opens the account of the new order, whatever its amount |
| FillLedger.PagesPartition | internal/matchengine/engine/engine.go:356-373 | reading a trade list page by page, with any page size, gives the list |
| Solvency.IteratedSlack | internal/matchengine/engine/matching.go:112-187 | one trade never eats into the cover of any account, and its unlock succeeds |
| Solvency.PlaceSlack | internal/matchengine/engine/matching.go:33-42 | a call leaves every account's frozen amount at least as far above what its resting orders may still need, and no unlock fails |
| Solvency.CancelSlack | internal/matchengine/engine/matching.go:274-279 | a cancel unlocks exactly what the canceled order needed, and the unlock succeeds |
| Settlement.PaidSupply | internal/matchengine/engine/matching.go:165-184 | settling a trade moves the total of one asset only: down by the maker fee, or up by the cost less the fee when the taker's available balance does not cover it |
| Settlement.PlaceBalanced | internal/matchengine/engine/matching.go:95-206 | over a call, nested sweeps included, the total of each asset changes by those amounts and nothing else |
| Settlement.CancelBalanced | internal/matchengine/engine/matching.go:248-300 | a cancel moves no total |
| Settlement.PlaceHealthy | internal/matchengine/engine/matching.go:132-184 | no balance goes below zero while every ask is priced at least at the fee rate; bid stops may have any price and stops any amount |
| Settlement.PaidNonNegativeIff | internal/matchengine/engine/matching.go:165-184 | settling with another user's order takes a balance below zero exactly when what the maker has and receives is less than its fee |
| Settlement.FeeRateIsTheLimit | internal/matchengine/engine/matching.go:13-14 | so an ask taker never does it, and a bid does it exactly when the maker has less than the amount times what the price lacks to the fee rate; with nothing there, exactly below the fee rate |
| Settlement.OwnPaidNonNegativeIff | internal/matchengine/engine/matching.go:165-184 | with a taker that trades with its own order it happens exactly when what it has, what it could not pay, and what its frozen funds give back do not cover the fee |
| Payments.PlaceUnpaidIff | internal/matchengine/engine/matching.go:165-187 | with no own maker and no stop orders, an affordable order leaves no deal unpaid exactly when each fill the book held for it costs at most what the taker has available after the lock; if the first costs more, it is unpaid |
| Payments.AllLockedIsUnpaid | internal/matchengine/engine/matching.go:165-187 | a taker that locks all it has available, where the book has a fill for it, is accepted and leaves its first deal unpaid |
| Payments.TwiceTheNeedLosesFees | internal/matchengine/engine/matching.go:165-187 | a taker that has twice the need of its order pays every deal, and the total of the settled asset falls by exactly the maker fees |
| Payouts.PlacePays | internal/matchengine/engine/matching.go:33-187 | the available balance of every account after a call, from the book and the balances before it: the taker is down by what its order locks and up by each fill that this no longer covered, a maker is up by the cost of its fills less a thousandth of their amount, nobody else changes |
| Payouts.CancelPays | internal/matchengine/engine/matching.go:262-281 | a cancel moves price times Left (a bid, in money) or Left (an ask, in stock) from frozen to available in the account of the order, and nothing in any other; the order is canceled and out of the map |
| StopSweeps.CheckSplits | internal/matchengine/engine/stop_order.go:54-86 | a check takes exactly the eligible orders off the list and keeps the others, as multisets |
| StopSweeps.LoopSweeps | internal/matchengine/engine/matching.go:189-229 | after every deal of the loop, nested ones included, every waiting bid stop has its trigger price below the price of the deal, every waiting ask stop above it |
| StopSweeps.PlaceSweeps | internal/matchengine/engine/matching.go:22-229 | so it is after every call |
| StopSweeps.PlacePrompts | internal/matchengine/engine/stop_order.go:54-86 | every stop order that a call fires, nested ones included, has its trigger price at or above (a bid) or at or below (an ask) the price of a deal of the call |
| StopRuns.SweepAnswers | internal/matchengine/engine/engine.go:408-435 | after the periodic sweep, in any market, waiting stop orders have trigger prices beyond the last price, and those that fired were reached by it or by a deal of the sweep |
| NestedSweeps.NestedTurn | internal/matchengine/engine/matching.go:112-146 | with one stop order waiting on the taker's side of any sound book, a turn's pop hits an empty queue exactly when the stop order joins in, reaches every maker and wants with the taker all that is offered; it takes out a maker with something left exactly when they want at least the root and not that; else nothing is lost |
| NestedSweeps.NestedLoop | internal/matchengine/engine/matching.go:100-147 | the whole loop panics, or loses such a maker, exactly when the turn in which the stop order fires does |
| NestedCalls.PlacePanicsIff | internal/matchengine/engine/matching.go:22-147 | for a whole call, by the book and the order before it: walk along the drained makers to the first at whose price the stop order fires; the call panics exactly when the two reach and want all that is offered from there down, and loses a maker exactly when they want at least that maker and not all; a refused lock does neither |
| OppositeSweeps.OppositeTurn | internal/matchengine/engine/matching.go:112-146 | with one stop order waiting on the makers' side a turn never panics, and exactly these are queued after it: the makers without a filled root and the stop order if it rests; or, if it rests dearer than a root the turn filled, the makers as they were, the stop order dropped |
| OppositeSweeps.PopsFiredIff | internal/matchengine/engine/matching.go:143-146 | over an uncrossed book the stop order is dropped exactly when the taker is an ask, fills the root, and the stop order rests |
| OppositeSweeps.OppositeLoop | internal/matchengine/engine/matching.go:100-147 | the whole loop never panics, and it drops a stop order that came to rest exactly when the turn in which it fires does |
| NestedCalls.PlaceBehindIff | internal/matchengine/engine/matching.go:22-147 | so for a whole call, by the book and the order before it: the stop order is dropped exactly when it is dearer than the maker it fires on and the taker fills that maker |
| PanicBounds.RoomyNeverPanics | internal/matchengine/engine/matching.go:22-147 | with any stop orders waiting no limit order panics, however they trigger one another, if both queues hold more orders than stop orders wait, each larger than the taker and all of them want together |
| PanicBounds.RoomySweepNeverPanics | internal/matchengine/engine/engine.go:408-435 | nor does the periodic sweep |
| StopSweeps.NoStopsNoPanic | internal/matchengine/engine/matching.go:143-146 | with no stop orders waiting no call pops an empty queue |
| FillRuns.RunBounded | internal/matchengine/engine/matching.go:22-300 | over every run of any calls, in markets configured or not, each order that entered or was loaded keeps its record, and its Left never grows and stays in bounds |
| FillRuns.RunAccounted | internal/matchengine/engine/matching.go:22-300 | over every run of any calls, stop orders of any amount included, Amount - Left stays the loaded fill plus the volume of the trade list, when no book of an unconfigured market starts with anything to fill |
| UnlistedRuns.RunsStayAccountedIff | internal/matchengine/engine/matching.go:153-157 | from accounts that are right, every run keeps them right exactly when no book of an unconfigured market has anything left to fill: such a fill is not recorded |
| LoadedRuns.UnlistedFillIsUnrecorded | cmd/matchengine/main.go:183-208 | the failing input: a loaded bid of an unconfigured market, a stop order there and the periodic sweep take half of the bid and leave no trade |
| FillRuns.RunLeftInBoundsIff | internal/matchengine/engine/matching.go:112-130 | in every state a run reaches, in markets configured or not, 0 <= Left <= Amount holds of an order exactly when its amount is not negative, and an order with a negative amount has Left = Amount |
| FillRuns.NegativeStopEnters | internal/matchengine/server/handler/order.go:935-985 | a stop order of amount -1 that fires on a fresh engine leaves an order with -1 left |
| OrderlyRuns.StartIsOrderly | internal/matchengine/engine/engine.go:138-154 | a fresh engine is orderly and solvent |
| OrderlyRuns.RunIsOrderlyAndSolvent | internal/matchengine/engine/matching.go:22-300 | over every run without stop orders: no book is crossed, maps and queues agree, frozen funds cover all resting orders of all markets, and no unlock ever fails |
| SettlementRuns.RunBalanced | internal/matchengine/engine/matching.go:153-187 | over every run, stop orders included, the total of an asset is what was there, plus deposits less withdrawals, less the maker fees settled in it, plus the deals whose taker could not pay |
| SettlementRuns.RunHealthy | internal/matchengine/engine/matching.go:153-187 | no run takes a balance below zero while every ask is priced at least at the fee rate |
| StopRuns.RunFiresOnce | internal/matchengine/engine/stop_order.go:28-86 | over every run a stop order fires at most as often as it was added |
| EmptyRuns.StartNeverTrades | internal/matchengine/engine/matching.go:81-90 | no run from a fresh engine ever trades, whatever is placed: the first order to rest must be loaded or added |
| EmptyRuns.UnlistedStayEmpty | internal/matchengine/engine/engine.go:408-435 | over every run the book of a market that is not configured stays without orders, whatever stop orders fire there |
| Engines.Engine.ProcessOrder | internal/matchengine/engine/matching.go:22-70 | the engine's fields change as the specification's call on values does, with the same trades or refusal |
| Engines.Engine.MatchAsTaker | internal/matchengine/engine/matching.go:95-151 | the in-place loop returns the trades of the specification's loop and leaves its book, cells, balances and stop lists |
| Engines.Engine.SettleTrade | internal/matchengine/engine/matching.go:153-187 | the in-place settlement is the specification's, the stop check included, and does nothing where the market is not configured |
| Engines.Engine.CheckStopOrdersAfterTrade | internal/matchengine/engine/matching.go:189-206 | the in-place sweep fires what the specification fires, in its order |
| Engines.Engine.MatchAndSettle | internal/matchengine/engine/matching.go:208-229 | the loop, then the order rests only where 0 < Left < Amount and is finished otherwise |
| Engines.Engine.CancelOrder | internal/matchengine/engine/matching.go:248-300 | the in-place cancel is the specification's, unknown IDs and finished orders included |
| Engines.Engine.AddTradeToOrder | internal/matchengine/engine/engine.go:348-354 | for every ID: the list grows by the trade once for the taker and once for the maker, and by nothing else |
| Engines.Engine.GetOrderTrades | internal/matchengine/engine/engine.go:356-373 | the page asked for, and the length of the whole list |
| Engines.Engine.GetOrCreateOrderBook | internal/matchengine/engine/engine.go:208-215 | the market's book, a new empty one only where there was none |
| Engines.Engine.AddStopOrder | internal/matchengine/engine/engine.go:375-385 | the stop order joins the end of its market's list and nothing else changes |
| Engines.Engine.CancelStopOrder | internal/matchengine/engine/engine.go:387-392 | the first stop order with that ID leaves the list, and the result says whether there was one |
| Engines.Engine.ProcessTriggeredStopOrders | internal/matchengine/engine/engine.go:408-435 | the periodic sweep is the specification's sweep at the given price, in markets configured or not, the book created when the first stop order fires |
| StopManagers.StopManager.AddStopOrder | internal/matchengine/engine/stop_order.go:28-38 | appended, untriggered, to its own market's list |
| StopManagers.StopManager.RemoveStopOrder | internal/matchengine/engine/stop_order.go:40-52 | the first order with that ID is cut out, the rest keep their order |
| StopManagers.WithoutStopCutsFirst | internal/matchengine/engine/stop_order.go:40-52 | the one that goes is the first that carries the ID; with none the list stays |
| StopManagers.StopManager.CheckStopOrders | internal/matchengine/engine/stop_order.go:54-86 | the orders whose trigger price is reached in list order, the others left in list order; of those a bid has its trigger price at or above the last price, or below it, and an ask the other way round |
| Snapshots.CellRoundTrip | internal/matchengine/persist/slice.go:339-391 | an order is written with side code 1 or 2 and status code 1 to 4; written and read back has the same fields, Left and Status, and is active exactly when it is pending or partial |
| SnapshotFiles.DumpOrdersToFile | internal/matchengine/persist/slice.go:128-152 | one line for each order of each market's map, in any iteration order, stop orders waiting or not |
| SnapshotFiles.OrderlyMapsApart | internal/matchengine/persist/slice.go:128-152 | in an orderly engine no ID is in the maps of two markets, so the dump has one line for each ID |
| SnapshotFiles.LoadOrdersFromFile | internal/matchengine/persist/slice.go:255-287 | each market gets its own lines in file order |
| SnapshotFiles.LoadBook | internal/matchengine/engine/engine.go:543-556 | putting the active orders into an empty book gives the restored book of the specification |
| Snapshots.BookRestored | internal/matchengine/engine/engine.go:543-556 | a book dumped and loaded has the same order map, and heaps of exactly the live orders: canceled leftovers are gone |
| Loads.RestoredIsOrderlyIff | internal/matchengine/engine/engine.go:543-556 | the engine loaded from any orders file is orderly, and its active rows are asks and bids, exactly when its markets are configured, its active rows are asks or bids of their market with a positive price, 0 < Left <= Amount and distinct IDs up to the counter, and no active bid reaches an active ask |
| LoadedRuns.LoadedIsSolventIff | internal/matchengine/engine/engine.go:543-571 | it is solvent too exactly when besides each account's frozen amount covers what the active rows may still need of it |
| LoadedRuns.LoadedRunIsOrderly | internal/matchengine/engine/engine.go:543-571 | every stop-free run from such a file and such balances stays orderly and solvent, and no unlock fails |
| LoadedRuns.LoadedIsAccountedIff | internal/matchengine/engine/engine.go:348-354 | trade lists are not saved: they account for the loaded orders by themselves exactly when no active row had filled anything, and always beside what the rows say was filled |
| LoadedRuns.LoadedRunAccounted | internal/matchengine/engine/matching.go:22-300 | over every run from a loaded file a loaded order keeps its record and has left what it was loaded with less the volume of its trades since |
| LoadedRuns.LoadedIsHealthyIff | internal/matchengine/engine/engine.go:543-571 | a loaded engine meets the invariant of the runs without negative balances exactly when no loaded balance is negative and no active ask is below the fee rate |
| Counters.RunDraws | internal/matchengine/engine/id.go:10-21 | over every run the counter never goes back, and the deals carry IDs drawn from it in strictly ascending order |
| Counters.LoadedIdsAreFreeIff | internal/matchengine/engine/id.go:10-21 | for any counter: no run from the loaded engine ever draws the ID of a loaded order exactly when the counter has passed them all |
| Counters.LoadedIdIsDrawn | internal/matchengine/engine/id.go:10-21 | any ID that the counter has not passed is drawn by a run of limit orders |
| Counters.FreshCounterIsFreeIff | internal/matchengine/engine/id.go:10-21 | with the counter at 0, as the program starts it, that is so exactly when no active row has an ID above 0 |
| Counters.FirstOrderCollides | internal/matchengine/engine/id.go:10-21 | with a loaded order of ID 1, the first limit order placed draws 1 again |
| Restores.DumpIsLoadableIff | internal/matchengine/engine/engine.go:543-556 | a dump of an orderly engine can be loaded whole exactly when the counter has passed every dumped ID |
| Restores.RestoredIsSolvent | internal/matchengine/engine/engine.go:543-571 | with the ledger restored, frozen funds cover the loaded orders as before |
| Restores.RestartedRunIsOrderly | internal/matchengine/engine/engine.go:474-571 | any run, a restart from its dump with the counter at or past the dumped IDs, and any further run end orderly and solvent |
| SnapshotFiles.KeyHasTwoPartsIff | internal/matchengine/engine/engine.go:562-567 | a balance key splits in two exactly when the asset name has no colon, and the first part is then the user |
| SnapshotFiles.LoadBalances | internal/matchengine/engine/engine.go:558-571 | the accounts whose asset name has no colon come back with their amounts, and no others |
| SnapshotFiles.KeptIsAllIff | internal/matchengine/engine/engine.go:562-567 | so the whole ledger comes back exactly when no asset name has a colon |
| Crcs.CheckValue | internal/matchengine/server/codec.go:63-63 | the checksum of the digits 1 to 9 is the published check value of the IEEE polynomial |
| Crcs.UpdateByTable | internal/matchengine/server/codec.go:63-63 | eight bit rounds for a byte are one look-up in the table of RFC 1952, section 8 |
| Crcs.RegisterInjective | internal/matchengine/server/codec.go:63-63 | the checksum register never maps two states to one, whatever bytes follow |
| Crcs.RegisterTakesWord | internal/matchengine/server/codec.go:63-63 | up to four bytes act on the register as one word xored into it |
| Crcs.BurstChangesChecksum | internal/matchengine/server/codec.go:63-63 | changing anything within four consecutive bytes changes the checksum |
| LittleEndian.GetPut | internal/matchengine/server/codec.go:50-58 | a number that fits its field is read back from the bytes written |
| LittleEndian.PutGet | internal/matchengine/server/codec.go:74-87 | writing what was read gives the same bytes, so no two byte strings of one length read alike |
| LittleEndian.FourBytes | internal/matchengine/server/codec.go:50-58 | four bytes are read with the lowest first |
| LittleEndian.EightBytes | internal/matchengine/server/codec.go:55-55 | eight bytes are read with the lower four first |
| LittleEndian.CrcBytes | internal/matchengine/server/codec.go:64-64 | the checksum is written with the lowest byte first |
| Frames.Layout | internal/matchengine/server/codec.go:38-67 | every field of a package stands at its offset in the frame, and the checksum there is that of four zero bytes and all that follows it |
| Frames.UnpackErrors | internal/matchengine/server/codec.go:69-108 | a frame is refused exactly for its size, a wrong magic number, too little behind the header, or a checksum other than that of four zero bytes and all that follows it, with the error of the first |
| Frames.UnpackFields | internal/matchengine/server/codec.go:74-86 | each field is read from its offset; of a frame without the magic number only the first |
| Frames.UnpackPacked | internal/matchengine/server/codec.go:38-108 | unpacking a packed package with the right magic gives its fields, the checksum and the body that was sent, whatever the receiver held |
| Frames.RepackIff | internal/matchengine/server/codec.go:38-108 | packing what a fresh package took from an accepted frame gives the frame back exactly when nothing follows the body and the ext bytes are zero |
| Frames.BurstCaught | internal/matchengine/server/codec.go:92-100 | a change within four consecutive bytes, inside the checksum field or anywhere behind it, makes the frame unacceptable |
| Frames.WrongByteCaughtIff | internal/matchengine/server/codec.go:74-100 | one wrong byte is caught exactly when it is in the magic number or at offset 14 or later; command, type and result are not covered |
| Frames.RPCPkg.Pack | internal/matchengine/server/codec.go:38-67 | the buffer filled in place is the frame of the specification, body size and body cut to 32 bits |
| Frames.RPCPkg.Unpack | internal/matchengine/server/codec.go:69-108 | the receiver's fields and the error are those of the specification, also where the frame is refused half-way |
| Streams.StreamRead | internal/matchengine/server/rpc_server.go:55-93 | packed packages in a row are read back in order, up to and including the first that has ext bytes but no body |
| Streams.AllReadIff | internal/matchengine/server/rpc_server.go:66-93 | every package is read back exactly when each one but the last has no ext bytes or a body |
| Streams.ReadPkg | internal/matchengine/server/rpc_server.go:66-93 | one package off the connection, with exactly its bytes taken, or an error |
| Streams.HandleConnection | internal/matchengine/server/rpc_server.go:55-64 | the packages dispatched are those before the first error |
| DepthFeeds.DiffSide | internal/accessws/server/server.go:356-386 | one row for each changed price with its new amount and one with "0" for each vanished price, in any iteration order |
| DepthFeeds.DiffAppliesIff | internal/accessws/server/server.go:356-386 | a client with the old levels has the new ones after the difference exactly when no price changed to the amount "0" |
| DepthFeeds.DepthPoller.PollKey | internal/accessws/server/server.go:311-352 | a failed query changes nothing; the first answer and each one past the clean interval is sent whole, the others as differences; the snapshot is replaced |
| DepthFeeds.DepthPoller.PollDepth | internal/accessws/server/server.go:296-354 | each key is polled so, in any order, and no other key changes |
| DepthFeeds.ClientInStep | internal/accessws/server/server.go:296-354 | over every run of polls, from any full broadcast on, a client that starts afresh at full broadcasts and applies differences holds the server's snapshot after every poll |
| DepthFeeds.RefreshIff | internal/accessws/server/server.go:340-350 | over every run from the start, an answered poll is sent whole exactly when it is the first, or the interval is positive and has passed since the last whole broadcast; a failed one sends nothing |
| DepthFeeds.RefreshMergesIff | internal/accessws/server/server.go:343-350 | a later full broadcast looks like a difference; taking it for one is right exactly when no level the client holds has vanished |
| DepthFeeds.DiffClientHoldsAll | internal/accessws/server/server.go:296-354 | over every run, a client that takes every update for a difference has each level right and can only hold levels too many |
| DealsFeeds.MarketInfo.AddDeal | internal/marketprice/market/market.go:104-112 | the market keeps the newest hundred deals and the price and time of the last one |
| DealsFeeds.MarketInfo.GetDealsAfterID | internal/marketprice/server/server.go:350-363 | the newest deals behind the ID, at most the limit, oldest first |
| DealsFeeds.Reverse | internal/marketprice/server/server.go:359-361 | the in-place reversal puts each deal at its mirror place |
| DealsFeeds.DealsBuffer.Add | internal/accessws/model/types.go:152-163 | a deal that is not newer than the last is dropped; a newer one is kept with the last maxSize |
| DealsFeeds.DealsBuffer.GetSince | internal/accessws/model/types.go:173-183 | the buffered deals behind the ID, in order |
| DealsFeeds.BufferHoldsNewest | internal/accessws/model/types.go:152-163 | after any offers the buffer is the last maxSize accepted deals and knows the newest |
| DealsFeeds.SinceIsCompleteIff | internal/accessws/model/types.go:173-183 | asking the buffer for what came after an ID misses nothing exactly when the ID is at or after the newest deal that was dropped |
| DealsFeeds.PollDeals | internal/accessws/server/server.go:420-472 | one poll reads the market, fills the buffer and broadcasts what is behind the last ID |
| DealsFeeds.RunBroadcasts | internal/accessws/server/server.go:420-472 | over every run, with ascending positive IDs, the broadcasts are at each answered poll the newest hundred deals since the last one |
| DealsFeeds.SentOnceInOrder | internal/accessws/server/server.go:420-472 | every deal is broadcast at most once, and in order |
| DealsFeeds.NothingLostIff | internal/accessws/server/server.go:420-472 | from the first poll's window on nothing is lost exactly when no more than a hundred deals come between two polls |
| Klines.LastRun | internal/marketprice/kline/kline.go:44-66 | the longest run of deals at the end that share the last deal's bucket |
| Klines.KlineManager.AddDeal | internal/marketprice/kline/kline.go:33-70 | after any deals, every kline of every market and interval has the open, high, low, close, volume and turnover of exactly that run |
| Klines.KlineHolds | internal/marketprice/kline/kline.go:33-70 | each kline that a manager holds has the first and last price of that run, attained extremes, the summed amounts and turnovers, and as its stamp a multiple of the interval whose bucket covers every deal of the run |
| Klines.BucketCovers | internal/marketprice/kline/intervals.go:59-61 | a bucket is stamped with a multiple of the interval and covers its times: from the stamp on for times that are not negative, up to the stamp for negative ones |
| Klines.IntervalsNest | internal/marketprice/kline/intervals.go:26-57 | how many of each interval make up the next |
| Klines.Extremes | internal/marketprice/kline/kline.go:51-52 | the high and the low bound every price of the run, and both were paid |
| Klines.RunIsBucket | internal/marketprice/kline/kline.go:44-66 | when deals come in the order of their times, that run is all deals of the bucket |
| Klines.SameWideBucket | internal/marketprice/kline/intervals.go:59-61 | when one interval divides another, deals in one narrow bucket are in one wide bucket, also for negative times |
| Klines.WiderContains | internal/marketprice/kline/kline.go:33-70 | the wider kline then has the same close, at least the high, at most the low and, for non-negative amounts, at least the volume |
| Quotients.QuotientTwice | internal/marketprice/kline/intervals.go:59-61 | rounding towards zero twice is rounding once by the product |
| KlineStores.RunWritesBack | internal/marketprice/market/market.go:58-179 | over every run of updates, flushes and clearings each bucket in memory is waiting to be written or is what the store has |
| KlineStores.FlushWrites | internal/marketprice/market/market.go:125-155 | after a flush nothing waits, the store has every bucket in memory, and the rest of the store is as it was |
| KlineStores.ClearedThenFlushed | internal/marketprice/market/market.go:157-179 | clearing before a flush loses a bucket exactly when it is too old and the store does not have it yet |
| KlineStores.ClearedKeepsIff | internal/marketprice/market/market.go:157-179 | clearing keeps a bucket exactly when its age is within the limit of its type, days always, and changes nothing in what it keeps |
| KlineStores.DealsRollUp | internal/marketprice/market/market.go:58-102 | when each deal updates all four types, every wide bucket has the summed volume, the highest high and the lowest low of the narrow buckets inside it |
| KlineStores.BucketTells | internal/marketprice/market/market.go:58-102 | after any deals a bucket is there exactly when deals fall into it, with the first and last price of these, their attained extremes and summed amounts; the turnover is never counted |
| KlineStores.StampCovers | internal/marketprice/market/market.go:62-77 | the stamp of a bucket is a multiple of its width whose bucket covers the time |
| MarketManagers.MarketInfo.UpdateKline | internal/marketprice/market/market.go:58-102 | one bucket of one type takes in the deal and is marked dirty; the other maps are untouched |
| MarketManagers.Manager.GetOrCreate | internal/marketprice/market/market.go:30-49 | the market's entry, a blank one only where there was none |
| MarketManagers.Manager.FlushDirty | internal/marketprice/market/market.go:125-155 | memory and store change as the specification's flush, in any iteration order |
| MarketManagers.Manager.ClearOldKlines | internal/marketprice/market/market.go:157-179 | exactly the buckets that are too old are gone; days and dirty marks stay |
| Splits.SplitString | internal/marketprice/cache/redis.go:201-213 | the index loop gives the parts of the specification, for any non-empty separator |
| Splits.JoinSplit | internal/marketprice/cache/redis.go:201-213 | joining the parts with the separator gives back the text |
| Splits.SplitIsFree | internal/marketprice/cache/redis.go:201-213 | no part contains the separator, however long it is |
| Splits.SplitJoinIff | internal/marketprice/cache/redis.go:201-213 | splitting undoes joining with a one-character separator exactly when there is a part and none contains it |
| KlineHashes.ReadPrinted | internal/marketprice/cache/redis.go:108-115 | a kline written by the flush is read back field for field |
| KlineHashes.PrintedParts | internal/marketprice/cache/redis.go:108-115 | the value is open, close, high, low, volume and turnover, with commas in between |
| KlineHashes.HashKeyInjective | internal/marketprice/cache/redis.go:106-106 | two markets and intervals never share a hash |
| KlineHashes.RedisCache.FlushKline | internal/marketprice/cache/redis.go:105-116 | the hash of that market and interval holds the kline at its time; every other hash holds what it held |
| KlineHashes.RedisCache.LoadKlines | internal/marketprice/cache/redis.go:129-168 | exactly the klines flushed for that market and interval from the start time on, in any field order |

## Left out

- Market orders: a market bid keeps money in `Left` but subtracts stock from it, and the rounded division need not let the loop end.
- Two live order objects with one ID: cells are kept by ID, so the model covers callers that use fresh IDs, as the order handlers do.
- Locks and goroutines: `settleTrade` and `CancelOrder` take the engine's lock while they hold it; the model treats that as doing nothing.
- HandleOrderPutLimit also locks and unlocks an account of an asset named like the market around the call; the step `PlaceLimit` is the engine's call alone.
- NestedSweeps.NestedTurn: one stop order waits, here on the taker's side, in `OppositeSweeps.OppositeTurn` on the other; several at once are covered by `PanicBounds` and the run theorems.
- PanicBounds.RoomyNeverPanics: a sufficient condition, not a necessary one; an iff is given for one waiting stop order (`NestedCalls.PlacePanicsIff`).
- Loads.RestoredIsOrderlyIff: a row with another side code is queued with the bids, while its cancel unlocks like that of an ask; such active rows are outside the theorems about loading.
- Solvency.PlaceSlack: an inequality, since what stays frozen for finished orders covers nothing; the exact amounts are `Placements.PlaceFrozen`.
- Restores.RestartedRunIsOrderly: the program restarts the counter at 0; from there the statement about the IDs drawn is `Counters.FreshCounterIsFreeIff`.
- Engines.Engine.CancelStopOrder: stop orders carry whatever ID they were added with; the handlers add them with ID 0.
- Frames.BurstCaught: a burst that straddles the end of the checksum field is not covered.
- Klines.KlineManager.AddDeal: `getAggregatedKline`, which adds overlapping intervals in map order, is not modelled.
- SnapshotFiles.LoadBook: the loop of `LoadOrdersToEngine` over the markets is the function `Loads.Restored`; each market has its own book, so its order does not matter.
- SnapshotFiles.LoadBalances: `LoadFromSlice` reads balances from a database table, not from the file that was dumped; the model loads what was dumped.
- Snapshots.CellRoundTrip: JSON text, order times, source, type, freeze and fee fields of an order are not modelled.
- Splits.SplitString: with an empty separator the loop does not end on a non-empty text, so the separator is required to be non-empty.
- KlineHashes.ReadPrinted: decimals are whole numbers of a smallest unit here, printed and read exactly; the printer of the decimal library is not part of this model.
- KlineHashes.RedisCache.LoadKlines: interval names contain no colon, as all names in use; connection errors are not modelled.
- KlineStores.RunWritesBack: every write to Redis succeeds; the source ignores write errors and clears the dirty marks all the same.
- DepthFeeds.DepthPoller.PollDepth: keys that do not split into three parts are skipped by the source and are not given to the method.
- Integer widths: IDs, times and counters are unbounded; frame fields and body sizes have their widths.
- Operation-log replay: it skips balance locks and may add an order to a heap twice, so a snapshot with its log does not give the live state.
- User and order indexes, order histories and Kafka events: nothing outside the replay fills the indexes, and events are never read back.
- The readhistory codec, JSON parameter parsing, HTTP, WebSocket, TTL caches, the subscription manager, logging, configuration and the generated protobuf code.

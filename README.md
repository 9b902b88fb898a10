# A verified model of the market simulator, its trade-validation vote and its streak routines

This project models, in Dafny, the core of a Python market-simulation repository and proves properties of
that model. It has three parts.

**The order-matching simulator** (`market_sim/`):

- `Models` (models.dfy): orders, the two-sided order book and positions. An order book maps each price
  to a FIFO level of orders, one map for bids and one for asks. A level is created by the first add and
  deleted when its last order leaves. `OrderBook` is a class whose `bids`/`asks` maps the methods update.
  Prices are `Option<real>`, because an unfilled market-order remainder rests in the book at price `None`.
- `Matching` (matching.dfy): the matching engine. It does price-time priority matching of market and limit
  orders, at the resting order's price. It also provides cancel-by-id and the depth snapshot. The class
  `MatchingEngine` mutates its book in place. Each method is proved against recursive specification
  functions (`Sweep`, `FillLevel`, `Settled`) whose properties are proved as lemmas.
- `Agents` (agents.dfy): the agent ledger, a class `Agent`. It holds the cash balance, positions created
  on first access, the open-order register, portfolio value and summary, order validation and cancel-all.
- `Quoting` and `MarketMaking` (quoting.dfy, market_maker.dfy): the market-making strategy. `Quoting`
  covers the spread, skew, clamp and quote-size arithmetic. `MarketMaking` covers the class
  `MarketMaker` (position-limit gating, the bounded price window, the stale-quote watchdog), proved
  against value-level functions on a `Maker` state.
- `Simulation`, `Runs` and `SimulationEngine` (simulation.dfy, run.dfy, engine.dfy): the discrete-event
  simulation. It has a timestamp-ordered event queue, order routing per symbol, an append-only trade log,
  callbacks to agents, metrics collection and a tick loop bounded by the end time. The class
  `MarketSimulation` is proved against the functions of `Runs`. Those functions describe one tick and the
  whole run on a `World` value.

**The trade-validation vote** (`blockchain/consensus/`, `consensus_order_book.py`):

- `ConsensusNode` (consensus_node.dfy): one voting node. It votes to accept iff 0 < value < 1,000,000.
  A round is decided once it holds 2n//3+1 votes, and a trade is accepted iff the accept votes strictly
  outnumber the reject votes.
- `Broadcast` (broadcast.dfy): the round-based broadcast over a sequence of node objects. It models the
  IndexError raised for a proposer index out of range and the ZeroDivisionError raised when trades are
  simulated with no nodes.
- `ConsensusBook` (consensus_book.dfy): a book of buy and sell lists kept stably sorted, with at most one
  match per add. A trade at or above the threshold is executed only once the vote accepts it.

**The streak and counting routines** of the analytics scripts:

- `Trends` (trends.dfy): `get_consecutive_trends` over a sequence of closes.
- `StreakUpdate` (streak_update.dfy): the incremental streak loop of `update_streaks`. The stored close is
  a parameter and the saved streaks are returned.
- `StreakDistribution` (streak_distribution.dfy): the frequency and probability maps.
- `Stability` (stability.dfy): the stable-or-important filter.
- `Tiers` (tiers.dfy): the cumulative-weight tiers.

`Wrappers` has the `Option`/`Result` types, the Python exceptions the model raises, and Python's
negative-index slicing.

**Conventions.**

- Python's `Decimal` is modelled as `real`, so the 28-digit context is idealised.
- `float()` conversions are the identity on reals. For example, the consensus vote's
  `float(trade.price * trade.quantity)` is rounded to binary64 in the source but not in the model.
- Timestamps are `int` milliseconds and UUIDs are `nat` ids supplied by the caller.
- The wall clock is a parameter.
- Where Python raises, for example on a comparison with `None` or a division by zero, the model returns
  an `Err` with that exception.

**Behaviour kept as the code has it.** The model follows the code, including where it behaves
surprisingly:

- An unfilled market-order remainder is added to the book at price `None`
  (`Matching.MarketRemainderRestsAtNone`).
- The first BUY into a zero position sets the average price but leaves the quantity at 0, so the bought
  value disappears (`Agents.FirstBuyLosesValue`).
- The market maker's quotes are only recorded in the agent's `orders` and never reach an exchange.
- Cancelling quotes cancels every open order of the agent.
- The engine never calls `on_order_fill`, so simulated trades do not move positions.
- Events with equal timestamps leave the queue in an unspecified order. The model pops the first
  earliest one in the queue (`Simulation.FindEarliest`).

## Model

| member | source | states |
|---|---|---|
| Models.CreateMarketOrder | market_sim/core/models/base.py:48-65 | a market order has the given id, symbol, side, quantity, agent and time, no price, is pending, nothing filled and all of it remaining |
| Models.CreateLimitOrder | market_sim/core/models/base.py:67-85 | a limit order carries its price, is pending, nothing filled and all of it remaining |
| Models.WithoutContents | market_sim/core/models/base.py:145 | the filtered level keeps exactly the orders whose id differs from the removed one |
| Models.WithoutUnique | market_sim/core/models/base.py:145 | with distinct ids, filtering out the id of the order at index k removes exactly that order and keeps the others in order |
| Models.WithoutAbsent | market_sim/core/models/base.py:145 | filtering by an id no order carries leaves the level unchanged |
| Models.Appended | market_sim/core/models/base.py:128-133 | the order joins the back of the level at its price, which is created empty if absent; every other level is unchanged |
| Models.Removed | market_sim/core/models/base.py:141-147 | an absent level changes nothing; otherwise the orders with that id leave the level and a level left empty is deleted; other levels are unchanged |
| Models.OrderBook.AddOrder | market_sim/core/models/base.py:128-134 | the order's own side becomes `Appended` of it and the other side is unchanged |
| Models.OrderBook.GetOrdersAtPrice | market_sim/core/models/base.py:136-139 | the orders of the level at that price on that side, or none when there is no such level |
| Models.OrderBook.RemoveOrder | market_sim/core/models/base.py:141-148 | the order's own side becomes `Removed` of its price and id and the other side is unchanged |
| Models.OrderBook.PutLevel | market_sim/core/models/base.py:141-147 | one level replaced on one side, deleted when empty, the other side unchanged |
| Models.AppendedGood | market_sim/core/models/base.py:128-133 | an order with a fresh id and something left, joining its own side, keeps that side well formed |
| Models.CreatePosition | market_sim/core/models/base.py:172-182 | a new position for the agent and symbol holds nothing, with zero average price and zero profit and loss |
| Models.UpdatedPosition | market_sim/core/models/base.py:184-198 | a sell realises (price - average) * quantity and lowers the quantity; a buy into an empty position only sets the average price; a buy that brings the quantity to zero raises after the quantity changed; any other buy adds the quantity and keeps the profit and loss |
| Models.BuyAveragesCost | market_sim/core/models/base.py:189-192 | after a buy into a held position, average times quantity is the old cost plus the trade's cost |
| Models.BuyAtAverageKeepsAverage | market_sim/core/models/base.py:189-192 | buying more at the average price keeps the average price |
| Models.SellAtAverageRealisesNothing | market_sim/core/models/base.py:193-196 | selling at the average price realises no profit or loss |
| Matching.Extreme | market_sim/market/exchange/matching_engine.py:70 | the result is the highest (or lowest) of a non-empty set of present prices |
| Matching.SortedPrices | market_sim/market/exchange/matching_engine.py:30 | the prices of the set, each once, strictly ascending or strictly descending as asked |
| Matching.SortKeys | market_sim/market/exchange/matching_engine.py:30 | sorting fails exactly when the absent price sits beside another price (a TypeError in Python); otherwise the result lists every price once in the asked order |
| Matching.BestPrice | market_sim/market/exchange/matching_engine.py:70 | min or max of the keys: fails exactly when the absent price sits beside another price; otherwise a key better than every other key |
| Matching.BestIsFirstSorted | market_sim/market/exchange/matching_engine.py:70-76 | the best price is the first of the sorted prices |
| Matching.Updated | market_sim/market/exchange/matching_engine.py:129-142 | a fill of q adds q to filled and takes it from remaining, sets the status to filled when nothing remains and partial otherwise, and changes nothing else |
| Matching.UpdatedBalanced | market_sim/market/exchange/matching_engine.py:129-142 | a fill keeps filled + remaining equal to the quantity |
| Matching.CreateTrade | market_sim/market/exchange/matching_engine.py:111-127 | the trade has the book's symbol, the level's price and the fill quantity; the taker is the buyer when it buys and the seller otherwise |
| Matching.TotalQuantityAppend | market_sim/market/exchange/matching_engine.py:42-46 | the traded quantity of two runs of trades adds up |
| Matching.FillLevelLeavesLevel | market_sim/market/exchange/matching_engine.py:37-53 | what a level keeps after the taker meets it is a well-formed level of orders that were already there, and it is empty unless the taker is used up |
| Matching.FillLevelTaker | market_sim/market/exchange/matching_engine.py:37-53 | meeting one level changes only the taker's quantities and status; it loses exactly the traded total, never goes negative, and every trade is at the level's price |
| Matching.FillLevelPositive | market_sim/market/exchange/matching_engine.py:42 | against makers with something left, every fill is for a positive quantity |
| Matching.FillOrders | market_sim/market/exchange/matching_engine.py:36-53 | the loop over a level's resting orders yields the taker, the surviving orders, the trades and the next trade number that `FillLevel` describes |
| Matching.SameCrossing | market_sim/market/exchange/matching_engine.py:83-85 | whether an order may trade at a price depends only on its type, side and price |
| Matching.SweepKeepsBook | market_sim/market/exchange/matching_engine.py:32-53 | walking the opposite levels keeps that side well formed |
| Matching.SweepTaker | market_sim/market/exchange/matching_engine.py:32-53 | a walk changes only the taker's quantities and status, and it loses exactly the quantity it traded |
| Matching.SweepTrades | market_sim/market/exchange/matching_engine.py:78-88 | a walk trades only at levels it walks and crosses |
| Matching.SweepPositive | market_sim/market/exchange/matching_engine.py:42 | on a well-formed side every trade of a walk is for a positive quantity |
| Matching.SweepFacts | market_sim/market/exchange/matching_engine.py:32-53 | a walk leaves a well-formed side and a taker changed only in its quantities and status; it trades only at crossing levels it walked, for positive quantities totalling what the taker lost; its first trade is at the first level walked, and over levels in sorting order a taker left with quantity crosses none of the levels still on the side |
| Matching.SweepWalksInOrder | market_sim/market/exchange/matching_engine.py:30-32 | over ordered levels the trade prices never move back towards the best price |
| Matching.Settled | market_sim/market/exchange/matching_engine.py:55-59 | the trades, taker and next trade number are those of the walk; the opposite side is the one the walk left, and the taker's remainder, if any, joins the back of its own side at its price, which is otherwise unchanged |
| Matching.CrossingLimitWalks | market_sim/market/exchange/matching_engine.py:67-76 | a limit order that reaches the best price can always walk, because the opposite side sorts |
| Matching.WalkFacts | market_sim/market/exchange/matching_engine.py:23-59 | the walk over the sorted opposite side has every property `SweepFacts` states |
| Matching.SortedLevels | market_sim/market/exchange/matching_engine.py:30 | the sorted prices of a side are its levels, each once |
| Matching.WalkPriority | market_sim/market/exchange/matching_engine.py:23-59 | the first trade of a walk is at the best opposite price, and a taker left with quantity crosses no opposite level still there |
| Matching.SettledGood | market_sim/market/exchange/matching_engine.py:55-57 | resting the remainder under a fresh id keeps both sides well formed |
| Matching.ProcessFacts | market_sim/market/exchange/matching_engine.py:16-109 | an incoming order keeps both books well formed, keeps its identity, fills by exactly what it traded and stays balanced; each trade is for a positive quantity at a crossing level, and a limit buy never pays above its price nor a limit sell receives below it (price priority is `ProcessPriority`) |
| Matching.ProcessPriority | market_sim/market/exchange/matching_engine.py:16-109 | price priority: the first trade is at the best opposite price, an order left with quantity crosses no opposite level left, and a market order left with quantity has emptied the opposite side |
| Matching.RestsUncrossed | market_sim/market/exchange/matching_engine.py:67-74 | a limit order that does not reach the best opposite price crosses no opposite level |
| Matching.SweepIdsWithin | market_sim/market/exchange/matching_engine.py:32-53 | a walk leaves no order on the walked side that was not there before |
| Matching.WalkIdsWithin | market_sim/market/exchange/matching_engine.py:23-53 | the walk of an order leaves only orders that were there, and keeps the taker's id |
| Matching.SettledIdsWithin | market_sim/market/exchange/matching_engine.py:55-57 | resting the remainder adds no id besides the taker's |
| Matching.ProcessIdsWithin | market_sim/market/exchange/matching_engine.py:16-109 | after an incoming order every resting order rested before or is the order itself |
| Matching.ProcessWalksInOrder | market_sim/market/exchange/matching_engine.py:30-76 | the trades of a buy never fall in price and those of a sell never rise |
| Matching.ProcessTrades | market_sim/market/exchange/matching_engine.py:18-76 | the trades of an order are its walk's when it is a market order or a crossing limit order, and none otherwise |
| Matching.Process | market_sim/market/exchange/matching_engine.py:16-21 | a market order walks every opposite level; any other order is processed as a limit order |
| Matching.Matched | market_sim/market/exchange/matching_engine.py:23-59 | an order walks the opposite levels in sorted order and then rests its remainder; an unsortable side raises |
| Matching.ProcessLimit | market_sim/market/exchange/matching_engine.py:61-109 | a limit order walks only when it reaches the best opposite price, and otherwise rests whole; a failed price comparison raises |
| Matching.NonCrossingLimitRests | market_sim/market/exchange/matching_engine.py:67-107 | a limit order that does not reach the best opposite price trades nothing and rests in full at its price |
| Matching.MarketRemainderRestsAtNone | market_sim/market/exchange/matching_engine.py:55-57 | a market order meeting an empty opposite side rests in full at the absent price |
| Matching.LevelQuantityPositive | market_sim/market/exchange/matching_engine.py:167 | a non-empty level of orders with something left has a positive total |
| Matching.Depth | market_sim/market/exchange/matching_engine.py:167-172 | each price is paired with its level's total remaining quantity |
| Matching.SideDepth | market_sim/market/exchange/matching_engine.py:167-172 | one side's first `depth` levels: fails exactly when the side cannot be sorted; otherwise `depth` entries (or all when fewer), strictly ordered, each a level with its total |
| Matching.SnapshotOf | market_sim/market/exchange/matching_engine.py:165-174 | bids highest first and asks lowest first, cut to `depth`, each with its level's total; fails exactly when a side cannot be sorted |
| Matching.SnapshotQuantitiesPositive | market_sim/market/exchange/matching_engine.py:165-174 | on well-formed books every quantity of the snapshot is positive |
| Matching.MatchingEngine.constructor | market_sim/market/exchange/matching_engine.py:12-14 | a fresh, empty order book for the symbol and no trades yet |
| Matching.MatchingEngine.ProcessOrder | market_sim/market/exchange/matching_engine.py:16-21 | the trades, the taker and the new books are those of `Process`; an error leaves everything as it was |
| Matching.MatchingEngine.ProcessMarketOrder | market_sim/market/exchange/matching_engine.py:23-59 | the result and the new state are those of `Matched`: walk every opposite level, then rest the remainder |
| Matching.MatchingEngine.ProcessLimitOrder | market_sim/market/exchange/matching_engine.py:61-109 | the result and the new state are those of `ProcessLimit`: walk only when the best price is reached, then rest the remainder |
| Matching.MatchingEngine.WalkAndRest | market_sim/market/exchange/matching_engine.py:30-107 | walking the sorted levels and resting the remainder gives the result and state of `Matched` |
| Matching.MatchingEngine.RestRemainder | market_sim/market/exchange/matching_engine.py:55-107 | the taker joins its own side's level only when something of it remains; the other side is unchanged |
| Matching.MatchingEngine.SweepLevels | market_sim/market/exchange/matching_engine.py:32-103 | the taker, trades, next trade number and opposite side are those of `Sweep`; the taker's own side is unchanged |
| Matching.MatchingEngine.MatchLevel | market_sim/market/exchange/matching_engine.py:36-53 | one level met as `FillLevel` describes; only that level of the opposite side changes |
| Matching.MatchingEngine.CancelOrder | market_sim/market/exchange/matching_engine.py:144-163 | none exactly when no resting order has the id, and then nothing changes; otherwise the order, bids searched first, leaves its level and comes back cancelled; the other side is unchanged |
| Matching.MatchingEngine.CancelIn | market_sim/market/exchange/matching_engine.py:147-161 | a side holding the id gives that order back cancelled and removes it from its level |
| Matching.MatchingEngine.GetOrderBookSnapshot | market_sim/market/exchange/matching_engine.py:165-174 | the snapshot of the current books, as `SnapshotOf` states it |
| Matching.RemovedGood | market_sim/core/models/base.py:141-147 | taking an id out of one level keeps a well-formed side well formed |
| Matching.WithoutGood | market_sim/core/models/base.py:145 | filtering a well-formed level keeps it well formed and adds no id |
| Matching.FillLevel | market_sim/market/exchange/matching_engine.py:37-103 | the next trade number advances by one per trade of the level |
| Matching.FillLevelNumbers | market_sim/market/exchange/matching_engine.py:45-46 | the trades of a level are numbered consecutively from the next trade number |
| Matching.FillLevelInOrder | market_sim/market/exchange/matching_engine.py:37-53 | time priority: the taker meets a prefix of the level oldest first, trade i being against the order at index i |
| Matching.FillLevelLeavesRest | market_sim/market/exchange/matching_engine.py:37-53 | every maker met but the last is filled completely; the level left is the untouched rest, headed by the last maker met when it is only partly filled |
| Matching.FillStep | market_sim/market/exchange/matching_engine.py:37-53 | one fill against the next resting order: its trade comes first, a maker with something left stays, and the level goes on from the taker so reduced |
| Matching.Sweep | market_sim/market/exchange/matching_engine.py:32-103 | the next trade number advances by one per trade of the walk |
| Matching.SweepNumbers | market_sim/market/exchange/matching_engine.py:32-53 | the trades of a walk are numbered consecutively from the next trade number |
| Matching.SweepKeys | market_sim/market/exchange/matching_engine.py:32-53 | a walk adds no price level to the side |
| Matching.SweepClearsCrossing | market_sim/market/exchange/matching_engine.py:32-53 | over levels in sorting order, a taker left with quantity crosses none of the walked prices still on the side |
| Matching.SweepStartsFirst | market_sim/market/exchange/matching_engine.py:32-46 | the first trade of a walk is at its first price |
| Matching.SweepUnfold | market_sim/market/exchange/matching_engine.py:78-103 | a walk whose first level crosses fills that level and goes on from the side and taker it leaves, its trades first |
| Matching.WalkStep | market_sim/market/exchange/matching_engine.py:78-103 | filling a crossed level keeps the opposite side well formed with the later levels still listed, and changes only the taker's fill counts and status |
| Matching.DepthFacts | market_sim/market/exchange/matching_engine.py:167-172 | the depth of listed prices in order is ordered and gives each price's total remaining quantity |
| Matching.TakeDepth | market_sim/market/exchange/matching_engine.py:169-172 | cutting the depth keeps it ordered and each entry's total |
| Agents.WithPositionFacts | market_sim/market/agents/base_agent.py:36-40 | looking a position up creates it at most once: later look-ups find the same position, and only the positions change |
| Agents.FirstPositionIsZero | market_sim/market/agents/base_agent.py:38-39 | the position created for a symbol seen the first time is all zeros |
| Agents.TradedFacts | market_sim/market/agents/base_agent.py:42-53 | a position update keeps the books well formed and leaves the orders, the trades and every other position as they were |
| Agents.Traded | market_sim/market/agents/base_agent.py:42-53 | the position moves as `Position.update` says on the trade's side, the buyer pays and the seller receives price times quantity; a trade without a price raises TypeError once the position exists, and an update that raises leaves the balance (see "Left out") |
| Agents.TradeMovesCash | market_sim/market/agents/base_agent.py:48-53 | the buyer pays and the seller receives price times quantity, so their total cash is unchanged |
| Agents.RaisedKeepsCash | market_sim/market/agents/base_agent.py:44-53 | an update that raises before the cash moves leaves the balance as it was |
| Agents.DroppedContents | market_sim/market/agents/base_agent.py:75 | deleting an id from the insertion order keeps exactly the other ids, still distinct |
| Agents.AfterFillFacts | market_sim/market/agents/base_agent.py:68-75 | a fill always records the trade; a completed fill leaves the order unknown and keeps every other order; any other fill keeps the orders; a KeyError means a filled order the agent did not hold |
| Agents.AfterFill | market_sim/market/agents/base_agent.py:68-75 | the trade is recorded, the position updated on the side the order took, and a filled order forgotten; forgetting an order the agent does not hold raises KeyError after the position moved |
| Agents.RegisteredFacts | market_sim/market/agents/base_agent.py:58-65 | the order is recorded under its id and every other order is unchanged |
| Agents.HoldingsWithoutPrices | market_sim/market/agents/base_agent.py:81-84 | with no price known no position adds to the value |
| Agents.WorthAtPrice | market_sim/market/agents/base_agent.py:82-84 | a position at a known price is worth quantity times price |
| Agents.HoldingsOutside | market_sim/market/agents/base_agent.py:81-84 | the position of a symbol the agent does not list does not count |
| Agents.HoldingsChange | market_sim/market/agents/base_agent.py:81-84 | replacing one position changes the holdings by the change in that position's worth |
| Agents.WithPositionKeepsValue | market_sim/market/agents/base_agent.py:36-86 | creating a zero position does not change the portfolio value |
| Agents.TradedEffect | market_sim/market/agents/base_agent.py:42-53 | a successful update changes only that position's quantity (minus for a sell, plus for a buy into a held position, unchanged for a buy into an empty one) and the cash by price times quantity |
| Agents.ValueAfterUpdate | market_sim/market/agents/base_agent.py:42-86 | the non-cash part of the value changes by the change in that one position's worth |
| Agents.WorthMatchesCash | market_sim/market/agents/base_agent.py:42-86 | at the trade's own price the position's change in worth is the cash paid (or minus the cash received), except for a buy into an empty position |
| Agents.TradeArithmetic | market_sim/market/agents/base_agent.py:49-53 | the change in worth offsets the cash paid or received |
| Agents.TradeAtMarkKeepsValue | market_sim/market/agents/base_agent.py:42-86 | trading at the price the portfolio is valued at keeps the portfolio value, except for a buy into an empty position |
| Agents.FirstBuyLosesValue | market_sim/market/agents/base_agent.py:42-53 | a buy into an empty position pays the cash but records no quantity, so the portfolio value drops by price times quantity |
| Agents.FirstBuyFacts | market_sim/market/agents/base_agent.py:42-53 | a buy into an empty position goes through, lowers the balance by price times quantity and leaves the position worth nothing |
| Agents.ValidatedBuyIsCovered | market_sim/market/agents/base_agent.py:123-133 | a validated buy filled for at most its quantity at no more than its estimated price leaves a non-negative balance |
| Agents.Validity | market_sim/market/agents/base_agent.py:118-133 | a sell is valid when the position covers it; a market buy needs a known non-zero price and a buy needs the balance to cover its estimated cost; a limit buy without a price raises TypeError |
| Agents.CostCovered | market_sim/market/agents/base_agent.py:129-133 | a balance covering a price and quantity covers any smaller price and quantity |
| Agents.ValidatedSellIsCovered | market_sim/market/agents/base_agent.py:120-122 | a validated sell filled for at most its quantity cannot turn the position short |
| Agents.SelectContents | market_sim/market/agents/base_agent.py:138-143 | the selected ids are exactly the held ids whose orders are open (or not), each once |
| Agents.SelectClosed | market_sim/market/agents/base_agent.py:138-143 | selecting the closed orders of what is left after cancelling gives the same ids |
| Agents.CancelAllIdempotent | market_sim/market/agents/base_agent.py:135-144 | cancelling all open orders a second time changes nothing |
| Agents.CancelAllFacts | market_sim/market/agents/base_agent.py:135-144 | exactly the open orders are cancelled, each once; none is left open and every other order is kept unchanged |
| Agents.CancelledRest | market_sim/market/agents/base_agent.py:138-143 | what the loop keeps is exactly the books without their open orders |
| Agents.SplitOpen | market_sim/market/agents/base_agent.py:138-143 | the loop returns the open ids in placing order, keeps the others and removes exactly the cancelled ones from the orders |
| Agents.ShownHoldings | market_sim/market/agents/base_agent.py:93-106 | one summary line for each non-zero position whose price is known and non-zero, with market value and unrealised profit at that price, and no other line |
| Agents.Agent.constructor | market_sim/market/agents/base_agent.py:13-19 | the agent starts with its balance and no positions, orders or trades |
| Agents.Agent.GetPosition | market_sim/market/agents/base_agent.py:36-40 | the position handed out is the existing one or a new zero one, which is then stored |
| Agents.Agent.UpdatePosition | market_sim/market/agents/base_agent.py:42-53 | the new books and the exception raised, if any, are those of `Traded` |
| Agents.Agent.Register | market_sim/market/agents/base_agent.py:58-65 | the order is recorded under its id |
| Agents.Agent.CreateMarketOrder | market_sim/market/agents/base_agent.py:55-59 | a new market order of this agent, recorded among its orders |
| Agents.Agent.CreateLimitOrder | market_sim/market/agents/base_agent.py:61-66 | a new limit order of this agent, recorded among its orders |
| Agents.Agent.OnOrderFill | market_sim/market/agents/base_agent.py:68-75 | the new books and the exception raised, if any, are those of `AfterFill` |
| Agents.Agent.ForgetFilled | market_sim/market/agents/base_agent.py:74-75 | a filled order is dropped from the orders; an unknown one raises a KeyError |
| Agents.Agent.GetPortfolioValue | market_sim/market/agents/base_agent.py:77-86 | cash plus quantity times price over the non-zero positions whose symbol has a price |
| Agents.Agent.GetPortfolioSummary | market_sim/market/agents/base_agent.py:88-116 | the summary carries the clock reading, id, cash, total value and the numbers of orders and trades, and one line for exactly the shown positions |
| Agents.Agent.ValidateOrder | market_sim/market/agents/base_agent.py:118-133 | the verdict of `Validity`; validating a sell creates the position it reads and changes nothing else |
| Agents.Agent.CancelAllOrders | market_sim/market/agents/base_agent.py:135-144 | the open orders leave the books and their ids come back in placing order |
| MarketMaking.MidPrice | market_sim/strategies/hft/market_maker.py:117 | the mid of a bid below an ask lies between them |
| MarketMaking.Pushed | market_sim/strategies/hft/market_maker.py:119-165 | appending a sample and dropping the oldest beyond the window keeps the list within the window and holding the latest samples |
| MarketMaking.QuoteOf | market_sim/strategies/hft/market_maker.py:148-155 | a side is quoted exactly when filling it keeps the position within the limit, as a pending limit order of its size at its price |
| MarketMaking.PlacedQuotes | market_sim/strategies/hft/market_maker.py:131-155 | the bid is placed exactly when position + bid size is within the limit, the ask exactly when position - ask size is, each as a limit order with the inventory-adjusted size |
| MarketMaking.PlacedLedgerFacts | market_sim/strategies/hft/market_maker.py:150-154 | recording the quotes keeps the books well formed, records each placed quote under its id and touches only the orders |
| MarketMaking.PlacedKeepsGood | market_sim/strategies/hft/market_maker.py:148-155 | placing quotes for a tracked symbol keeps the strategy well formed |
| MarketMaking.QuotesCancelled | market_sim/strategies/hft/market_maker.py:177-183 | both quotes of the symbol are absent afterwards; the samples and the quotes of every other symbol are unchanged |
| MarketMaking.ShouldUpdate | market_sim/strategies/hft/market_maker.py:89-106 | no update exactly when both sides are non-empty, both quotes are present, both top prices are known and equal to the quotes' prices, and the time since the last placement for any symbol is at most the update interval of 100 ms; an error only with both sides non-empty |
| MarketMaking.SpreadOutcome | market_sim/strategies/hft/market_maker.py:61-87 | `calculate_spread` creates the position only once the volatility is known, and a successful spread implies the position limit can divide a non-zero position |
| MarketMaking.BookUpdated | market_sim/strategies/hft/market_maker.py:108-157 | an untracked symbol, an empty side or no need to update changes nothing; an error of the update check propagates unchanged; any change needs a tracked symbol, both top prices and a needed update |
| MarketMaking.PlacedFacts | market_sim/strategies/hft/market_maker.py:131-157 | placing keeps the strategy well formed and the positions unchanged, stamps the time, and each placed quote keeps the position within the limit and is recorded among the orders |
| MarketMaking.Placed | market_sim/strategies/hft/market_maker.py:131-157 | the quotes sized for the position are placed, recorded among the orders and as the symbol's quotes, and the time is stamped |
| MarketMaking.Replaced | market_sim/strategies/hft/market_maker.py:125-157 | an error of `calculate_spread` propagates before anything is cancelled; otherwise the old quotes are withdrawn and the new ones placed |
| MarketMaking.Requoted | market_sim/strategies/hft/market_maker.py:116-157 | the mid price is recorded as a sample, the spread calculated, the old quotes withdrawn and the new ones placed |
| MarketMaking.CancelledKeepsGood | market_sim/strategies/hft/market_maker.py:177-183 | withdrawing the quotes keeps the strategy well formed and the positions unchanged |
| MarketMaking.ReplacedFacts | market_sim/strategies/hft/market_maker.py:125-157 | replacing the quotes keeps the strategy well formed; when it completes, the old quotes are withdrawn and then the new ones placed |
| MarketMaking.SpreadKeepsGood | market_sim/strategies/hft/market_maker.py:116-125 | recording the mid and calculating the spread keep the strategy well formed, and a known spread leaves the position as it was |
| MarketMaking.RequotedKeepsGood | market_sim/strategies/hft/market_maker.py:116-157 | a re-quote keeps the strategy well formed |
| MarketMaking.RequotedSteps | market_sim/strategies/hft/market_maker.py:116-157 | a re-quote is, step by step, the recorded mid, the spread, then on success the old quotes withdrawn and new ones placed for the position held before; a spread error propagates after the mid is recorded |
| MarketMaking.BookUpdateRequotes | market_sim/strategies/hft/market_maker.py:108-125 | a book update that is to re-quote does so around the mid of the best bid and ask |
| MarketMaking.BookUpdateKeepsGood | market_sim/strategies/hft/market_maker.py:108-157 | a book update keeps the strategy well formed; no sample list outgrows the window |
| MarketMaking.RequotedQuotes | market_sim/strategies/hft/market_maker.py:131-157 | a completed re-quote stamps the time, keeps the position, and leaves only quotes that keep the position within the limit, each recorded among the orders |
| MarketMaking.TradeHeard | market_sim/strategies/hft/market_maker.py:159-165 | a trade in an untracked symbol changes nothing; any trade changes only the samples |
| MarketMaking.TradeKeepsGood | market_sim/strategies/hft/market_maker.py:159-165 | recording a trade price keeps the strategy well formed |
| MarketMaking.StaleSwept | market_sim/strategies/hft/market_maker.py:167-175 | the sweep keeps the set of symbols with quotes |
| MarketMaking.SweepFacts | market_sim/strategies/hft/market_maker.py:167-183 | the sweep withdraws exactly the stale quotes of the swept symbols, keeps every other quote, and cancels the agent's open orders exactly when some swept quote was stale |
| MarketMaking.SweepLeavesNothingStale | market_sim/strategies/hft/market_maker.py:167-175 | after the sweep no quote of a swept symbol is stale |
| MarketMaking.SweepKeepsGood | market_sim/strategies/hft/market_maker.py:167-175 | the sweep keeps the strategy well formed |
| MarketMaking.MarketMaker.constructor | market_sim/strategies/hft/market_maker.py:20-50 | a new agent with the balance, no sample and no quote for any of its symbols, stamped at the given time |
| MarketMaking.MarketMaker.Record | market_sim/strategies/hft/market_maker.py:119-165 | a sample is recorded for the symbol as `Recorded` says |
| MarketMaking.MarketMaker.CalculateSpread | market_sim/strategies/hft/market_maker.py:61-87 | the prices or the exception, and the agent's books, are those of `SpreadOutcome` |
| MarketMaking.MarketMaker.CancelCurrentQuotes | market_sim/strategies/hft/market_maker.py:177-183 | the new state is `QuotesCancelled` of the old |
| MarketMaking.MarketMaker.PlaceSide | market_sim/strategies/hft/market_maker.py:149-155 | the quote is `QuoteOf`; only a placed quote is recorded among the orders |
| MarketMaking.MarketMaker.PlaceQuotes | market_sim/strategies/hft/market_maker.py:131-157 | the new state is `Placed` of the old |
| MarketMaking.MarketMaker.OnOrderBookUpdate | market_sim/strategies/hft/market_maker.py:108-157 | the new state and the exception raised, if any, are those of `BookUpdated` |
| MarketMaking.MarketMaker.Requote | market_sim/strategies/hft/market_maker.py:116-157 | a spread error leaves the mid recorded and the ledger `calculate_spread` left and propagates; otherwise the old quotes are withdrawn and new ones placed for the position held before |
| MarketMaking.MarketMaker.Replace | market_sim/strategies/hft/market_maker.py:127-157 | the old quotes withdrawn and new ones placed at the prices for the position held |
| MarketMaking.MarketMaker.OnTrade | market_sim/strategies/hft/market_maker.py:159-165 | the new state is `TradeHeard` of the old |
| MarketMaking.MarketMaker.OnTimeUpdate | market_sim/strategies/hft/market_maker.py:167-175 | the new state is `StaleSwept` of the old over the agent's symbols |
| Quoting.Volatility | market_sim/strategies/hft/market_maker.py:52-59 | fewer than two samples in the window give zero; a missing sample raises a TypeError; otherwise the estimate |
| Quoting.Clamp | market_sim/strategies/hft/market_maker.py:81-82 | the value clamped into [lo, hi]: inside it when lo <= hi, unchanged when already inside, lo when hi < lo |
| Quoting.ClampMonotone | market_sim/strategies/hft/market_maker.py:81-82 | clamping keeps order |
| Quoting.HalfSpreads | market_sim/strategies/hft/market_maker.py:63-82 | both half-spreads lie in [minSpread, maxSpread] |
| Quoting.Side | market_sim/strategies/hft/market_maker.py:77-82 | one skewed half-spread lies in [minSpread, maxSpread] |
| Quoting.QuotesStraddleMid | market_sim/strategies/hft/market_maker.py:84-87 | with a positive minimum spread the bid is below and the ask above a positive mid; with a maximum spread below 100% the bid is positive |
| Quoting.ZeroInventorySymmetric | market_sim/strategies/hft/market_maker.py:73-87 | without inventory skew both half-spreads are equal and the quotes sit symmetrically around the mid |
| Quoting.HalfMonotone | market_sim/strategies/hft/market_maker.py:68-76 | more volatility never narrows the half spread |
| Quoting.VolatilityWidens | market_sim/strategies/hft/market_maker.py:63-82 | with a skew within [-1, 1], more volatility never narrows either half-spread |
| Quoting.SideMonotone | market_sim/strategies/hft/market_maker.py:77-82 | a wider half spread never gives a narrower clamped side |
| Quoting.SkewScales | market_sim/strategies/hft/market_maker.py:77-78 | a positive skew scales the bid side down against the ask side, a negative one the reverse |
| Quoting.SkewDirection | market_sim/strategies/hft/market_maker.py:70-82 | a long inventory gives the bid the narrower half-spread, a short one the ask |
| Quoting.HalfNonNegative | market_sim/strategies/hft/market_maker.py:68-76 | with a non-negative target spread and volatility of at least -1 the half spread is not negative |
| Quoting.SideOrder | market_sim/strategies/hft/market_maker.py:77-82 | a smaller scaled half spread gives a smaller clamped side |
| Quoting.Scaled | market_sim/strategies/hft/market_maker.py:139-146 | scaling a size by 1 - a and 1 + a with a in [0, 1] brackets it, never below zero |
| Quoting.SizesLeanAgainstInventory | market_sim/strategies/hft/market_maker.py:133-146 | when long the bid size shrinks and the ask grows, when short the reverse, flat leaves both at the order size, and no size is negative |
| Simulation.Earliest | market_sim/simulation/engine/simulation_engine.py:155-156 | the event popped first is one no queued event is before, and the first of the equally early ones |
| Simulation.FindEarliest | market_sim/simulation/engine/simulation_engine.py:155-156 | the scan finds exactly the position `Earliest` names |
| Simulation.FilterMembers | market_sim/simulation/engine/simulation_engine.py:155 | an event is due at `t` exactly when it is queued with a timestamp at or before `t`, pending exactly when after it |
| Simulation.DuePendingSplit | market_sim/simulation/engine/simulation_engine.py:155-157 | every queued event is either due or pending, as multisets |
| Simulation.PopDue | market_sim/simulation/engine/simulation_engine.py:155-157 | popping a due event leaves the pending events unchanged and takes exactly that event from the due ones |
| Simulation.NothingDue | market_sim/simulation/engine/simulation_engine.py:155 | a queue whose every event is later than `t` is all pending and nothing is due |
| Simulation.PendingLater | market_sim/simulation/engine/simulation_engine.py:153-168 | across two steps, what stays pending is what is pending after the later time, and the events due at the two steps together are those due at the later time |
| Simulation.OrderedAppend | market_sim/simulation/engine/simulation_engine.py:26-27 | two time-ordered runs of events, the first no later than the second, are time-ordered together |
| Simulation.MarketEventError | market_sim/simulation/engine/simulation_engine.py:181-202 | handling a market event raises only an AttributeError (no dictionary) or a KeyError (a missing field) |
| Simulation.AllHeard | market_sim/simulation/engine/simulation_engine.py:92-95 | a strategy hearing trades in turn stays well formed |
| Simulation.HeardSamples | market_sim/strategies/hft/market_maker.py:159-165 | hearing trades changes only the samples: each symbol keeps, within the window, its samples followed by the prices of its trades in order |
| Simulation.HeardStep | market_sim/strategies/hft/market_maker.py:159-165 | one trade extends the windowed samples of its own symbol by its price and leaves the other symbols alone |
| Simulation.BookSeen | market_sim/simulation/engine/simulation_engine.py:111-112 | a strategy told of a snapshot stays well formed, whether or not it raises |
| Simulation.Snapshots | market_sim/simulation/engine/simulation_engine.py:99-100 | one snapshot per exchange in order, each the one of its symbol; an error is the error of some symbol's snapshot |
| Simulation.Records | market_sim/simulation/engine/simulation_engine.py:103-108 | one record per snapshot, stamped with the time and carrying its symbol, bids and asks |
| Simulation.RecordsNext | market_sim/simulation/engine/simulation_engine.py:99-108 | recording one more snapshot appends its record |
| Simulation.AsDecimal | market_sim/simulation/engine/simulation_engine.py:121-136 | a price reads as a decimal exactly when present, as itself; an absent one raises InvalidOperation |
| Simulation.PriceScanNext | market_sim/simulation/engine/simulation_engine.py:118-121 | one more exchange scanned: a snapshot or price that cannot be read raises for the whole scan, or the prices are extended |
| Simulation.PriceScan | market_sim/simulation/engine/simulation_engine.py:117-121 | the exchanges are scanned in order, each snapshot taken just before its price is read; the first snapshot or price that cannot be read raises |
| Simulation.ScanFindsPrices | market_sim/simulation/engine/simulation_engine.py:117-121 | a successful price scan took every snapshot, and it finds the current prices of those snapshots |
| Simulation.PricesStep | market_sim/simulation/engine/simulation_engine.py:120-121 | one more snapshot adds its mid price when it is two-sided and otherwise changes nothing |
| Simulation.PricesAreMids | market_sim/simulation/engine/simulation_engine.py:117-121 | with distinct symbols, a price is known exactly for the two-sided snapshots, and it is the mid of the best bid and ask |
| Simulation.PricesOnlyOfSnapshots | market_sim/simulation/engine/simulation_engine.py:117-121 | only the symbols of the snapshots get a price |
| Simulation.MarketMetricsNext | market_sim/simulation/engine/simulation_engine.py:132-147 | one more snapshot measured: its metric raises for the whole loop, or extends the metrics by the metric of a two-sided snapshot |
| Simulation.MetricOf | market_sim/simulation/engine/simulation_engine.py:138-147 | a two-sided snapshot gives its spread, the best ask less the best bid, and the spread as a percentage of the bid; a one-sided snapshot gives none; an unreadable price or a zero bid raises |
| Simulation.MetricMeasures | market_sim/simulation/engine/simulation_engine.py:134-147 | a snapshot has a metric exactly when two-sided, and it is the one the source computes |
| Simulation.MetricsMeasureSpread | market_sim/simulation/engine/simulation_engine.py:132-147 | one metric per two-sided snapshot, in order, stamped with the time, with the best prices, the spread, the spread as a percentage of the bid and the summed volume of each side |
| Simulation.TwoSidedOnes | market_sim/simulation/engine/simulation_engine.py:134 | only two-sided snapshots are kept |
| Simulation.Heard | market_sim/simulation/engine/simulation_engine.py:92-95 | hearing trades keeps the agent and its settings and keeps it well formed |
| Simulation.HeardOneMore | market_sim/strategies/hft/market_maker.py:159-165 | hearing one more trade is what the trade handler does with it |
| Simulation.HeardThen | market_sim/simulation/engine/simulation_engine.py:86-88 | hearing some trades and then one more is hearing them all |
| Simulation.HeardBy | market_sim/simulation/engine/simulation_engine.py:94-95 | every agent hears the trades, and no agent is added or lost |
| Simulation.HeardByThen | market_sim/simulation/engine/simulation_engine.py:86-88 | every agent hearing some trades and then one more is every agent hearing them all |
| Simulation.Swept | market_sim/simulation/engine/simulation_engine.py:160-161 | the time update keeps the agent and its settings and keeps it well formed |
| Simulation.SweptBy | market_sim/simulation/engine/simulation_engine.py:160-161 | every agent gets the time update, and no agent is added or lost |
| Simulation.TellAll | market_sim/simulation/engine/simulation_engine.py:111-112 | telling the agents in turn leaves one agent per agent |
| Simulation.TellAllDone | market_sim/simulation/engine/simulation_engine.py:111-112 | telling the agents in turn succeeds exactly when each takes it without raising |
| Simulation.TellAllIsEach | market_sim/simulation/engine/simulation_engine.py:111-112 | once the telling succeeds, each agent is what being told alone makes it |
| Simulation.TellAllStops | market_sim/simulation/engine/simulation_engine.py:111-112 | once one agent raises, those after it are left as they were |
| Simulation.TellAllNext | market_sim/simulation/engine/simulation_engine.py:111-112 | after the first agents took it, the next one raises, which stops the telling with the rest untouched, or takes it too |
| Simulation.Oks | market_sim/simulation/engine/simulation_engine.py:99-100 | the items, once all there, in place |
| Simulation.FoldAll | market_sim/simulation/engine/simulation_engine.py:99-112 | one agent per agent; a telling that completes has reached every snapshot |
| Simulation.FoldAllStep | market_sim/simulation/engine/simulation_engine.py:99-112 | one more snapshot: it raises when it cannot be taken, and otherwise every agent is told it in turn |
| Simulation.FoldAllStops | market_sim/simulation/engine/simulation_engine.py:99-112 | after an exception the later snapshots change nothing |
| Simulation.FoldAllNext | market_sim/simulation/engine/simulation_engine.py:99-112 | the loop's step: a snapshot that cannot be taken raises; otherwise every agent is told it, and an agent that raises stops the update |
| Simulation.FoldAllReached | market_sim/simulation/engine/simulation_engine.py:99-100 | the snapshots reached were all taken |
| Simulation.FoldAllDone | market_sim/simulation/engine/simulation_engine.py:99-112 | snapshot by snapshot telling succeeds exactly when every snapshot is taken and each agent, told them all alone, does not raise, and then each agent is where that leaves it |
| Simulation.TellBook | market_sim/simulation/engine/simulation_engine.py:111-112 | an agent told of a snapshot is the same agent, well formed, with the state and the exception the market maker's handler gives |
| Simulation.BookReactionIsStep | market_sim/simulation/engine/simulation_engine.py:111-112 | the engine's call of an agent is the step the run is defined with, and it keeps every agent well formed |
| Simulation.Taken | market_sim/simulation/engine/simulation_engine.py:99-100 | one taken snapshot per exchange |
| Simulation.TakenSnapshots | market_sim/simulation/engine/simulation_engine.py:99-100 | every snapshot is taken exactly when `Snapshots` succeeds, and then they are its snapshots |
| Simulation.ProducesAll | market_sim/simulation/engine/simulation_engine.py:99-100 | when every symbol's snapshot can be taken, the snapshots are taken |
| Simulation.UpdateIsSeen | market_sim/simulation/engine/simulation_engine.py:97-112 | updating the books succeeds exactly when every snapshot is taken and each agent, told them all alone, does not raise; then each agent is where that leaves it |
| Runs.ExtendsTransitive | market_sim/simulation/engine/simulation_engine.py:48-53 | following on from a state that follows on from another follows on from that other |
| Runs.SnapshotMap | market_sim/simulation/engine/simulation_engine.py:99-133 | exactly the exchanges give snapshots |
| Runs.OrderPlaced | market_sim/simulation/engine/simulation_engine.py:76-90 | handing an order on only appends to the trades, keeps the time, exchanges, queue, metrics and the number of agents |
| Runs.EventHandled | market_sim/simulation/engine/simulation_engine.py:173-202 | handling an event only appends to the trades, keeps the time, exchanges, queue, metrics and the number of agents |
| Runs.Drained | market_sim/simulation/engine/simulation_engine.py:155-157 | draining the queue keeps the time, exchanges, metrics and the number of agents, and only appends to the trades |
| Runs.DrainedStep | market_sim/simulation/engine/simulation_engine.py:155-157 | with nothing due the draining stops; otherwise the first of the earliest events is popped and handled, and the draining continues unless it raised |
| Runs.BooksTold | market_sim/simulation/engine/simulation_engine.py:97-112 | updating the books only appends snapshot records and changes the agents, keeping their number |
| Runs.BooksToldIs | market_sim/simulation/engine/simulation_engine.py:97-112 | the book update records exactly the snapshots its telling reached and raises what the telling raised |
| Runs.Summaries | market_sim/simulation/engine/simulation_engine.py:124-129 | one summary per agent |
| Runs.Collected | market_sim/simulation/engine/simulation_engine.py:114-147 | collecting metrics only appends agent and market metrics and changes nothing else |
| Runs.Tick | market_sim/simulation/engine/simulation_engine.py:153-168 | one step keeps every exchange listed and the number of agents, only appends to what is recorded, and a step that completes advances the clock by the time step |
| Runs.Stepped | market_sim/simulation/engine/simulation_engine.py:160-168 | the time updates, book update, metrics and clock advance keep the queue and exchanges and advance the clock by the time step |
| Runs.DrainedLeavesPending | market_sim/simulation/engine/simulation_engine.py:155-157 | draining without an exception leaves exactly the events pending after the time |
| Runs.TickFacts | market_sim/simulation/engine/simulation_engine.py:153-168 | a completed step leaves the events pending after its time and records one snapshot per exchange and one summary per agent |
| Runs.SteppedFacts | market_sim/simulation/engine/simulation_engine.py:160-168 | the rest of a completed step records one snapshot per exchange and one summary per agent |
| Runs.BooksToldRecordsAll | market_sim/simulation/engine/simulation_engine.py:99-108 | a completed book update records one snapshot per exchange |
| Runs.IterateClock | market_sim/simulation/engine/simulation_engine.py:153-168 | a finished loop has moved the clock past the end in whole steps, the last taken no later than the end; a loop starting past the end does nothing |
| Runs.IteratePasses | market_sim/simulation/engine/simulation_engine.py:153 | a finished loop has its clock past the end |
| Runs.IterateKeeps | market_sim/simulation/engine/simulation_engine.py:153-168 | the loop keeps what every step keeps |
| Runs.IterateCount | market_sim/simulation/engine/simulation_engine.py:153-168 | a finished loop adds to a count what every step adds, once per step |
| Runs.IterateQueue | market_sim/simulation/engine/simulation_engine.py:153-168 | a finished loop leaves the events pending after the time of its last step |
| Runs.IterateFacts | market_sim/simulation/engine/simulation_engine.py:149-171 | a finished run by such a step has moved the clock past the end in whole steps, leaves the events pending after its last step, records one snapshot per exchange and one summary per agent at every step, and only appends to trades and metrics |
| Runs.IteratePending | market_sim/simulation/engine/simulation_engine.py:153-157 | a finished run leaves the events pending after its last step |
| Runs.PendingComposes | market_sim/simulation/engine/simulation_engine.py:155 | what stays pending after one time and then a later one is what is pending after the later one |
| Runs.TickerStepsLike | market_sim/simulation/engine/simulation_engine.py:153-168 | the engine's step advances the clock by the time step, keeps the reachable states, drains the queue and records per exchange and per agent |
| Runs.TickerKeeps | market_sim/simulation/engine/simulation_engine.py:153-168 | the engine's step keeps the states the run can reach |
| Runs.TickerCounts | market_sim/simulation/engine/simulation_engine.py:153-168 | the engine's step records one snapshot per exchange and one summary per agent and leaves the events pending after its time |
| Runs.MakersReactIsStep | market_sim/simulation/engine/simulation_engine.py:111-112 | the market makers' book handler is a step that keeps every agent well formed |
| Runs.RunStep | market_sim/simulation/engine/simulation_engine.py:153-168 | the run stops once past the end, and otherwise steps once and carries on unless the step raised |
| Runs.RunFacts | market_sim/simulation/engine/simulation_engine.py:149-171 | the run finishes past the end after whole steps, the last taken no later than the end, with one snapshot per exchange and one summary per agent per step, only appending to trades and metrics |
| Runs.RunFrom | market_sim/simulation/engine/simulation_engine.py:149-171 | the run steps while the simulated time has not passed the end, and the first exception stops it |
| Runs.Initial | market_sim/simulation/engine/simulation_engine.py:30-53 | a new simulation at the start time, with no exchange, agent, event or trade |
| Runs.ExchangeAdded | market_sim/simulation/engine/simulation_engine.py:59-61 | a fresh exchange with empty books for the symbol, replacing any old one in its place; every other exchange and everything else unchanged |
| Runs.ExchangeAddedIs | market_sim/simulation/engine/simulation_engine.py:59-61 | the state with the symbol listed once and its books fresh is the state after adding the exchange |
| Runs.ExchangeAddedListed | market_sim/simulation/engine/simulation_engine.py:59-61 | adding an exchange keeps every symbol listed once with its exchange |
| Runs.ReplacedDistinct | market_sim/simulation/engine/simulation_engine.py:65 | replacing an agent by one with the same id keeps the ids distinct |
| Runs.SameIdsDistinct | market_sim/simulation/engine/simulation_engine.py:94-161 | agents with the same ids in place keep the ids distinct |
| Runs.TellAllKeepsGood | market_sim/simulation/engine/simulation_engine.py:111-112 | telling the agents of a snapshot keeps them well formed and the same agents, raised or not |
| Runs.Enrolled | market_sim/simulation/engine/simulation_engine.py:63-65 | an agent under a known id takes that agent's place; a new id comes last |
| Runs.EnrolledDistinct | market_sim/simulation/engine/simulation_engine.py:63-65 | adding an agent keeps the ids distinct, the agent is there, the others stay, and the ids are the old ones plus its own |
| Runs.StrategyAdded | market_sim/simulation/engine/simulation_engine.py:63-65 | adding an agent changes nothing but the agents |
| Runs.Scheduled | market_sim/simulation/engine/simulation_engine.py:71-74 | a scheduled event joins the queue and nothing else changes |
| Runs.ScheduledPending | market_sim/simulation/engine/simulation_engine.py:71-74 | an event scheduled after a time is pending after it, one at or before it is not |
| Runs.FinalSummaries | market_sim/simulation/engine/simulation_engine.py:211-215 | the final state has one summary per agent with no holdings and a total value equal to its cash |
| SimulationEngine.StrategyOf | market_sim/simulation/engine/simulation_engine.py:41-65 | the strategy held for a market maker carries its agent id, settings, symbols and state |
| SimulationEngine.StrategyOfGood | market_sim/simulation/engine/simulation_engine.py:63-65 | a well-formed market maker gives a well-formed strategy |
| SimulationEngine.OnOrderBookUpdates | market_sim/simulation/engine/simulation_engine.py:111-112 | the agents told of one snapshot in turn are `TellAll` of them, kept well formed under their ids |
| SimulationEngine.OnOrderBooks | market_sim/simulation/engine/simulation_engine.py:99-112 | the book update loop is `FoldAll` over the taken snapshots, recording exactly the snapshots it reached |
| SimulationEngine.HearTrade | market_sim/simulation/engine/simulation_engine.py:92-95 | every agent told of one trade, in order, is `HeardBy` of that trade, kept well formed under its id |
| SimulationEngine.SweepAll | market_sim/simulation/engine/simulation_engine.py:160-161 | every agent told the time, in order, is `SweptBy` at that time, kept well formed under its id |
| SimulationEngine.PricesOf | market_sim/simulation/engine/simulation_engine.py:117-121 | the loop over the exchanges finds `PriceScan` of their snapshots |
| SimulationEngine.SummariesOf | market_sim/simulation/engine/simulation_engine.py:124-129 | the loop over the agents gives `Summaries` |
| SimulationEngine.MetricsOf | market_sim/simulation/engine/simulation_engine.py:132-147 | the loop over the exchanges gives `MarketMetrics` of their snapshots |
| SimulationEngine.MetricsCollected | market_sim/simulation/engine/simulation_engine.py:114-147 | the metrics and the exception of one collection are `Collected` |
| SimulationEngine.MarketSimulation.constructor | market_sim/simulation/engine/simulation_engine.py:30-53 | a valid new simulation in state `Initial`, keeping the start and end times and the time step |
| SimulationEngine.MarketSimulation.AddExchange | market_sim/simulation/engine/simulation_engine.py:59-61 | the new state is `ExchangeAdded` of the old |
| SimulationEngine.MarketSimulation.AddAgent | market_sim/simulation/engine/simulation_engine.py:63-65 | the new state is `StrategyAdded` of the old with the market maker's strategy |
| SimulationEngine.MarketSimulation.ScheduleEvent | market_sim/simulation/engine/simulation_engine.py:71-74 | the new state is `Scheduled` of the old with the event |
| SimulationEngine.MarketSimulation.NotifyAgentsOfTrade | market_sim/simulation/engine/simulation_engine.py:92-95 | only the agents change, each having heard the trade |
| SimulationEngine.MarketSimulation.ProcessOrder | market_sim/simulation/engine/simulation_engine.py:76-90 | the new state and the trades or exception are `OrderPlaced` |
| SimulationEngine.MarketSimulation.RecordTrades | market_sim/simulation/engine/simulation_engine.py:86-88 | the trades appended in order and every agent having heard them in order |
| SimulationEngine.MarketSimulation.ProcessEvent | market_sim/simulation/engine/simulation_engine.py:173-202 | the new state and the exception are `EventHandled` |
| SimulationEngine.MarketSimulation.ProcessDueEvents | market_sim/simulation/engine/simulation_engine.py:155-157 | the new state and the exception are `Drained` at the current time |
| SimulationEngine.MarketSimulation.TimeUpdates | market_sim/simulation/engine/simulation_engine.py:160-161 | only the agents change, each swept at the current time |
| SimulationEngine.MarketSimulation.UpdateOrderBooks | market_sim/simulation/engine/simulation_engine.py:97-112 | the new state and the exception are `BooksTold` |
| SimulationEngine.MarketSimulation.CollectMetrics | market_sim/simulation/engine/simulation_engine.py:114-147 | the new state and the exception are `Collected` |
| SimulationEngine.MarketSimulation.Step | market_sim/simulation/engine/simulation_engine.py:153-168 | the new state and the exception are `Tick` with the class's time step |
| SimulationEngine.MarketSimulation.RunWith | market_sim/simulation/engine/simulation_engine.py:149-171 | the new state is `RunFrom` the old; the run fails exactly when it raised, and otherwise returns the results of the final state |
| SimulationEngine.MarketSimulation.Run | market_sim/simulation/engine/simulation_engine.py:149-171 | the run with the market makers' book handler: the new state is `RunFrom` the old, failing exactly when it raised, otherwise the results |
| SimulationEngine.MarketSimulation.SimulationResults | market_sim/simulation/engine/simulation_engine.py:204-217 | the start and end times, the trades and metrics, and one summary per agent showing its cash alone |
| ConsensusNode.ValueOf | blockchain/consensus/consensus_node.py:21 | a present value is read as itself; a missing one reads as 0, which is not reasonable |
| ConsensusNode.CountAccepts | blockchain/consensus/consensus_node.py:42 | the number of accepting votes is at most the number of votes |
| ConsensusNode.Decide | blockchain/consensus/consensus_node.py:39-45 | no decision exactly below the quorum of 2n//3 + 1 votes; otherwise accept exactly when accepting votes strictly outnumber rejecting ones |
| ConsensusNode.Consensus | blockchain/consensus/consensus_node.py:33-45 | no decision for a round without votes, otherwise the decision over that round's votes |
| ConsensusNode.Node.constructor | blockchain/consensus/consensus_node.py:6-12 | an honest node with its id and the node count, having received nothing and decided nothing |
| ConsensusNode.Node.CreateProposal | blockchain/consensus/consensus_node.py:14-16 | a proposal by this node of the trade for the round |
| ConsensusNode.Node.VoteOnProposal | blockchain/consensus/consensus_node.py:18-24 | this node's vote for the proposal's round, accepting exactly when the value is present and strictly between 0 and 1,000,000 |
| ConsensusNode.Node.ReceiveVote | blockchain/consensus/consensus_node.py:26-31 | the vote is appended to its round's votes, starting them when there were none; nothing else changes |
| ConsensusNode.Node.CheckConsensus | blockchain/consensus/consensus_node.py:33-45 | the node's decision is `Consensus` of the votes it received |
| ConsensusNode.TieRejects | blockchain/consensus/consensus_node.py:42-45 | a split vote never accepts |
| ConsensusNode.QuorumReachable | blockchain/consensus/consensus_node.py:39 | with every one of n >= 1 nodes voting the quorum is met |
| ConsensusNode.CountUnanimous | blockchain/consensus/consensus_node.py:42 | agreeing votes count as all accepting or none |
| ConsensusNode.UnanimousDecision | blockchain/consensus/consensus_node.py:39-45 | when all n >= 1 nodes vote the same way the decision is that vote |
| Broadcast.States | blockchain/consensus/byzantine_broadcast.py:22-35 | the node states, one per node, in order |
| Broadcast.Ids | blockchain/consensus/byzantine_broadcast.py:29 | the node ids, one per node, in order |
| Broadcast.Honesty | blockchain/consensus/byzantine_broadcast.py:28 | the honesty flags, one per node state |
| Broadcast.Ballots | blockchain/consensus/byzantine_broadcast.py:26-30 | at most one vote per node, each for the proposal's round and accepting exactly an acceptable trade |
| Broadcast.FullBallots | blockchain/consensus/byzantine_broadcast.py:27-30 | when every node is honest every node casts a vote |
| Broadcast.PyIndex | blockchain/consensus/byzantine_broadcast.py:18 | a Python list index: a non-negative index as itself, a negative one counted from the end |
| Broadcast.Appended | blockchain/consensus/byzantine_broadcast.py:33-35 | receiving no vote changes nothing; receiving votes appends them to the round's list, starting it if missing, and leaves the other rounds alone |
| Broadcast.AppendedStep | blockchain/consensus/byzantine_broadcast.py:34-35 | receiving one more vote extends its round's list by it |
| Broadcast.AfterRound | blockchain/consensus/byzantine_broadcast.py:21-35 | after a round every node has stored the proposal and received every vote |
| Broadcast.RoundStep | blockchain/consensus/byzantine_broadcast.py:21-35 | a round keeps the honesty flags, stores the proposal under its round at every node, keeps the other rounds' proposals and adds at most its own round to node 0's votes |
| Broadcast.HonestRoundDecides | blockchain/consensus/byzantine_broadcast.py:21-40 | with n >= 1 honest nodes and no earlier votes for the round, node 0 decides exactly whether the trade is acceptable |
| Broadcast.Lookup | blockchain/consensus/byzantine_broadcast.py:44-46 | `get` finds the stored result exactly when there is one |
| Broadcast.TalliedStep | blockchain/consensus/byzantine_broadcast.py:52-56 | recording one more round's result keeps one result per round |
| Broadcast.BroadcastedStep | blockchain/consensus/byzantine_broadcast.py:52-54 | one more round leaves its proposal at every node |
| Broadcast.ProgressStep | blockchain/consensus/byzantine_broadcast.py:52-56 | one more simulated round keeps the results, the proposals and the honest-node decisions |
| Broadcast.ByzantineBroadcast.constructor | blockchain/consensus/byzantine_broadcast.py:6-10 | the nodes, their number, round 0 and no results |
| Broadcast.ByzantineBroadcast.ProposeTrade | blockchain/consensus/byzantine_broadcast.py:12-42 | the round number moves on; an index out of range raises IndexError and changes nothing else; otherwise every node stores the proposer's proposal and receives the honest votes, and node 0's decision, if any, is recorded |
| Broadcast.ByzantineBroadcast.RecordConsensus | blockchain/consensus/byzantine_broadcast.py:38-40 | node 0's decision is recorded only when it has one |
| Broadcast.ByzantineBroadcast.ExchangeMessages | blockchain/consensus/byzantine_broadcast.py:21-35 | the honest votes are cast and the node states are `AfterRound` |
| Broadcast.ByzantineBroadcast.StoreProposal | blockchain/consensus/byzantine_broadcast.py:22-23 | every node stores the proposal under its round |
| Broadcast.ByzantineBroadcast.CollectVotes | blockchain/consensus/byzantine_broadcast.py:26-30 | the votes of the honest nodes, in node order |
| Broadcast.ByzantineBroadcast.DeliverVotes | blockchain/consensus/byzantine_broadcast.py:33-35 | every node receives every vote, in order |
| Broadcast.ByzantineBroadcast.SimulateConsensusRounds | blockchain/consensus/byzantine_broadcast.py:48-58 | without nodes a trade raises ZeroDivisionError and nothing changes; otherwise one round per trade, one result per new round equal to the recorded one, every proposal stored at every node, and with honest nodes each round accepts exactly an acceptable trade |
| Broadcast.ByzantineBroadcast.SimulateAll | blockchain/consensus/byzantine_broadcast.py:48-58 | one round per trade, one result per new round equal to the recorded one, every proposal stored at every node, and with honest nodes each round accepts exactly an acceptable trade |
| Broadcast.ByzantineBroadcast.SimulateRound | blockchain/consensus/byzantine_broadcast.py:52-56 | one round keeps the simulation's progress |
| Broadcast.ByzantineBroadcast.GetConsensusResult | blockchain/consensus/byzantine_broadcast.py:44-46 | the recorded result of the round, or none |
| ConsensusBook.InsertPos | market_sim/market/exchange/consensus_order_book.py:49-52 | the orders before the insertion point all stay ahead of the new order, and the one at it does not |
| ConsensusBook.Insert | market_sim/market/exchange/consensus_order_book.py:47-52 | adding an order lengthens its list by one |
| ConsensusBook.InsertAt | market_sim/market/exchange/consensus_order_book.py:47-52 | the list after the insertion holds the earlier orders, then the new order, then the later ones |
| ConsensusBook.BehindFrom | market_sim/market/exchange/consensus_order_book.py:49-52 | in a sorted list every order from the insertion point on is strictly behind the new one |
| ConsensusBook.InsertSorted | market_sim/market/exchange/consensus_order_book.py:49-52 | inserting keeps a list sorted: buys by descending, sells by ascending price |
| ConsensusBook.InsertContents | market_sim/market/exchange/consensus_order_book.py:47-52 | inserting adds exactly the new order and keeps the others in their order |
| ConsensusBook.InsertIsStableSort | market_sim/market/exchange/consensus_order_book.py:47-52 | appending and sorting stably keeps the list sorted, adds exactly the order, keeps the others in order and puts the order after all of as good a price and before all of a worse one |
| ConsensusBook.Candidate | market_sim/market/exchange/consensus_order_book.py:61-79 | the potential trade is at the sell price, which the buy price reaches, for the smaller quantity, numbered one past the executed trades and not validated |
| ConsensusBook.Reduced | market_sim/market/exchange/consensus_order_book.py:114-123 | a head lowered to 0 leaves the list; otherwise it stays, lowered by the quantity |
| ConsensusBook.Executed | market_sim/market/exchange/consensus_order_book.py:111-128 | executing a trade lowers both heads by its quantity, drops a head that reaches 0, and records the trade |
| ConsensusBook.ReducedSorted | market_sim/market/exchange/consensus_order_book.py:114-123 | lowering a head and dropping it at 0 keeps a list sorted |
| ConsensusBook.MatchOutcomeFacts | market_sim/market/exchange/consensus_order_book.py:56-128 | one attempt records at most one trade and keeps the earlier ones and both lists sorted; a trade is at the best sell price for the smaller head quantity, the heads having crossed, validated exactly when it went to the vote; no trade leaves the lists as they were |
| ConsensusBook.MatchOutcome | market_sim/market/exchange/consensus_order_book.py:56-87 | no match without crossing heads; a small trade executes at once; a large one executes, validated, exactly when the vote accepts it, and otherwise nothing changes |
| ConsensusBook.TradeEmptiesAHead | market_sim/market/exchange/consensus_order_book.py:114-123 | with positive head quantities a trade uses up at least one head |
| ConsensusBook.LargeTradeVerdict | market_sim/market/exchange/consensus_order_book.py:82-96 | with honest nodes a trade at or above a positive threshold is validated exactly when its value is below 1,000,000 |
| ConsensusBook.Levels | market_sim/market/exchange/consensus_order_book.py:134-135 | each order as its (price, quantity) pair, in order |
| ConsensusBook.ConsensusOrderBook.NewNodes | market_sim/market/exchange/consensus_order_book.py:37 | four distinct fresh honest nodes, node 0 counting four nodes and holding no votes |
| ConsensusBook.ConsensusOrderBook.constructor | market_sim/market/exchange/consensus_order_book.py:32-43 | a valid book with its symbol and threshold, empty lists and honest nodes |
| ConsensusBook.ConsensusOrderBook.AddOrder | market_sim/market/exchange/consensus_order_book.py:45-54 | the order is inserted on its side and one match attempt follows; a vote is asked only for a crossing trade at or above the threshold, and with honest nodes it trades exactly when the value is acceptable |
| ConsensusBook.ConsensusOrderBook.TryMatchOrders | market_sim/market/exchange/consensus_order_book.py:56-87 | one match attempt as `MatchOutcome` says, a vote asked only for a crossing trade at or above the threshold, and with honest nodes a trade exactly when the value is acceptable |
| ConsensusBook.ConsensusOrderBook.ConsensusValidateTrade | market_sim/market/exchange/consensus_order_book.py:89-109 | one round of the vote; the trade is executed, marked validated, exactly when the round accepts, and with honest nodes exactly when its value is acceptable |
| ConsensusBook.ConsensusOrderBook.AskVote | market_sim/market/exchange/consensus_order_book.py:101-102 | one round proposed by node 0, whose result is read back; with honest nodes it is whether the data is acceptable |
| ConsensusBook.ConsensusOrderBook.ExecuteTrade | market_sim/market/exchange/consensus_order_book.py:111-128 | the lists are `Executed` with the trade |
| ConsensusBook.ConsensusOrderBook.GetOrderBookState | market_sim/market/exchange/consensus_order_book.py:130-137 | the symbol, the first five bids and asks as (price, quantity) and the last ten trades |
| ConsensusBook.Recorded | market_sim/market/exchange/consensus_order_book.py:101-102 | a round leaves node 0 no votes beyond it, and with honest nodes and no later votes before it decides exactly whether the trade is acceptable |
| Trends.MaxOf | stock_trend_analysis.py:145-147 | the maximum is one of the values and no value exceeds it |
| Trends.MinOf | stock_trend_analysis.py:146-148 | the minimum is one of the values and no value is below it |
| Trends.Bump | stock_trend_analysis.py:59-129 | the histogram entry of the length goes up by one, starting from 0, and no other entry changes |
| Trends.LogOfRuns | stock_trend_analysis.py:32-99 | for each length the histogram counts the recorded streaks of that length, exactly for the lengths that occur, and the change lists and long streaks list the streaks in order |
| Trends.GetConsecutiveTrends | stock_trend_analysis.py:12-154 | an empty frame raises IndexError at the first close and only it fails; otherwise every recorded up or down streak is a maximal streak of the closes (the moves just before and after it go the other way), the streaks of a direction are in date order and together cover every move of that direction, and the summary's maxima, histograms, long streaks, extremes and means are those of the recorded streaks, 0 without any |
| Trends.Conclude | stock_trend_analysis.py:140-154 | the dictionary built from two completed directions describes their streaks |
| Trends.RecordRun | stock_trend_analysis.py:57-105 | the streak in progress, once recorded, is a streak of the closes; recording it adds its length to the total, may raise the maximum and logs it |
| Trends.Move | stock_trend_analysis.py:56-114 | a move ends the opposite streak, recording it, and starts from the previous close or extends the streak of its own direction |
| Trends.ExtendStep | stock_trend_analysis.py:77-114 | a move starts, from the previous close, or extends its direction's streak, accumulating the change and recomputing the percent change against the start price |
| Trends.BreakStep | stock_trend_analysis.py:57-105 | a move ends the opposite streak, if one is in progress |
| Trends.EndRun | stock_trend_analysis.py:57-105 | a move records the opposite streak in progress as a maximal streak that ends before the move, after the streaks recorded before it |
| Trends.HoldStep | stock_trend_analysis.py:52-86 | an unchanged close leaves both directions as they are |
| Trends.FinishStep | stock_trend_analysis.py:116-138 | recording the streak still in progress after the last close completes the runs |
| Trends.Step | stock_trend_analysis.py:52-114 | one day of the loop, an up move, a down move or no change, keeps what the loop knows about both directions |
| Trends.Finish | stock_trend_analysis.py:116-154 | recording the final streak and building the dictionary after the last close describes the closes |
| Trends.NextMoveAt | stock_trend_analysis.py:52-114 | the first move after a date is the first non-zero change after it |
| Trends.MaxLengthIsMaximum | stock_trend_analysis.py:84-114 | the maximum streak is the length of a recorded streak and bounds them all |
| Trends.LongOfExactly | stock_trend_analysis.py:63-99 | the long streaks are exactly the recorded streaks longer than four days |
| StreakUpdate.SaveIfLong | update_database.py:124-140 | a streak is saved exactly when it is longer than four days |
| StreakUpdate.UpdateStreaks | update_database.py:79-140 | no new data saves nothing; a missing stored close raises before any save; otherwise the saves are those of the day-by-day replay, with the final streak saved when long, or those made before a division by a zero close stopped it |
| StreakUpdate.StoppedStays | update_database.py:120-135 | once a division by zero has stopped the update, later days change nothing |
| StreakUpdate.Step | update_database.py:111-136 | a day in the streak's direction extends it, its percent change measured against the stored close; any other day saves a long streak and starts a one-day streak; a zero divisor stops the update |
| StreakUpdate.Replay | update_database.py:111-136 | the state after the first n days is the steps applied in date order from the ongoing streak |
| StreakUpdate.SavedAreLong | update_database.py:124-125 | every saved streak is longer than four days |
| StreakUpdate.BreakStartsNewStreak | update_database.py:122-136 | a day that breaks the streak starts a one-day streak on that day, up exactly when the change is positive, with the day's change, and saves the ended streak exactly when it is longer than four days |
| StreakUpdate.AllDaysExtend | update_database.py:111-121 | when every day continues the ongoing streak, its length grows by the number of days, it ends on the last day, its change grows by the change from the stored close, its percent change is measured from the stored close, and nothing is saved |
| StreakDistribution.CountFrequencies | test_analyze_streaks_entropy.py:36-38 | every length of the input is listed once in the order of first occurrence, with its number of occurrences, and these add up to the input's length |
| StreakDistribution.CalculateStreakDistribution | test_analyze_streaks_entropy.py:33-44 | the frequencies count each length; each probability is its frequency over the number of streaks; they sum to 1 for a non-empty input, and an empty input gives two empty dictionaries |
| StreakDistribution.TallyNext | test_analyze_streaks_entropy.py:37-38 | counting one more length lists a new one with frequency 1 or counts a known one once more |
| StreakDistribution.OrderNext | test_analyze_streaks_entropy.py:37-38 | a length seen the first time joins the keys at the back, keeping them in the order of first occurrence |
| StreakDistribution.FirstIndexExtend | test_analyze_streaks_entropy.py:37-38 | one more element keeps the first occurrences of the earlier elements and is the first occurrence of a new one |
| StreakDistribution.CountExtend | test_analyze_streaks_entropy.py:37-38 | one more element adds one to its own count only |
| StreakDistribution.CountAbsent | test_analyze_streaks_entropy.py:36-38 | a length that does not occur has count 0 |
| StreakDistribution.SumCountsAppend | test_analyze_streaks_entropy.py:41 | listing one more key adds its count to the sum |
| StreakDistribution.SumCountsUpdate | test_analyze_streaks_entropy.py:38-41 | changing one listed key's count changes the sum by the difference |
| StreakDistribution.SumOfShares | test_analyze_streaks_entropy.py:41-42 | the shares of a total sum to the share of their sum |
| Stability.IsStableOrImportant | test_stable_companies.py:55-68 | absent metrics never pass; a market cap at or above the minimum always passes; otherwise a company passes exactly when its volatility is at most the maximum and its volume at least the minimum |
| Stability.ThresholdsInclusive | test_stable_companies.py:64-66 | metrics exactly on the thresholds pass, by either route |
| Stability.LooserThresholdsKeepPassing | test_stable_companies.py:64-68 | loosening the thresholds never fails a passing company |
| Tiers.Names | simple_pricing_info_portfolio.py:53-59 | the portfolio's companies in dictionary order |
| Tiers.CreateTiers | simple_pricing_info_portfolio.py:50-60 | Premium holds every company in order; Basic and Standard hold, in order, the companies whose cumulative weight through them is within the tier's threshold |
| Tiers.TierMembership | simple_pricing_info_portfolio.py:54-58 | with distinct names, a company is in a tier exactly when the cumulative weight through it is within the threshold |
| Tiers.Tier | simple_pricing_info_portfolio.py:53-58 | a tier lists, in portfolio order, the companies whose cumulative weight through them is within the threshold |
| Tiers.CumulativeWeightMonotone | simple_pricing_info_portfolio.py:54 | with non-negative weights the cumulative weight never decreases |
| Tiers.TierIsPrefix | simple_pricing_info_portfolio.py:53-58 | with non-negative weights a tier is a prefix of the companies, ending just before the first company that crosses the threshold |
| Tiers.TierGrowsWithThreshold | simple_pricing_info_portfolio.py:55-58 | a smaller threshold selects a subsequence of what a larger one selects |
| Tiers.TierKeepsOrder | simple_pricing_info_portfolio.py:53-58 | every tier keeps the portfolio's order |
| Wrappers.DecimalQuotient | market_sim/strategies/hft/market_maker.py:72 | a decimal division succeeds exactly for a non-zero divisor and gives the quotient; 0/0 is an invalid operation and any other division by zero raises ZeroDivisionError |
| Wrappers.PyTake | market_sim/market/exchange/matching_engine.py:169-172 | Python's `s[:d]`: a prefix, of length d when 0 <= d <= len |
| Wrappers.PyLast | market_sim/strategies/hft/market_maker.py:121-122 | Python's `s[-n:]`: the last n elements, or all of them |
| Wrappers.PyFrom | market_sim/strategies/hft/market_maker.py:54 | Python's `s[k:]`: a suffix, of len - k elements for k >= 0 and of -k elements, or all, for k < 0 |

## Left out

- Agents.Traded: on a BUY into a zero position by a trade without a price, the source first stores the
  missing price as the position's average entry price and then raises TypeError. The model raises the
  same TypeError but keeps the old average, because average prices are reals. A later SELL on that
  position raises TypeError in the source, while the model computes with the old average.
- Agents.Agent.UpdatePosition: follows `Agents.Traded`, so the same case of a trade without a price keeps
  the old average.
- Agents.Agent.OnOrderFill: updates the position through `Agents.Traded`, so the same case keeps the old
  average.
- Matching.MatchingEngine.CancelIn: when an id rests at more than one price of a side, the model removes
  it from any one of those levels, while the source removes it from the first price in the side's
  dictionary order. Ids are unique within a level but the book invariant does not make them unique
  across levels. Books built through `ProcessOrder`, which requires fresh ids, never hold an id twice.
- Broadcast.ByzantineBroadcast.constructor: requires the node objects to be pairwise distinct, so that
  each node has one index. The source accepts a list holding the same node twice.
- Aliasing of order objects: orders are values. An order shared between a book level and `agent.orders`
  is not one object, so a fill recorded in the book does not show in the agent's register.
- SimulationEngine.RunWith: the agents' reaction to a book snapshot is a function parameter (`react`,
  with its specification `steps`). `Run` instantiates it with the market makers' reaction. Extensible
  agent types are not modelled, because traits are not used.
- `RandomTrader` and any agent type other than the market maker are left out, because they are driven by
  random numbers.
- `add_asset`/`assets` are left out: the engine only stores them and never reads them.
- The heap behind the event queue: the model scans the queue for its earliest event. The source's heapq
  tie order among equal timestamps is unspecified there too.
- Logging and `print` calls are left out, including the rejection message of the consensus book.
- The wall clock (`utc_now`, `time.time()`) is left out. So are the numpy log/std body of
  `calculate_volatility` and UUID generation. They are readings of an `Oracle` parameter: the clock, a
  volatility estimate and fresh ids. The `< 2 samples` branch of the volatility is modelled.
- SimulationEngine.Run: requires `timeStep > 0`. With a non-positive time step the source's loop never
  ends.
- Runs.RunStep: requires `timeStep > 0` for the same reason.
- Simulation.MetricMeasures: the `float()` conversion of spread and spread percent is the identity on
  reals.
- Matching.MatchLevel: the loop over one price level keeps the surviving orders locally and writes the
  level back to the book once, after the loop. The source updates the shared level list as it goes. The
  resulting book is the same.
- MarketMaking.MarketMaker.Requote: its contract is stated step by step (cancel, place bid, place ask).
  `MarketMaking.RequotedSteps` connects it to the single function `Requoted`.
- `updated_at`, `last_updated` and trade timestamps are left out.
- Trends.GetConsecutiveTrends: requires every close to be non-zero. The percent change divides by a
  close, and numpy's `inf`/`nan` results are not reals.
- The consensus book's `T_k` trade id is carried as the number k.
- The fields of `message_types.py` beyond those the vote reads are left out.
- `stock_analysis.py` and the database reads and writes of `update_database.py` are left out, because
  they are SQL I/O. The stored close is a parameter and the saved streaks are returned. `_save_streak`
  and its next-day price lookup are not part of this model.
- The entropy computation, price maths and plotting of the analytics scripts are left out, because they
  are floating-point numerics and UI.
- Market-data downloads, the demo scripts, `distributed_exchange.py`, `market_making_scenario.py` and
  packaging are left out, because they are foreign calls, randomness and setup.

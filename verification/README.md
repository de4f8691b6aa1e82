# Verified model of the arbitrage simulation pipeline

This project models, in Dafny 4.11, the deterministic in-memory core of the crypto arbitrage scanner and simulator, and
proves what its steps keep, over every input, every stream of messages and every interleaving:

- **Books and fills.** `OrderBook.dfy` is the snapshot/delta state machine of a local order book; `SyncedBook.dfy`
  relates it to the exchange's own book under lost, duplicated and reordered messages; `Vwap.dfy` is the greedy depth
  walk, proved optimal, convex and bounded.
- **Paper trading.** `Balance.dfy`, `Rules.dfy`, `RateLimit.dfy` and `PaperTrading.dfy` are the balances, the order
  checks, the limiter and the two-leg engine; `TradeLaws.dfy` and `OrderLaws.dfy` say what one leg and one trade do,
  `TradeRuns.dfy` and `LimiterRuns.dfy` what any interleaving of trades and transfers keeps; `TradeExample.dfy` and
  `SettlementExample.dfy` hold concrete trades. A trade is two atomic steps, split at the wait between its legs.
- **Capital.** `Capital.dfy` is the snapshot and the two-index rebalancing plan; `CapitalLaws.dfy` says what the
  snapshot shows, `RebalanceLaws.dfy` what carrying the plan out does; `DirectionLaws.dfy` says what an answer about a
  direction's funds is worth to a trade.
- **Spreads and events.** `QuoteCache.dfy`, `Formulas.dfy`, `SpreadEngine.dfy` and `SpreadEvents.dfy` are the cache, the
  spread arithmetic, the slice of rows and the event detector; `EventRuns.dfy` proves that the online detector reports
  exactly the maximal runs of active ticks; `SpreadLaws.dfy` covers slices and cycles, with a boundary case in
  `SpreadExample.dfy`, `RowLaws.dfy` what a row says, and `SpreadOrder.dfy` the order of it all; `Backtest.dfy` replays
  stored ticks through all of them, and `BacktestLaws.dfy` says what it reports.
- **Bounded queues.** `QueueTrails.dfy` is the history of a first-in first-out queue that may evict; `DbWriter.dfy` is
  the batching database writer; `Feed.dfy` is the numbered WebSocket push, from the spread engine through the
  broadcaster to the browser's loss counter, with two concrete connections in `FeedExample.dfy`.

Each object whose methods change its fields is a class here, and each of its methods is proved against a specification
function of the old state. The lemmas are about those functions, so they hold of the classes; they say what each answer
means in terms of the inputs, not how it is computed. `Prelude.dfy` and `Dicts.dfy` (insertion-ordered dictionaries)
hold what several modules share. Prices and amounts are exact reals, time is an input, and `Times(a, b)` is the product
under a name.

## Where the code and its description differ

The model follows the code. Where a property does not hold in general, the exact condition under which it does is proved;
the instances named show that it can fail.

- `rebalance_signals` says it plans until every exchange is within the threshold. The plan does so if and only if the sum
  of the excesses and the sum of the deficits differ by at most the threshold amount (`ReachesThresholdIff`); with targets
  50/25/25 and balances 65/17/18 no transfer is planned at all (`PlanCanStopShort`). Nothing in the planner looks at locked
  funds: recording its transfers succeeds throughout if and only if each sender has free all that it is to send
  (`ExecutableIff`), and otherwise the refused ones move nothing (`NeverCrossesTarget`, `RecordingReaches`).
- `round_to_tick` and `round_to_step` promise to round down. `Decimal` division truncates toward zero, so they do if and
  only if the value is non-negative or already aligned (`NeverIncreasesIff`, with an instance in `RoundingCanIncrease`).
- `validate_order` promises not to raise. It raises if and only if a positive order meets a step or tick size that is not
  positive (`ValidationRaisesIff`, with an instance in `ValidationCanRaise`). A trade then fails before it changes anything
  (`BuyRaisedIff`), and never in its sell leg (`SalesNeverRaise`).
- `execute_arbitrage` is declared to return a trade's result. Settlement credits the proceeds and only then computes
  slippages and the net spread, which can raise: both legs have moved funds and no result comes back
  (`SettlementCanRaise`). For a priced buy it raises if and only if the sale executed at a price other
  than zero and, by then, the best ask is not positive or one of the two fees is negative (`SettlementRaisesIff`; for any
  two orders `AssessmentRaisesIff`). With non-negative fees and positive best asks no settlement of any run raises
  (`NoSettlementRaises`).
- `check_direction` calls itself a real-time check that the capital suffices for both legs. It is: after "available", with
  nothing in between, neither leg is refused for funds (`AvailableIsEnough`). It reserves nothing, so a transfer while the
  trade waits can still take the funds away (`TransferTakesTheFunds`).
- A buy leg reserves its quantity at the best ask but pays the walked notional. The reservation covers the payment if and
  only if the best level holds the whole quantity, or the book cannot fill it and costs no more than the reservation as a
  whole (`ReservationCoversIff`, with instances in `BuyCanOverdraw` and `PartialFillCanOverdraw`); the overdraft is bounded
  in every case (`OverdraftBound`).
- The limiter counts aligned seconds, so twice its maximum can pass within two milliseconds (`BurstAcrossBoundary`), which
  is also the most that any second lets through (`SlidingBound`).
- A trade's reported profit subtracts fees that no balance ever pays, and the cost of only the matched part of the buy. The
  exact relation to the balances is `PnlLedgerIdentity`. Its reported slippage is measured against the book at settlement,
  so it can be negative (`ReportedSlippageIff`).
- `update_taker_fee` refuses a negative fee, but a configured one is not checked. Computing a slice raises if and only if
  some quoted direction has a negative fee (`SliceRaisesIff`, with an instance in `WhenItRaises`).
- With a positive threshold a direction and its reverse are never open together (`NoOpenCycle`). At a threshold of zero,
  which the configuration accepts, they can be (`ZeroThresholdOpensCycle`), but only where nothing at all is gained or lost
  (`OpenCycleIsFlat`).
- The browser's counter is meant to show lost messages. Two things can make it wrong. Its updater reads the last-sequence
  reference when it runs, which React may put off to the next render, after the reference has moved: within a connection
  that opens with no update pending, the counter never shows more than was lost, and exactly that if and only if no gap's
  update was put off (`CounterRightIff`, `LossIsAccounted`, with instances in `DeferredUpdateMiscounts` and
  `DeferredDeliveryMiscounts`). And `build_message` uses up a number before the rows are computed: with no update put off,
  the counter gains exactly the evictions if and only if no number between the first and the last received message was used
  up by a raise (`LossIsEvictionsIff`, with an instance in `FailedBuildMiscounts`), which cannot happen with non-negative
  fees (`FairFeesLossIff`). A reconnect with an update still pending can also make it too high (`ReconnectOvercounts`); the
  exact account over any turns and connections is `CounterIs`.

## Model

| member | source | states |
|---|---|---|
| `OrderBooks.OrderBook.ApplySnapshot` | backend/app/orderbook/book.py:50-59 | replaces both sides by the snapshot's positive levels (what each price then holds is SnapshotSideAt), takes over its number and marks the book synced, whatever it was before |
| `OrderBooks.OrderBook.ApplyDelta` | backend/app/orderbook/book.py:61-82 | an unsynced or gapped book is not changed level by level (a gap only desyncs it and reports failure), an old number changes nothing and reports success, the next number applies both sides |
| `OrderBooks.DeltaVerdict` | backend/app/orderbook/book.py:67-82 | a delta is reported as good if and only if the book is synced after it, that is, if it was synced before and no number is skipped; only the next number changes levels or number |
| `OrderBooks.AppliedSideAt` | backend/app/orderbook/book.py:84-90 | after a delta every price holds what the last pair mentioning it said, none if that was zero, and prices not mentioned are untouched |
| `OrderBooks.SnapshotSideAt` | backend/app/orderbook/book.py:50-59 | after a snapshot a price is stored if and only if it is listed with a positive quantity, and holds the last positive one listed |
| `OrderBooks.DeltaKeepsPositiveIff` | backend/app/orderbook/book.py:84-90 | stored quantities stay positive if and only if no price's last pair is negative |
| `OrderBooks.AsksSortedView` | backend/app/orderbook/book.py:98-110 | the ask view has strictly rising prices, holds exactly the stored levels, and starts with the best ask |
| `OrderBooks.BidsSortedView` | backend/app/orderbook/book.py:92-106 | the bid view has strictly falling prices, holds exactly the stored levels, and starts with the best bid |
| `OrderBooks.OrderBook.Depth` | backend/app/orderbook/book.py:112-114 | the numbers of levels in the sorted bid and ask views |
| `SyncedBooks.SyncedMeansCorrect` | backend/app/orderbook/book.py:50-90 | for any stream of true snapshots and logged changes, with any loss, duplication and reordering, a synced book equals the exchange's own book at its number, price by price, with positive quantities only |
| `SyncedBooks.SyncedAfterSnapshot` | backend/app/orderbook/book.py:50-82 | since the last snapshot the book stays synced if and only if no later number ever jumped past the highest one seen so far |
| `SyncedBooks.SyncedIff` | backend/app/orderbook/book.py:50-82 | over any stream, the book is synced if and only if there was a snapshot and no number was skipped since the last one; so after a gap it stays desynced until the next snapshot |
| `SyncedBooks.VerdictIff` | backend/app/orderbook/book.py:67-82 | over any stream, the last update is reported as good if and only if there was a snapshot and no number was skipped since |
| `SyncedBooks.NeverSyncedWithoutSnapshot` | backend/app/orderbook/book.py:36-72 | until the first snapshot the book stays empty and unsynced, whatever updates arrive |
| `DepthWalk.ComputeVwap` | backend/app/orderbook/vwap.py:24-53 | the loop raises exactly on a non-positive target and otherwise returns the walk's fill, cost, average price and completeness |
| `DepthWalk.ResultMeaning` | backend/app/orderbook/vwap.py:33-53 | the fill is the lesser of target and depth, complete if and only if the depth reaches the target, priced if and only if there is depth, and price times fill is the notional of an explicit allocation |
| `DepthWalk.TakesAreTheWalk` | backend/app/orderbook/vwap.py:33-42 | the walk is a feasible allocation whose quantities sum to the fill and whose value is the reported cost |
| `DepthWalk.CheapestBuy` | backend/app/orderbook/vwap.py:33-53 | over asks sorted best-first, no feasible allocation of the same total costs less |
| `DepthWalk.RichestSell` | backend/app/orderbook/vwap.py:33-53 | over bids sorted best-first, no feasible allocation of the same total earns more |
| `DepthWalk.BuyPriceMonotone` | backend/app/orderbook/vwap.py:24-53 | a larger buy never has a lower average price |
| `DepthWalk.SellPriceMonotone` | backend/app/orderbook/vwap.py:24-53 | a larger sale never has a higher average price |
| `DepthWalk.LastTouchedExists` | backend/app/orderbook/vwap.py:33-42 | whenever there is depth, the walk has a last level from which it takes a positive quantity |
| `DepthWalk.BuySlippageBounds` | backend/app/orderbook/vwap.py:56-60 | the average lies between the best and the last touched ask, so slippage is never negative and is at most the worst level's |
| `DepthWalk.SellSlippageBounds` | backend/app/orderbook/vwap.py:63-67 | the same for bids |
| `DepthWalk.SlippageExact` | backend/app/orderbook/vwap.py:56-67 | slippage raises if and only if the reference is not positive; otherwise the reference scaled by it is the price |
| `TradingRules.RoundsToGreatestMultiple` | backend/app/paper_trading/rules.py:30-41 | a non-negative value rounds to the greatest multiple of the unit not above it |
| `TradingRules.NeverIncreasesIff` | backend/app/paper_trading/rules.py:37-41 | rounding never increases the value if and only if it is non-negative or already a multiple |
| `TradingRules.RoundingCanIncrease` | backend/app/paper_trading/rules.py:37-41 | a concrete negative value that rounding increases |
| `TradingRules.AlignedIff` | backend/app/paper_trading/rules.py:60-63 | a value equals its own rounding if and only if it is a multiple of the unit, for either sign |
| `TradingRules.ValidateOrder` | backend/app/paper_trading/rules.py:44-64 | collects the violations in the source's order, and raises where a non-positive unit makes the rounding raise |
| `TradingRules.ValidIff` | backend/app/paper_trading/rules.py:44-64 | for any rules, an order passes if and only if it is positive, reaches both minimums, and is aligned to positive step and tick sizes; the step violation appears if and only if the positive order is off the step |
| `TradingRules.ViolationsExact` | backend/app/paper_trading/rules.py:47-64 | the violations listed are exactly those that the order breaks, each once, in the order of the checks |
| `TradingRules.ValidationRaisesIff` | backend/app/paper_trading/rules.py:44-64 | validation raises if and only if a positive order meets a step or tick size that is not positive, and which error comes first |
| `TradingRules.ValidationCanRaise` | backend/app/paper_trading/rules.py:37-41 | a concrete order and rules, of a kind the configuration accepts, for which validation raises |
| `TradingRules.FillAligned` | backend/app/orderbook/vwap.py:36-42 | if the request and every level are multiples of the step, so is the fill |
| `TradeLaws.SaleStaysOnStep` | backend/app/paper_trading/engine.py:161-170 | after a buy on a book of whole steps, selling its fill is never rejected for step alignment, at any positive price |
| `Balances.BalanceManager.Reserve` | backend/app/paper_trading/balance.py:38-45 | locks the amount and succeeds if and only if it is available; otherwise no account changes |
| `Balances.BalanceManager.Release` | backend/app/paper_trading/balance.py:47-50 | unlocks the amount, never below zero, in this account alone |
| `Balances.BalanceManager.Settle` | backend/app/paper_trading/balance.py:52-59 | unlocks what was reserved, never below zero, and takes the actual amount from the total, in this account alone |
| `Balances.BalanceManager.Credit` | backend/app/paper_trading/balance.py:61-64 | adds to this account's total alone |
| `Balances.BalanceManager.Debit` | backend/app/paper_trading/balance.py:66-74 | takes the amount from this account's total if and only if it is available |
| `Balances.ReservationHolds` | backend/app/paper_trading/balance.py:38-45 | what is reserved cannot be reserved again: afterwards exactly the rest is covered; a refused reservation changes no account |
| `Balances.UnlockingStopsAtZero` | backend/app/paper_trading/balance.py:47-59 | releasing and settling unlock what is locked of the amount and no more, and only settling moves the total, by what was paid |
| `Balances.DebitUndoesCredit` | backend/app/paper_trading/balance.py:61-74 | debit and credit undo each other; a refused debit changes no account |
| `Balances.OthersStay` | backend/app/paper_trading/balance.py:32-74 | no operation changes any account but its own |
| `Balances.LookupsRemain` | backend/app/paper_trading/balance.py:32-33 | an account never looked up reads as empty, and every operation leaves an entry behind |
| `Balances.RecordManualTransfer` | backend/app/capital/monitor.py:218-232 | debits, then credits the other exchange only if the debit succeeded, and reports which |
| `RateLimiting.RateLimiter.Allow` | backend/app/paper_trading/engine.py:68-86 | one call of the fixed-window limiter, as a function of the old window and count |
| `RateLimiting.AlignedSecondExact` | backend/app/paper_trading/engine.py:78-86 | for any non-decreasing call times, each aligned second accepts exactly the lesser of its calls and the maximum |
| `RateLimiting.SlidingBound` | backend/app/paper_trading/engine.py:78-86 | any interval of L ms accepts at most (ceil(L/1000) + 1) times the maximum |
| `RateLimiting.BurstAcrossBoundary` | backend/app/paper_trading/engine.py:78-86 | the bound is tight: for every maximum, twice as many calls pass within two milliseconds |
| `LimiterRuns.LimitersFollowCalls` | backend/app/paper_trading/engine.py:101-104 | over every interleaving of trades, each exchange has its own limiter, fed by exactly the orders there that come in time and keep the trading rules |
| `LimiterRuns.RefusedOverTheLimitIff` | backend/app/paper_trading/engine.py:216-219 | after any run with calls in time order, the next order on an exchange is refused by its limiter if and only if its second has already seen the maximum there |
| `TradeLaws.ExecutesIff` | backend/app/paper_trading/engine.py:186-248 | on a book with positive quantities a leg executes if and only if it is in time, meets liquidity, satisfies every trading rule, is admitted by the limiter and is covered by available funds |
| `TradeLaws.LegRaisesIff` | backend/app/paper_trading/engine.py:197-214 | a leg raises if and only if it reaches a validation whose step or tick size is not positive, and then neither ledger nor limiters have changed |
| `TradeLaws.BuyRaisedIff` | backend/app/paper_trading/engine.py:117-159 | the same for a whole trade: the exact inputs on which it raises before its wait, with balances and limiters untouched |
| `PaperTrading.PaperTradingEngine.PlaceLeg` | backend/app/paper_trading/engine.py:174-248 | the order returned, the whole ledger and every limiter after a leg, for each of its outcomes |
| `PaperTrading.PaperTradingEngine.ExecuteLeg` | backend/app/paper_trading/engine.py:229-247 | once funds are reserved: a release and rejection without depth, otherwise a settlement by the walked notional (buy) or the request (sale) |
| `PaperTrading.PaperTradingEngine.SettleTrade` | backend/app/paper_trading/engine.py:250-297 | credits the matched proceeds in the symbol's quote asset even when assessing the trade then raises, and reports profit, slippages and net spread |
| `PaperTrading.PaperTradingEngine.BeginArbitrage` | backend/app/paper_trading/engine.py:117-159 | everything up to the wait, with a cancelled sale when the buy fills nothing |
| `PaperTrading.PaperTradingEngine.ResumeArbitrage` | backend/app/paper_trading/engine.py:161-172 | everything after the wait, on the books and balances as they are by then; what it asks for and moves is ResumedMeans and ResumedMoves, which accounts those are is SymbolSplits |
| `OrderLaws.SymbolSplits` | backend/app/paper_trading/engine.py:63-65 | a symbol is its base, a dash and its quote, cut at the first dash; without a dash it is all base |
| `OrderLaws.SplitUndoesJoin` | backend/app/paper_trading/engine.py:63-65 | joining a base without a dash and a quote by a dash and splitting again gives them back |
| `OrderLaws.OwnRulesApply` | backend/app/paper_trading/engine.py:132 | a symbol's own rules come before the defaults and concern no other symbol |
| `OrderLaws.OrderShows` | backend/app/paper_trading/engine.py:186-195 | an order shows what was asked for and the best price at that time, and no figures unless it was filled |
| `OrderLaws.OrderOutcome` | backend/app/paper_trading/engine.py:197-248 | every order gives the first cause there is for refusing it (late, no liquidity, rules with their violations, rate limit, funds), and is expired, rejected, filled or partially filled accordingly |
| `OrderLaws.ExecutedFigures` | backend/app/paper_trading/engine.py:237-242 | an executed order fills the lesser of request and depth, at an average price that gives the walk's cost, with that cost times the rate as its fee |
| `OrderLaws.LegCounts` | backend/app/paper_trading/engine.py:197-219 | only an order in time that keeps the rules counts as a call of its exchange's limiter, and of no other's |
| `OrderLaws.BeganMeans` | backend/app/paper_trading/engine.py:130-156 | a trade waits for its sale if and only if its buy executes; otherwise it ends with a cancelled sale and nothing reported |
| `OrderLaws.BeganMoves` | backend/app/paper_trading/engine.py:134-143 | before its wait a trade moves nothing but the plan's quote asset on the buy exchange, by what the buy paid |
| `OrderLaws.ResumedMeans` | backend/app/paper_trading/engine.py:161-172 | after its wait a trade asks to sell exactly what was bought, on the sell exchange |
| `OrderLaws.ResumedMoves` | backend/app/paper_trading/engine.py:161-266 | it takes the sale's debit from the base on the sell exchange, credits the matched proceeds in the symbol's quote there, and moves nothing else |
| `OrderLaws.SettlementShows` | backend/app/paper_trading/engine.py:258-297 | a settlement reports the lesser fill as matched and the rest of the buy as left over, and figures if and only if both orders were priced and matched |
| `OrderLaws.SettlementFigures` | backend/app/paper_trading/engine.py:270-286 | profit is proceeds after fee less cost with fee; each reported slippage scales its best price to the average price, and the net spread scales cost to proceeds |
| `TradeLaws.LegKeepsLocked` | backend/app/paper_trading/engine.py:221-247 | from non-negative locked funds, a leg with any outcome leaves every account's locked funds unchanged |
| `TradeLaws.LegDebits` | backend/app/paper_trading/engine.py:221-247 | a leg takes from its own account price times fill (buy) or the full request (sale), nothing if unfilled, and nothing from any other account |
| `TradeLaws.ExecutionFacts` | backend/app/paper_trading/engine.py:186-248 | a leg that fills had a best level, a valid order, covered funds and a non-zero fill |
| `TradeLaws.SaleNeverOverdraws` | backend/app/paper_trading/engine.py:221-247 | an executed sale leaves available base non-negative |
| `TradeLaws.OverdraftBound` | backend/app/paper_trading/engine.py:221-247 | after a buy, available quote is at least minus quantity times the distance from the best to the last touched ask |
| `TradeLaws.PaysBestPriceIff` | backend/app/orderbook/vwap.py:33-42 | for any target, the walk costs no more than the target at the best price if and only if the best level holds the target, or the book cannot fill it and costs no more than that as a whole |
| `TradeLaws.ReservationCoversIff` | backend/app/paper_trading/engine.py:221-247 | for every executed buy, fully or partially filled, the reservation covers the payment if and only if that same condition holds; when exactly the reservation was available, the account ends non-negative under the same condition only |
| `TradeExample.BuyCanOverdraw` | backend/app/paper_trading/engine.py:221-247 | a concrete fully filled buy that ends 100 below zero although its reservation was covered |
| `TradeExample.PartialFillCanOverdraw` | backend/app/orderbook/vwap.py:33-42 | a concrete partial fill that costs 1100 where 300 were reserved |
| `TradeLaws.LegGivesOrderFacts` | backend/app/paper_trading/engine.py:229-247 | an order is either unfilled without a fee, or filled by at most its request with a fee of its value times the exchange's rate |
| `TradeLaws.PnlLedgerIdentity` | backend/app/paper_trading/engine.py:258-286 | reported profit is the trade's own change of quote totals, plus the cost of the unmatched part, minus the sale fee and the matched share of the buy fee |
| `TradeLaws.PnlIsNetSpread` | backend/app/paper_trading/engine.py:270-286 | reported profit is the matched cost with fee, times the net spread of the two fill prices |
| `TradeLaws.ReportedSlippageIff` | backend/app/paper_trading/engine.py:274-286 | slippages are reported exactly when a profit is and the book has a best level; the buy slippage is non-negative if and only if the best ask at settlement is at most the average price, and the mirror for the sale |
| `TradeRuns.LockedSurvives` | backend/app/paper_trading/engine.py:117-248 | over every interleaving of any number of trades, transfers and fundings, each account's locked funds stay what they were (zero once funded anew) |
| `TradeRuns.SaleInRunNeverOverdraws` | backend/app/paper_trading/engine.py:161-248 | whenever, in any interleaving, a waiting trade's sale executes, available base there ends non-negative |
| `TradeRuns.RunConserves` | backend/app/paper_trading/engine.py:117-297 | over every interleaving, each asset's total over all exchanges changes by exactly the sum of the trades' own effects; transfers change none |
| `TradeRuns.RunKeepsFacts` | backend/app/paper_trading/engine.py:117-297 | every trade of a run is in a consistent state: fills within requests, sale within buy, a reported profit only with both prices and a positive match |
| `TradeRuns.RunPnlMatchesBalances` | backend/app/paper_trading/engine.py:258-286 | over any interleaving, with trades in any state (rejected, waiting, raised in settlement), a quote asset's total moves by what the trades with a report in it report plus what the other trades' orders did |
| `TradeRuns.SalesNeverRaise` | backend/app/paper_trading/engine.py:161-214 | over every interleaving no trade raises in its sell leg; settlement is the subject of the next four rows |
| `TradeLaws.AssessmentRaisesIff` | backend/app/paper_trading/engine.py:258-286 | for any two orders, settlement raises if and only if they match at non-zero prices and a best level is not positive, the buy price is not positive, or a fee is negative |
| `TradeLaws.SettlementRaisesIff` | backend/app/paper_trading/engine.py:161-286 | a resumed trade whose buy has a positive price raises in settlement if and only if its sale executed at a non-zero price and, by then, the best ask is not positive or one of the two fees is negative |
| `TradeRuns.NoSettlementRaises` | backend/app/paper_trading/engine.py:117-286 | over every interleaving, with non-negative fees, positive quantities in the books and positive best asks at settlement, no trade ends in a settlement that raised, and every waiting trade has a positive price |
| `SettlementExample.SettlementCanRaise` | backend/app/paper_trading/engine.py:265-282 | a concrete run with a configured rebate that pays the buy, sells the base, credits the proceeds, and raises |
| `CapitalMonitoring.CapitalMonitor.TakeSnapshot` | backend/app/capital/monitor.py:74-112 | for any list of exchanges, each one's quote account, base accounts, share of the capital (in which an exchange listed twice counts once), target and deviation, computed from the balances before the call; afterwards every account reads as before and exactly the keys looked up have entries |
| `CapitalMonitoring.CapitalMonitor.RebalanceSignals` | backend/app/capital/monitor.py:114-171 | for any list of exchanges, the plan for the balances as they were, nothing without capital; every account reads as before |
| `CapitalMonitoring.CapitalMonitor.MatchPairs` | backend/app/capital/monitor.py:139-170 | the loop that overwrites both lists in place equals the recursive pairing of what is left of each side |
| `CapitalMonitoring.DistinctCapital` | backend/app/capital/monitor.py:84-121 | when no exchange is listed twice, the snapshot and the plan measure the same capital |
| `CapitalLaws.StatusShows` | backend/app/capital/monitor.py:89-112 | each status shows the accounts and the target, a share that is the total's part of the capital, and the deviation between the two |
| `CapitalLaws.SharesAddUp` | backend/app/capital/monitor.py:84-112 | with some capital and no exchange listed twice, the reported shares add up to a hundred per cent |
| `CapitalLaws.DuplicateCountsOnce` | backend/app/capital/monitor.py:84-88 | listing an exchange once more changes nothing of the capital that a snapshot measures |
| `CapitalLaws.TiesKeepOrder` | backend/app/capital/monitor.py:136-137 | senders and receivers are sorted by falling amount, and equal amounts keep their order |
| `CapitalLaws.AvailabilityMeans` | backend/app/capital/monitor.py:181-215 | "available" means that neither account falls short of what the legs need; otherwise the first that does is named |
| `CapitalMonitoring.CapitalMonitor.CheckDirection` | backend/app/capital/monitor.py:173-215 | which funds are short, quote before base, for the balances before the call; every account reads as before, and the base account is looked up only if the quote suffices |
| `DirectionLaws.RefusedForFundsIff` | backend/app/paper_trading/engine.py:197-227 | a leg is refused for funds if and only if it passes every earlier check and its account does not cover the reservation |
| `DirectionLaws.BuyRefusedIff` | backend/app/capital/monitor.py:181-197 | a buy that reaches the balances is refused for funds if and only if the answer at the best ask is that quote is short |
| `DirectionLaws.LegElsewhere` | backend/app/paper_trading/engine.py:221-247 | a leg, whatever its outcome, changes no account but its own |
| `DirectionLaws.AvailableIsEnough` | backend/app/capital/monitor.py:173-215 | after the answer "available" at the best ask, with nothing in between, neither the buy nor, whatever the sell book is by then, the sale is refused for funds |
| `DirectionLaws.BaseShortIsRefused` | backend/app/capital/monitor.py:198-208 | after "base is short", with nothing in between, a sale of the full quantity that reaches the balances is refused for funds |
| `DirectionLaws.TransferTakesTheFunds` | backend/app/capital/monitor.py:173-232 | a concrete run in which a transfer during the wait has the sale refused for funds after an answer of "available" |
| `RebalanceLaws.SidesRepresent` | backend/app/capital/monitor.py:125-136 | the senders (receivers) are exactly the listed exchanges whose amount above (below) target exceeds the threshold amount, once each, with that amount |
| `RebalanceLaws.PlanShape` | backend/app/capital/monitor.py:139-170 | every transfer is positive, from a sender to a receiver; the amounts sum to the lesser of the two sides, so one side is used up; there are at most senders + receivers - 1 transfers |
| `RebalanceLaws.SentIsShare` | backend/app/capital/monitor.py:139-170 | each sender gives its greedy share of the total, in order of size |
| `RebalanceLaws.ReceivedIsShare` | backend/app/capital/monitor.py:139-170 | each receiver gets its greedy share of the total |
| `RebalanceLaws.FlowOf` | backend/app/capital/monitor.py:114-171 | an exchange above target only sends, at most its excess; one below only receives, at most its deficit; all others are left alone |
| `RebalanceLaws.LargestFirst` | backend/app/capital/monitor.py:136-145 | the plan opens with the largest excess and the largest deficit of all exchanges, for the lesser of the two |
| `RebalanceLaws.PlanIsExecutable` | backend/app/capital/monitor.py:114-232 | with no more locked than the target anywhere, recording the transfers in order never fails |
| `RebalanceLaws.ExecutableIff` | backend/app/capital/monitor.py:114-232 | whatever is locked, recording the transfers succeeds throughout if and only if each sender has free all that it is to send |
| `RebalanceLaws.CarriedMoves` | backend/app/capital/monitor.py:218-232 | whichever transfers are refused, each account moves by exactly its flow of those that went through |
| `RebalanceLaws.NeverCrossesTarget` | backend/app/capital/monitor.py:114-232 | whatever is locked and refused, recording the plan pushes no exchange across its target, and its distance falls by exactly its flow |
| `RebalanceLaws.DistanceFallsByTwicePlan` | backend/app/capital/monitor.py:114-232 | the summed distance to the targets falls by exactly twice what goes through, which is the whole plan when nothing is refused |
| `RebalanceLaws.PlanKeepsCapital` | backend/app/capital/monitor.py:218-232 | recording the plan preserves the asset's total, whatever is refused |
| `RebalanceLaws.ReachesThresholdIff` | backend/app/capital/monitor.py:114-171 | whatever is locked, the planned flows bring every exchange within the threshold if and only if excesses and deficits differ by at most the threshold amount |
| `RebalanceLaws.RecordingReaches` | backend/app/capital/monitor.py:114-232 | recording the plan reaches the threshold only if the plan does, and exactly then when no transfer is refused |
| `RebalanceLaws.PlanCanStopShort` | backend/app/capital/monitor.py:114-171 | a concrete allocation out of the threshold for which no transfer is planned |
| `QuoteCaching.QuoteCache.Update` | backend/app/quote_cache/cache.py:27-51 | the whole cache after an update, and whether it was accepted |
| `QuoteCaching.QuoteCache.Snapshot` | backend/app/quote_cache/cache.py:58-66 | the symbol's quotes in the order its exchanges were first seen |
| `QuoteCaching.UpdatedAt` | backend/app/quote_cache/cache.py:27-51 | an update replaces its own key's quote if it is accepted and leaves every other key's alone |
| `QuoteCaching.NewestWins` | backend/app/quote_cache/cache.py:27-51 | over any run of updates, numbered or not, a quote is stored if and only if it is the run's winner for its key |
| `QuoteCaching.NewestWinsNumbered` | backend/app/quote_cache/cache.py:27-51 | when all are numbered, the stored quote is the last-arrived of those with the highest number |
| `SpreadOrder.CacheInSeenOrder` | backend/app/quote_cache/cache.py:27-51 | over any run of updates the cache lists the exchanges in the order in which they were first seen |
| `SpreadOrder.SnapshotConcat` | backend/app/quote_cache/cache.py:58-66 | a snapshot goes through the exchanges in that order |
| `SpreadFormulas.NetSpreadSign` | backend/app/spread/formulas.py:25-39 | the net spread is positive if and only if the sale after fee brings more than the purchase with fee |
| `SpreadFormulas.NetSpreadEarns` | backend/app/spread/formulas.py:25-62 | scaled by the cost with fee, the net spread is the round trip's profit |
| `SpreadRows.SpreadEngine.UpdateTakerFee` | backend/app/spread/engine.py:73-77 | stores the fee, or raises on a negative one and changes nothing |
| `SpreadRows.SpreadEngine.ComputeAll` | backend/app/spread/engine.py:79-89 | the nested loops give the slice of all pairs of all symbols, or the first error; what a row of it says is the subject of the next rows |
| `RowLaws.RowShows` | backend/app/spread/engine.py:91-136 | a row shows the two quotes' symbol, market, exchanges and prices, the lesser of the two quantities, and its notional at the ask |
| `RowLaws.RowAges` | backend/app/spread/engine.py:109-113 | a row is as old as its older quote and as far apart as the exchanges' own timestamps |
| `RowLaws.RowSpreads` | backend/app/spread/engine.py:103-104 | the bid is the ask scaled up by the gross spread, and the proceeds after fee are the cost with fee scaled up by the net spread |
| `RowLaws.RowProfit` | backend/app/spread/engine.py:107 | the expected profit, scaled by one plus the buy fee, is the quantity times proceeds less cost per unit |
| `RowLaws.StaleIff` | backend/app/spread/engine.py:111-113 | a row is stale if and only if one of its quotes is older than the maximum age |
| `RowLaws.ValidRowIff` | backend/app/spread/engine.py:109-135 | a row is valid if and only if neither quote is older than the maximum age, the exchange timestamps differ by at most the limit, and both quantities are positive and reach the minimum quantity and, at the ask, the minimum notional |
| `SpreadOrder.PairsFromPlaces` | backend/app/spread/engine.py:85 | the partners of an exchange come in order, leaving itself out |
| `SpreadOrder.PermutationsPlaces` | backend/app/spread/engine.py:85 | pairs come by their first exchange, in order |
| `SpreadLaws.SnapshotExact` | backend/app/quote_cache/cache.py:58-66 | a symbol's snapshot holds exactly the stored quotes of that market and symbol, once per exchange |
| `SpreadLaws.PairsExact` | backend/app/spread/engine.py:79-89 | the engine looks at every ordered pair of different exchanges with known fees, each exactly once |
| `SpreadLaws.SliceIsExact` | backend/app/spread/engine.py:79-136 | a computed slice shows exactly the quoted directions, each computed from the stored quotes, each as often as its symbol is configured, and always the same row |
| `SpreadLaws.SliceRaisesIff` | backend/app/spread/engine.py:79-136 | computing a slice raises if and only if some quoted direction has a negative fee |
| `RowLaws.SliceRowIs` | backend/app/spread/engine.py:79-136 | in a slice, the row of a quoted direction is stale, valid and active exactly as its two stored quotes, the fees and the threshold say |
| `SpreadLaws.ActiveRaisesBid` | backend/app/spread/engine.py:91-136 | with a non-negative threshold an active direction leads to an exchange that bids at least as much, and the same only if the threshold is zero, the bought quote has no spread and both fees are zero |
| `SpreadLaws.PathRises` | backend/app/spread/events.py:73-108 | along any path of open directions of a symbol the bid never falls, and stays the same only if every step is flat in that sense |
| `SpreadLaws.OpenCycleIsFlat` | backend/app/spread/events.py:73-108 | with uncrossed quotes and a non-negative threshold, a cycle of open directions exists only where the threshold is zero, every quote on it has equal bid and ask, and every fee on it is zero |
| `SpreadLaws.NoOpenCycle` | backend/app/spread/events.py:73-108 | with a positive threshold, after any slice that computes, the open directions of a symbol contain no cycle; a direction and its reverse are never open together |
| `SpreadExample.ZeroThresholdOpensCycle` | backend/app/spread/events.py:73-108 | a concrete pair of flat quotes that opens a direction and its reverse at a threshold of zero |
| `SpreadLaws.ActiveProfitNonNegative` | backend/app/spread/engine.py:105-119 | with a non-negative threshold an active row's expected profit is non-negative |
| `SpreadEvents.SpreadEventTracker.Process` | backend/app/spread/events.py:73-108 | the open dictionary, in order, and the closed events after a tick, including the sweep of vanished directions; when a row is active is ActiveIff |
| `RowLaws.NetOfMeans` | backend/app/spread/events.py:80 | the detector's net spread of a row is the share by which the sell quote's proceeds after fee exceed the buy quote's cost with fee |
| `RowLaws.ActiveIff` | backend/app/spread/events.py:80-81 | a row is active if and only if it is valid and bid times (1 - sell fee) is at least (1 + threshold) times ask times (1 + buy fee) |
| `RowLaws.OpenAfterSliceIff` | backend/app/spread/events.py:73-108 | after a slice a direction is open if and only if both quotes are stored with known fees, usable, and clear the threshold |
| `SpreadOrder.ClosedInRowOrder` | backend/app/spread/events.py:77-104 | within a tick events close in the order of the rows that close them |
| `SpreadOrder.SweptInOpenOrder` | backend/app/spread/events.py:106-107 | vanished directions close, and the others stay, in the order in which they opened |
| `SpreadOrder.FlushedInOpenOrder` | backend/app/spread/events.py:110-114 | a flush closes in the order in which the events opened |
| `SpreadOrder.OpenPlaces` | backend/app/spread/events.py:83-101 | an event keeps its place while it goes on, and a new one opens behind all the others |
| `SpreadEvents.SpreadEventTracker.Sweep` | backend/app/spread/events.py:106-108 | removing unseen keys one at a time closes each of them once, in order, and keeps all the others |
| `SpreadEvents.SpreadEventTracker.FlushOpen` | backend/app/spread/events.py:110-114 | closes everything open, in order, and leaves nothing open |
| `EventRuns.TickAt` | backend/app/spread/events.py:73-108 | a tick moves each direction like its own two-state automaton, however often the tick repeats the direction's row |
| `EventRuns.FirstPeak` | backend/app/spread/events.py:36-43 | the first tick of a run at which the net spread is highest |
| `EventRuns.AverageBetween` | backend/app/spread/events.py:45-61 | threshold <= average <= maximum, and threshold <= start spread, for every run's event |
| `EventRuns.RunsOfExact` | backend/app/spread/events.py:73-114 | the enumerated runs are exactly the maximal runs of active ticks, each once, in time order |
| `EventRuns.ReportedAreMaximalRuns` | backend/app/spread/events.py:36-114 | for every direction the closed and flushed events are exactly its maximal runs, in order: start, end (first inactive, missing or flush tick), maximum, average, and the peak of the first maximum; a symbol listed several times changes none of it |
| `EventRuns.OpenIffActive` | backend/app/spread/events.py:73-108 | after every tick a direction is open if and only if it is active in that tick |
| `Backtesting.BacktestEngine.Run` | backend/app/backtesting/engine.py:102-155 | the whole result of a run (or its error) as a function of settings, parameters and loaded rows; what it says is ResultMeans |
| `BacktestLaws.ResultMeans` | backend/app/backtesting/engine.py:102-155 | a run raises if and only if its replay does; otherwise its events are the reported ones that lasted at least the minimum, as often as reported, its totals are their count, sum and mean, and it replays the loaded rows up to the limit and says whether there were more |
| `BacktestLaws.KeptExactly` | backend/app/backtesting/engine.py:139-143 | the filter keeps an event as often as it was reported if it lasted long enough, and not at all otherwise |
| `BacktestLaws.KeptInOrder` | backend/app/backtesting/engine.py:139-143 | the filter keeps the order |
| `BacktestLaws.TicksAreGroups` | backend/app/backtesting/engine.py:130-136 | the replayed ticks are exactly the groups of rows with equal timestamps, in order, each computed from all the rows up to the group's end |
| `BacktestLaws.FlushTime` | backend/app/backtesting/engine.py:124-137 | what is open at the end is flushed at the last tick's time |
| `BacktestLaws.OverridesAreSettings` | backend/app/backtesting/engine.py:108-128 | overriding symbols, minimums or threshold for one run is the same as configuring them |
| `BacktestLaws.FeeAfterOverrides` | backend/app/backtesting/engine.py:117-118 | each exchange's fee in a run is its last override, or else the configured one |
| `Backtesting.BacktestEngine.Replay` | backend/app/backtesting/engine.py:124-137 | grouping by timestamp in nested loops feeds the detector exactly the ticks that the row list defines |
| `Backtesting.ReplayRejectsNothing` | backend/app/backtesting/engine.py:127-131 | the cache rejects no row of a replay |
| `Backtesting.ReplayHoldsLastRow` | backend/app/backtesting/engine.py:127-131 | after any number of rows the cache holds, per key, the last one loaded |
| `Backtesting.BacktestFindsMaximalRuns` | backend/app/backtesting/engine.py:124-137 | for any parameters, when a replay does not raise its events are per direction the maximal runs of the replayed ticks |
| `Backtesting.ReplayRaisesIff` | backend/app/backtesting/engine.py:117-137 | a replay raises if and only if a fee override is negative, or at the end of some tick a quoted direction has a negative fee |
| `Backtesting.EventsPromiseNoLoss` | backend/app/backtesting/engine.py:124-137 | with a non-negative threshold every reported event's profit is non-negative |
| `Backtesting.LongerDurationNeverHelps` | backend/app/backtesting/engine.py:139-145 | raising the minimum duration never raises the number of events or the total profit |
| `DbWriting.DbWriter.Enqueue` | backend/app/database/writer.py:54-80 | the queue and every counter after an attempt, for each overflow policy, and whether the item was admitted |
| `DbWriting.EnqueueVerdict` | backend/app/database/writer.py:54-80 | an attempt succeeds if and only if there is room or the oldest may be dropped, and then its item is the last one queued and counted; otherwise the queue stays and one drop is counted |
| `DbWriting.DbWriter.GroupByTable` | backend/app/database/writer.py:134-137 | exactly the batch's tables appear, each with its rows in batch order |
| `DbWriting.DbWriter.FinishWriting` | backend/app/database/writer.py:139-148 | all counters and the latency after a successful or failed flush; a failed batch is lost, not retried |
| `DbWriting.QueueIsSuffix` | backend/app/database/writer.py:54-132 | over every interleaving the queue is a contiguous suffix of the accepted items and never exceeds its capacity |
| `DbWriting.RecordsAreConserved` | backend/app/database/writer.py:54-148 | over every interleaving: under DROP_OLDEST all attempts are enqueued and enqueued = written + lost in failed batches + dropped + in batch + queued; otherwise attempts = enqueued + dropped, and nothing enqueued is dropped |
| `DbWriting.DeliveriesKeepOrder` | backend/app/database/writer.py:109-148 | over every interleaving, the flushed batches and the batch in hand are accepted items in acceptance order, none twice |
| `DbWriting.TablesKeepOrder` | backend/app/database/writer.py:134-137 | each table receives, over all batches, its rows in that same order |
| `DbWriting.RunTells` | backend/app/database/writer.py:117-148 | over every interleaving no batch is empty or larger than the configured maximum, and the metrics tell the numbers of batches taken and lost, the size and latency of the last one taken, and a queue size never below the real one |
| `DbWriting.QueueSizeExact` | backend/app/database/writer.py:54-131 | the reported queue size is exact after every accepted item and at the end of every collection |
| `SpreadFeeds.ConnectionManager.PutDropOldest` | backend/app/api/websocket/manager.py:42-52 | the put/evict loop terminates with the message last and the newest older ones that still fit |
| `SpreadFeeds.PutKeepsNewest` | backend/app/api/websocket/manager.py:42-52 | a put keeps the newest messages that fit, the new one last, and evicts only from a full queue |
| `SpreadFeeds.ConnectionManager.Broadcast` | backend/app/api/websocket/manager.py:38-52 | every connected client gets the message, each with its own evictions; no client is added or removed |
| `SpreadFeeds.ConnectionManager.Receive` | backend/app/api/websocket/routes.py:11-24 | a client's sender takes its oldest message and touches no other queue |
| `SpreadFeeds.Broadcaster.BuildMessage` | backend/app/services/broadcaster.py:36-45 | the message carries the next number and the engine's rows of the moment; the number is used up even when computing the rows raises |
| `SpreadFeeds.Broadcaster.BuildHeartbeat` | backend/app/services/broadcaster.py:47-49 | heartbeats share the numbering |
| `SpreadFeeds.SpreadFeed.Received` | frontend/src/hooks/useSpreadFeed.ts:53-58 | the hook's state after a message, whether its counter update runs at once or is put off |
| `SpreadFeeds.SpreadFeed.Rendered` | frontend/src/hooks/useSpreadFeed.ts:56 | updates put off all read the reference as it is at the render |
| `SpreadFeeds.SpreadFeed.Opened` | frontend/src/hooks/useSpreadFeed.ts:47-51 | a reconnect forgets the last number and resets the back-off, and keeps the counter |
| `SpreadFeeds.SpreadFeed.Closed` | frontend/src/hooks/useSpreadFeed.ts:65-70 | the delay before the next attempt, doubled for the one after up to fifteen seconds |
| `SpreadFeeds.QueueIsSuffix` | backend/app/api/websocket/manager.py:38-52 | over any run of a connection, the client's queue is a bounded, contiguous suffix of the numbers broadcast since it connected |
| `SpreadFeeds.LossIsAccounted` | frontend/src/hooks/useSpreadFeed.ts:53-58 | over every run of a connection, whichever counter updates are put off, the counter gains at most the messages evicted and the numbers used up between the first and last received, exactly that if and only if no gap's update was put off, and in any case that less the shortfall of the updates run late and the gaps still pending |
| `SpreadFeeds.LossIsEvictionsIff` | frontend/src/hooks/useSpreadFeed.ts:53-58 | with no update put off, the counter gains exactly the evictions if and only if every number in between was broadcast |
| `FeedExample.WhenItRaises` | backend/app/spread/engine.py:66-89 | a configured rebate: no raise while its exchange is the only one quoted, a raise once a second one is, none after the fee is updated |
| `SpreadFeeds.FailsIff` | backend/app/services/broadcaster.py:36-45 | a number is used up without a broadcast if and only if it belongs to an update that quotes a direction with a negative fee |
| `SpreadFeeds.FairFeesLossIff` | backend/app/services/broadcaster.py:36-49 | with non-negative fees no number is used up, and the counter gains exactly the evictions if and only if no gap's update was put off |
| `FeedExample.FailedBuildMiscounts` | backend/app/services/broadcaster.py:36-45 | a run of real engine states (a configured rebate, its exchange compared only later, then a proper fee) in which nothing is evicted, no update is put off, and the counter reports one loss |
| `FeedExample.DeferredDeliveryMiscounts` | frontend/src/hooks/useSpreadFeed.ts:55-58 | a run in which one message is evicted, nothing fails, and the counter ends at minus one |
| `SpreadFeeds.CounterRightIff` | frontend/src/hooks/useSpreadFeed.ts:47-58 | at every moment, over connections that open with nothing pending, the counter is at most what was really skipped, and equals it if and only if no gap's update was put off |
| `SpreadFeeds.CounterIs` | frontend/src/hooks/useSpreadFeed.ts:47-58 | the exact account over any turns and any connections: the counter is what was skipped, less for each late update the reference it read minus the one it should have read, less the gaps still pending |
| `SpreadFeeds.PromptCounterIsRight` | frontend/src/hooks/useSpreadFeed.ts:47-58 | across any number of connections, with no update put off the counter is what was really skipped |
| `SpreadFeeds.ReconnectOvercounts` | frontend/src/hooks/useSpreadFeed.ts:47-58 | with an update pending at a reconnect, three lost messages are counted as four |
| `SpreadFeeds.DeferredUpdateMiscounts` | frontend/src/hooks/useSpreadFeed.ts:55-58 | three lost messages counted as minus one when the update is put off |

## Left out

- Decimal rounding: amounts are exact reals; the 28-digit context rounding of `Decimal` is idealised away.
- Sharing of mutable records: balances, open events and quotes are values inside the owning class's maps, so a caller that keeps and changes such a record behind the owner's back is not modelled.
- PaperTrading.PaperTradingEngine.Admit: keeps each exchange's limiter as a value in a map; the limiter as an object is `RateLimiting.RateLimiter`, proved against the same function.
- PaperTrading.PaperTradingEngine.PlaceLeg: order ids, timestamps and reason texts are left out, and reasons are a datatype.
- PaperTrading.PaperTradingEngine.ResumeArbitrage: the wait is a point where any other events may happen; how long it lasts is not modelled.
- TradeRuns.RunConserves: states the deltas that the code makes; base bought is never credited and fees are never debited, so no stronger conservation holds.
- `cancel_order`: its callers pass the reserved amount by hand, so there is no law over runs beyond its status guard.
- RebalanceLaws.SidesRepresent: like every law about a plan, asks for distinct exchanges, as callers pass dictionary keys; of an exchange listed twice the snapshot counts the balance once and the plan twice.
- RebalanceLaws.PlanIsExecutable: asks for no more locked than the target on each exchange (in particular non-negative targets and nothing locked); ExecutableIff is the exact condition.
- SyncedBooks.SyncedMeansCorrect: one number per change, as the book itself assumes; mapping an exchange's number ranges to it is adapter code and is not part of this model.
- SpreadLaws.OpenCycleIsFlat: asks for uncrossed quotes, which the quote validators do not check, and for a non-negative threshold, which the configuration does not check.
- Backtesting.BacktestEngine.Run: the SQL query and the validation of its parameters; rows come in the order the query returns them.
- DbWriting.DbWriter.TakeItem: the collection deadline may end a batch at any time; task start, stop and cancellation inside a pending wait are not modelled, and row contents are opaque.
- SpreadFeeds.Broadcaster.BuildMessage: the wire format, push rate and heartbeat interval are left out; a heartbeat may come at any time.
- SpreadFeeds.LossIsAccounted: is about a connection that opens with no counter update pending; CounterIs covers any other.
- SpreadFeeds.SpreadFeed.Received: the displayed rows, the pause switch and the connection status are left out.
- Quote-cache connection status, wire formats, HTTP routes, exchange adapters and normalizers, analytics, retention, migrations and the rest of the user interface.

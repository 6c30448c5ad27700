# Verified model of the Sentum trading runtime

Sentum moves market data through a lock-free queue and an in-memory store, turns signals into
orders, simulates or submits them, and researches parameters over historical data. This project
models the five stateful cores of that runtime and proves what they are for:

* **Market data.** `SpscRingQueue` runs producer and consumer over the ring with one step for each
  atomic load, store or slot access; every interleaving is a bounded FIFO. `Collector` runs the
  stream thread and the writer thread over that ring. `KlineParser` scans messages, `KlineMessages`
  prints them and proves the round trip. `MarketDataStore`, `Indicators` and `TimeframeAggregator`
  are proved equal to a log suffix, to averages over the whole history, and to a group-by;
  `MarketDataStoreThreads` runs concurrent calls of the store, one lock section a step.
* **Orders.** `OrderManager`, `Ledger` and `LiveOrderSession` are the classes, one call at a time.
  `OrderProtocol` runs every call, every stream event and every keepalive failure as a thread,
  one atomic access, critical section or exchange call per step, with exceptions and try blocks.
  Its results hold over all interleavings and all answers of the exchange. `SessionCalls` shows that
  each call, when no other thread interrupts it, ends and does what the class promises;
  `SessionHistories` what a call has done by the time it clears the kill switch or ends, whatever
  runs beside it; `FilledOrders` when a filled order stays filled.
* **Trade engine.** `RiskManager`, `SimulatedVenue` and `TradeEngine` are one evaluation;
  `TradeEngineRun` proves money conservation, exit completeness, the sizing bound and manual
  closing over whole runs, `TradeHistory` when, why and for how much trades are opened and closed,
  and the cooldown between them, `TrailingStop` when the trailing stop is a ratchet.
* **Portfolio simulation.** `Portfolio` is the risk gate, `PortfolioRun` the candidate loop,
  `PortfolioLimits` what its loss limits mean over a simulation, and `Metrics` the statistics.
* **Research.** `WalkForward`, `ResearchGrid`, `ResearchWorkers`, `ResearchSelection`, `Quantiles`.

`RingIndex`, `Reals`, `Sorting`, `Orders`, `Positions` and `Wrappers` hold what several of them share.

Conventions. A class updated in place is a Dafny class whose methods are specified by functions on
its old state; the lemmas about runs are about those functions. Doubles are `real`. Times are
integers in nanoseconds, as the clock counts them. What comes from outside (exchange answers, stream
events, wall clock, engine clock, strategy signals, volatilities and correlations, what a hash map
iterates over first) is an input of the step that reads it. History variables record what happened
and influence nothing.

Where code and documentation disagree, the model follows the code, and these are results here:

* The portfolio caps are documented as limits, but the size is compared with them before its multiplier
  is applied. They hold for every accepted trade exactly when the largest multiplier is at most 1
  (`PortfolioRun.CapsHoldIffMultiplierAtMostOne`); the default is 1.5.
* A comment promises that a close request made while flat never reaches the next position. It does
  when it arrives during the evaluation that opens the position, and only then
  (`TradeEngineRun.LateRequestLeaks`, `TradeEngineRun.RequestsCountSinceEntry`); every entry that
  can be approved has such a run (`TradeEngineRun.LateRequestCloses`).
* The trailing stop is a ratchet exactly when the trail is at most the stop-loss distance and at most
  the whole price, which the configuration loader does not check (`TrailingStop.RatchetExactly`, `TrailingStop.RatchetExactlyInRuns`).
* The aggregator takes a negative bucket for "no frame". Its closed frames are right exactly when no
  usable event before the epoch is followed by one of another bucket, and its current frame, too,
  exactly when none of another price follows either (`TimeframeAggregator.AggregatorGroupsExactly`).
* Purge and embargo separate training from validation exactly when the embargo does not wrap around
  64 bits (`WalkForward.SeparationExactly`); a negative number in the configuration makes it wrap
  (`WalkForward.WrappingEmbargoOverlaps`).
* A filled order need not stay filled: a late REST answer puts it back to acknowledged. It stays
  filled exactly until its own answer, a report with another status, or a reconciliation that does
  not list it as filled (`FilledOrders.FilledStaysExactly`). Ledger results are therefore about
  published updates.
* The scanner knows no nesting: it reads a member exactly when no earlier member has its key or holds
  a nested value that carries it (`KlineMessages.LookupExactly`), and finds the kline object exactly
  when nothing in the envelope can be taken for it (`KlineMessages.FindsKline`).
* The rolling return is 0 until its window is full, while the store's cumulative return uses what
  there is; they agree exactly as `Indicators.RollingReturnIsCumulativeReturn` says.

## Model

| member | source | states |
|---|---|---|
| SpscRingQueue.NextKeepsInv | src/sentum/market/SpscRingQueue.hpp:16-42 | every atomic step of either thread keeps: popped is a prefix of pushed, the indices are the counts modulo the capacity, occupied slots hold the unread items in order, all others are empty |
| SpscRingQueue.RunKeepsInv | src/sentum/market/SpscRingQueue.hpp:16-42 | so does every run, whatever the interleaving |
| SpscRingQueue.BoundedFifo | src/sentum/market/SpscRingQueue.hpp:16-32 | from the empty ring, under every interleaving: popped is a prefix of pushed, at most capacity-1 items are inside, and the slots hold exactly these in order |
| SpscRingQueue.NoSharedSlot | src/sentum/market/SpscRingQueue.hpp:20-29 | in no reachable state are both threads about to access the same slot |
| SpscRingQueue.StepRefinesQueue | src/sentum/market/SpscRingQueue.hpp:16-32 | each step is a no-op on the abstract queue, except the publishing stores, which append the pushed value and remove and return the oldest one |
| SpscRingQueue.FailuresAreExact | src/sentum/market/SpscRingQueue.hpp:19-35 | a push fails iff capacity-1 items are present at its tail load; a pop fails iff none is at its head load; `empty` answers for its head load |
| SpscRingQueue.SizeIsExactForOwners | src/sentum/market/SpscRingQueue.hpp:38-42 | `size_approx` is the exact length at one of its two loads for the producer and for the consumer |
| SpscRingQueue.Size | src/sentum/market/SpscRingQueue.hpp:38-42 | from any thread it is between 0 and capacity-1, however far apart the two loads are |
| SpscRingQueue.PushAlone | src/sentum/market/SpscRingQueue.hpp:16-23 | the steps of an undisturbed push are a run of the protocol that appends the value, or changes nothing when the ring is full |
| SpscRingQueue.PopAlone | src/sentum/market/SpscRingQueue.hpp:25-32 | the steps of an undisturbed pop are a run that removes the oldest item, or changes nothing when the ring is empty |
| SpscRingQueue.SpscRingQueue.TryPush | src/sentum/market/SpscRingQueue.hpp:16-23 | in place: succeeds iff there is room, appends to the queue, and its memory accesses are a run of the protocol |
| SpscRingQueue.SpscRingQueue.TryPop | src/sentum/market/SpscRingQueue.hpp:25-32 | in place: returns and removes the oldest item iff there is one |
| SpscRingQueue.SpscRingQueue.IsEmpty | src/sentum/market/SpscRingQueue.hpp:34-36 | true iff the queue holds nothing |
| SpscRingQueue.SpscRingQueue.SizeApprox | src/sentum/market/SpscRingQueue.hpp:38-42 | undisturbed, the exact number of items |
| Collector.ActKeepsInv | src/sentum/collector/Collector.cpp:93-136 | every atomic step of the stream thread, the writer thread and `stop` keeps: handed batches and current batch are exactly what was popped, and the counters match the pushes |
| Collector.HandOff | src/sentum/collector/Collector.cpp:93-136 | in every reachable state the batches concatenate to a prefix of what was pushed, each has 1 to 256 items, and after the exit they are everything pushed before the last emptiness test |
| Collector.Collector.TryEnqueue | src/sentum/collector/Collector.cpp:93-103 | each candle is counted once, as enqueued or dropped; it is dropped iff the queue is full, and otherwise appended |
| Collector.FillBatch | src/sentum/collector/Collector.cpp:113 | the inner loop moves items in order until the batch is full or the queue is empty |
| Collector.DrainAfterStop | src/sentum/collector/Collector.cpp:111-135 | with the producer stopped the loop hands over the whole queue once and in order, in full batches except possibly the last |
| KlineParser.StringField | src/sentum/collector/FastBinanceKlineParser.hpp:45-53 | in place scan of a quoted value: succeeds iff the declarative reading does, and leaves the target alone otherwise |
| KlineParser.IntegerField | src/sentum/collector/FastBinanceKlineParser.hpp:55-69 | scan of an optional sign and all following digits; stays in bounds and terminates on every input |
| KlineParser.DecimalField | src/sentum/collector/FastBinanceKlineParser.hpp:71-95 | scan of optional quote, sign, digits and fraction; at least one digit is needed |
| KlineParser.ScanFraction | src/sentum/collector/FastBinanceKlineParser.hpp:83-91 | the loop after the point adds every digit at its own power of ten |
| KlineParser.BoolField | src/sentum/collector/FastBinanceKlineParser.hpp:97-103 | true or false exactly when the value starts with that word |
| KlineParser.Parse | src/sentum/collector/FastBinanceKlineParser.hpp:22-34 | the fields in order, each written only when it and all before it were read |
| KlineMessages.AccumulatedIsFixed | src/sentum/collector/FastBinanceKlineParser.hpp:77-91 | the digit-by-digit sum equals all digits of the literal as one integer over a power of ten |
| KlineMessages.NoOverflow | src/sentum/collector/FastBinanceKlineParser.hpp:60-65 | with at most 18 digits the 64-bit accumulator never overflows on the way |
| KlineMessages.ValueOfMember | src/sentum/collector/FastBinanceKlineParser.hpp:37-43 | when no earlier member or nested value can be taken for it, the four-character search finds the member of the printed object: never inside a string, a number or another key |
| KlineMessages.FindsKline | src/sentum/collector/FastBinanceKlineParser.hpp:22-25 | for every printed envelope the kline object is what the five-character search finds iff no earlier piece is an object under that key or a nested value that carries one |
| KlineMessages.RoundTrip | src/sentum/collector/FastBinanceKlineParser.hpp:22-34 | for every compact message with members in any order, any further members (strings, numbers, flags, null, nested values) and any rest, in which nothing before a member that is read can be taken for it: parsing yields exactly the printed symbol, time, decimals and flag |
| KlineMessages.PlainRoundTrip | src/sentum/collector/FastBinanceKlineParser.hpp:22-34 | so every candle has a message that parses back to it, whatever follows the message |
| KlineMessages.LookupExactly | src/sentum/collector/FastBinanceKlineParser.hpp:37-43 | for every printed object: looking up a key yields a member with that key, its value and separator, iff no earlier member has the key or holds a nested value that carries it |
| KlineMessages.NestedKeyWins | src/sentum/collector/FastBinanceKlineParser.hpp:37-53 | a nested object with its own symbol in front of the symbol hides it, for every nested symbol |
| TimeframeAggregator.TimeframeAggregator.PushEvent | src/sentum/trader/strategy/StrategyFramework.hpp:42-64 | in place, one push: new frame, extended frame, or closed frame and new frame |
| TimeframeAggregator.TimeframeAggregator.Reset | src/sentum/trader/strategy/StrategyFramework.hpp:67 | back to no frames |
| TimeframeAggregator.GroupedIsRuns | src/sentum/trader/strategy/StrategyFramework.hpp:42-64 | however a stream is cut into maximal runs of equal buckets, the grouping yields the open, high, low, close and volume of those runs |
| TimeframeAggregator.RunsExist | src/sentum/trader/strategy/StrategyFramework.hpp:42-64 | every stream has such a partition |
| TimeframeAggregator.AggregatorGroups | src/sentum/trader/strategy/StrategyFramework.hpp:42-64 | in particular the frames of a stream without buckets before the epoch are its grouping |
| TimeframeAggregator.AggregatorGroupsExactly | src/sentum/trader/strategy/StrategyFramework.hpp:46-62 | for every stream: closed frames and latest closed frame are those of the grouping iff no usable event in a bucket before the epoch is followed by one of another bucket; all frames are iff none of another price follows it either |
| TimeframeAggregator.ClosedRightExactly | src/sentum/trader/strategy/StrategyFramework.hpp:48-53 | the first of these on ticks, both directions |
| TimeframeAggregator.AgreesExactly | src/sentum/trader/strategy/StrategyFramework.hpp:48-62 | the second of these on ticks, both directions |
| TimeframeAggregator.FedIsFeed | src/sentum/trader/strategy/StrategyFramework.hpp:42-46 | what the aggregator does to a stream depends on bucket, price and volume of its usable events alone |
| TimeframeAggregator.NegativeTimesBreakGrouping | src/sentum/trader/strategy/StrategyFramework.hpp:48-56 | concrete stream: two trades of one minute before the epoch lose the first one's open and high |
| TimeframeAggregator.NegativeTimesLoseFrames | src/sentum/trader/strategy/StrategyFramework.hpp:48-56 | concrete stream: of two minutes before the epoch the first is never closed |
| TimeframeAggregator.VolumeConserved | src/sentum/trader/strategy/StrategyFramework.hpp:48-62 | for every stream whatever its times: volume over closed and current frames is the volume of the usable events |
| TimeframeAggregator.RollUpIsSlowGrouping | src/sentum/trader/strategy/StrategyFramework.hpp:45-62 | merging short frames by long bucket is grouping by long bucket |
| TimeframeAggregator.SlowFramesMergeFastFrames | src/sentum/trader/strategy/StrategyFramework.hpp:45-62 | if the slow period is a multiple of the fast one, the slow aggregator's frames are the merges of the fast one's, for every stream that the fast one groups rightly |
| MarketDataStore.RingBuffer.Upsert | src/sentum/market/MarketDataStore.hpp:66-76 | in place: appends to the log, or replaces its last entry when the timestamps are equal |
| MarketDataStore.StoredExactly | src/sentum/market/MarketDataStore.hpp:66-76 | what is stored of any candles is, of neighbours with equal timestamps, exactly the last |
| MarketDataStore.RingBuffer.Latest | src/sentum/market/MarketDataStore.hpp:78-86 | the last min(limit, capacity, length) entries of the log, oldest first |
| MarketDataStore.RingBuffer.CumulativeReturn | src/sentum/market/MarketDataStore.hpp:88-99 | first-to-last return of that same suffix, or none |
| MarketDataStore.ReturnIsGrowth | src/sentum/market/MarketDataStore.hpp:95-97 | the return is what the first close grows by to become the last; there is none from a close that is not positive |
| MarketDataStore.MarketDataStore.GetOrCreate | src/sentum/market/MarketDataStore.hpp:107-117 | an existing symbol keeps its buffer; a new one gets an empty log |
| MarketDataStore.MarketDataStore.RegisterSymbol | src/sentum/market/MarketDataStore.hpp:25-31 | binds the id to the symbol's own buffer; the invalid id does nothing |
| MarketDataStore.MarketDataStore.Upsert | src/sentum/market/MarketDataStore.hpp:33 | changes the log of that symbol only, and no buffer's identity |
| MarketDataStore.MarketDataStore.UpsertId | src/sentum/market/MarketDataStore.hpp:34-37 | by id the same log is reached as by symbol; an unknown id changes nothing |
| MarketDataStore.MarketDataStore.FindId | src/sentum/market/MarketDataStore.hpp:125-129 | the id index and the symbol index lead to the same buffer |
| MarketDataStore.MarketDataStore.Latest | src/sentum/market/MarketDataStore.hpp:47 | suffix of the symbol's log, empty for an unknown symbol |
| MarketDataStore.MarketDataStore.LatestId | src/sentum/market/MarketDataStore.hpp:48 | the same through the id |
| MarketDataStore.MarketDataStore.CumulativeReturn | src/sentum/market/MarketDataStore.hpp:50 | return over that suffix, none for an unknown symbol |
| MarketDataStore.MarketDataStore.CumulativeReturnId | src/sentum/market/MarketDataStore.hpp:51 | the same through the id |
| MarketDataStoreThreads.NextKeepsInv | src/sentum/market/MarketDataStore.hpp:25-37 | with one lock section a step, every step of every concurrent call keeps: symbols and buffers belong to each other one to one, each buffer is the log of its updates, a buffer in a call's hand is that of its symbol |
| MarketDataStoreThreads.BuffersKeepIdentity | src/sentum/market/MarketDataStore.hpp:107-117 | in every run a symbol's buffer never changes identity once created, also when several threads miss it and go on to create it |
| MarketDataStoreThreads.StoreIsLogs | src/sentum/market/MarketDataStore.hpp:66-129 | in every reachable state each symbol has its own buffer with exactly the log of its updates in the order of their lock sections, and ids lead to the buffer of the symbol they were last registered for |
| MarketDataStoreThreads.UpdatesAreUpserts | src/sentum/market/MarketDataStore.hpp:33-37 | an update is made exactly by the last step of an upsert, to the buffer of its symbol |
| MarketDataStoreThreads.CallsAreCarriedOut | src/sentum/market/MarketDataStore.hpp:25-37 | over every interleaving a call that is done has done its work: an upsert has stored its candle in the log of its symbol, a registration has bound its id, an upsert by id has updated the symbol the id was bound to at its look-up |
| Indicators.RollingReturn.Push | src/sentum/market/IncrementalIndicators.hpp:14-18 | in place: the ring holds the newest values of the whole history |
| Indicators.RollingReturn.Value | src/sentum/market/IncrementalIndicators.hpp:20-26 | first-to-last return of the last window of the history |
| Indicators.RollingReturnIsCumulativeReturn | src/sentum/market/IncrementalIndicators.hpp:20-26 | on candles with distinct timestamps, with a window no longer than the store's ring, it equals the store's cumulative return, 0 for none, iff the window is full, there are fewer than two candles, or the first close is not positive or equals the last |
| Indicators.ShortWindowDiffers | src/sentum/market/IncrementalIndicators.hpp:20-21 | concrete candles: two in a window of three, where the store gives 1 and the rolling return 0 |
| Indicators.RollingSma.Push | src/sentum/market/IncrementalIndicators.hpp:40-52 | in place with a running sum: the mean of the last window of the history |
| Indicators.WindowSum | src/sentum/market/IncrementalIndicators.hpp:41-49 | sliding the window adds the new value and drops exactly the oldest one |
| Indicators.MeanStaysInRange | src/sentum/market/IncrementalIndicators.hpp:55 | the average lies within any bounds of the values |
| Indicators.Ema.Push | src/sentum/market/IncrementalIndicators.hpp:68-72 | in place: the exponential average of the whole history |
| Indicators.EmaStaysInRange | src/sentum/market/IncrementalIndicators.hpp:66-72 | it never leaves the range of the values pushed |
| Indicators.EmaIsWeightedSum | src/sentum/market/IncrementalIndicators.hpp:66-72 | it is the sum of all values ever pushed, the newest weighted alpha, each older one by 1 - alpha less |
| Indicators.Rsi.Push | src/sentum/market/IncrementalIndicators.hpp:86-105 | in place: the index over the smoothed gains and losses of the whole history |
| Indicators.RsiIsShareOfGains | src/sentum/market/IncrementalIndicators.hpp:101-104 | for every price history it is within 0..100, and the share of gains in all movement |
| Indicators.SmoothedIsEma | src/sentum/market/IncrementalIndicators.hpp:92-100 | the smoothing is the exponential average with factor 1 / period that starts from the mean of the first changes |
| Metrics.DrawdownStep | src/sentum/backtest/Backtest.hpp:70-72 | looking from the running peak alone keeps the maximum over all pairs of points |
| Metrics.SplitIsNet | src/sentum/backtest/Backtest.hpp:73-74 | gross win minus gross loss is the net profit, and both are non-negative |
| Metrics.Calculate | src/sentum/backtest/Backtest.hpp:62-90 | net profit is the sum, `max_drawdown` is the largest fall between any two points of the equity curve from zero; win rate, profit factor, expectancy and fee share are those of the winning and the other trades |
| Metrics.WinnersAndOthers | src/sentum/backtest/Backtest.hpp:73-74 | winners and others partition the trades; wins, gross win and gross loss are their number and profits |
| Metrics.CurveIsRunningNet | src/sentum/backtest/Backtest.hpp:69-71 | point i of the equity curve is the net profit of the first i trades |
| Portfolio.ApproveTrade | src/sentum/trader/risk/PortfolioRiskManager.hpp:53-100 | the loops compute the decision |
| Portfolio.ApprovedExactly | src/sentum/trader/risk/PortfolioRiskManager.hpp:56-91 | approved iff equity and proposal are positive, the loss of the day and the losing streak are below their limits, fewer entries than allowed fall into the last hour, and with the proposal the money in all positions, those of the asset and those correlated with it stays within each cap |
| Portfolio.MultiplierExactly | src/sentum/trader/risk/PortfolioRiskManager.hpp:93-98 | the multiplier brings the volatility to the target as far as its bounds allow; without a known volatility it is 1 within them |
| PortfolioLimits.DrawdownStopsEntries | src/sentum/research/PortfolioResearch.hpp:134-146 | over whole simulations a candidate is accepted only while the loss of the closed trades is below the drawdown limit |
| PortfolioLimits.StreakStopsEntries | src/sentum/research/PortfolioResearch.hpp:134-146 | no candidate is accepted while the last closed trades, as many as the limit says, all lost |
| PortfolioLimits.ClosedAreExited | src/sentum/research/PortfolioResearch.hpp:198-201 | when a candidate is judged, the closed trades are exactly the accepted ones that have exited by its entry |
| PortfolioLimits.ScaleKeepsBooks | src/sentum/research/PortfolioResearch.hpp:190-192 | a scaled trade is the same trade in another quantity: profits, fees and risk stay those of its prices and quantity |
| PortfolioRun.CloseUntilLoop | src/sentum/research/PortfolioResearch.hpp:198-201 | erasing in place closes exactly the positions due, in order, with their profit and loss streak |
| PortfolioRun.PruneLoop | src/sentum/research/PortfolioResearch.hpp:150 | drops the entry times before the cutoff from the front |
| PortfolioRun.ProcessCandidate | src/sentum/research/PortfolioResearch.hpp:134-152 | one iteration of the candidate loop |
| PortfolioRun.FilterCandidates | src/sentum/research/PortfolioResearch.hpp:126-153 | the whole loop and the final close |
| PortfolioRun.Conservation | src/sentum/research/PortfolioResearch.hpp:134-153 | accepted plus rejected is the number of candidates, each accepted trade is closed exactly once, equity is the start plus the net profit of the accepted trades |
| PortfolioRun.FilteredMetrics | src/sentum/research/PortfolioResearch.hpp:153-154 | the filtered metrics report exactly the change of equity, in whatever order the trades exited |
| PortfolioRun.HourlyLimit | src/sentum/research/PortfolioResearch.hpp:134-152 | every closed hour holds at most `max_trades_per_hour` accepted entries |
| PortfolioRun.PruningIsInvisible | src/sentum/research/PortfolioResearch.hpp:149-150 | the pruned deque gives the same decision as the full history |
| PortfolioRun.ExposureAfterAcceptance | src/sentum/trader/risk/PortfolioRiskManager.hpp:73-99 | right after an acceptance gross, same-asset and correlated exposure are at most their caps times the larger of 1 and the multiplier |
| PortfolioRun.CapsHoldIffMultiplierAtMostOne | src/sentum/trader/risk/PortfolioRiskManager.hpp:86-99 | the caps themselves always hold iff the maximum multiplier is at most 1 |
| PortfolioRun.Overshoot | src/sentum/research/PortfolioResearch.hpp:145-148 | otherwise, for every operative configuration whose threshold a correlation can reach, the first trade of a simulation that exceeds a cap |
| PortfolioRun.OvershootUncorrelated | src/sentum/research/PortfolioResearch.hpp:145-148 | with a threshold beyond every correlation, a book with an open position and the trade that exceeds a cap |
| Ledger.ConfirmedPositionLedger.OnOrderUpdate | src/sentum/trader/order/ConfirmedPositionLedger.hpp:25-45 | in place: weighted average on a buy fill, reduction or removal on a sell fill, nothing for anything else |
| Ledger.BlendIsBetween | src/sentum/trader/order/ConfirmedPositionLedger.hpp:34-35 | the new average entry lies between the old one and the fill |
| Ledger.LedgerIsWhatWasFilled | src/sentum/trader/order/ConfirmedPositionLedger.hpp:25-45 | for every stream of updates a symbol is held iff its fills since it was last flat leave more than dust; the quantity is bought minus sold and positive; quantity times average is the money of the buys less what was sold at the average of its time, and the average lies within the buys |
| Ledger.OnlyFillsMatter | src/sentum/trader/order/ConfirmedPositionLedger.hpp:26 | the ledger of a stream is the ledger of its confirmed fills |
| OrderManager.OrderManager.ReconcileStartup | src/sentum/trader/order/OrderManager.hpp:20 | the reported open orders replace all tracked ones; a malformed entry leaves those before it and no reconciliation |
| OrderManager.TrackedExactly | src/sentum/trader/order/OrderManager.hpp:20 | exactly the ids of the list are tracked, each with its last entry |
| OrderManager.OrderManager.SubmitMarket | src/sentum/trader/order/OrderManager.hpp:21 | the exchange is called iff reconciled, not killed, valid and not a duplicate; the new order has the data of the request and ends acknowledged with the id given, or rejected for the reason; other orders and the positions do not change |
| OrderManager.OrderManager.Cancel | src/sentum/trader/order/OrderManager.hpp:22 | unknown ids fail, resolved orders are returned as they are, others are marked as cancelling before the exchange is called, whether or not that call fails; the positions do not change |
| OrderManager.OrderManager.ActivateKillSwitch | src/sentum/trader/order/OrderManager.hpp:23 | the switch is set and exactly the live orders become cancelling, in whatever order the map is walked and whichever cancel calls fail |
| OrderManager.OrderManager.ClearKillSwitch | src/sentum/trader/order/OrderManager.hpp:24 | clears iff reconciled and every tracked order is filled, cancelled or rejected |
| Orders.StateOf | src/sentum/trader/order/OrderManager.hpp:30 | which status means which state; a status resolves an order iff it is filled, cancelled, expired or rejected; an unknown one counts as pending |
| OrderManager.OrderManager.OnUserDataEvent | src/sentum/trader/order/OrderManager.hpp:27 | an execution report updates its order and is published; one that throws at a member leaves what it stored before and is not published; other events do nothing |
| OrderManager.ReportIsStored | src/sentum/trader/order/OrderManager.hpp:27 | member by member: what the tracked order is after a report, depending on how many members were read before it threw; absent members keep what was known; average price times executed is the quote |
| OrderManager.FilledReportMoves | src/sentum/trader/order/OrderManager.hpp:27 | in the terms of the report: a filled sell lowers or removes the position, any other fill raises it by the executed quantity and adds the quote to its cost, everything else leaves the positions |
| OrderManager.AnswerOverwritesFill | src/sentum/trader/order/OrderManager.hpp:21 | a fill that overtakes the answer is put back to acknowledged; the confirmed position stays and a resume is refused |
| FilledOrders.FilledStaysExactly | src/sentum/trader/order/OrderManager.hpp:20-27 | every step from a state in which an order is filled leaves it filled iff it is not the answer or rejection of its own submit, a report with another status, or a reconciliation that does not list it as filled |
| FilledOrders.FilledUntilTakenBack | src/sentum/trader/order/OrderManager.hpp:20-27 | over runs: an order once filled is filled all the way iff no such step is taken |
| FilledOrders.FillIsTakenBack | src/sentum/trader/order/OrderManager.hpp:21 | such a step is reached from the start of the program: start, submit, fill report, answer |
| OrderProtocol.NextKeepsInv | src/sentum/trader/order/LiveOrderSession.hpp:42-130 | every step of every thread keeps what each thread may still do and that the positions are the fold of the published reports |
| SessionCalls.KillAlone | src/sentum/trader/order/LiveOrderSession.hpp:72 | from any state, every undisturbed `kill` ends killed and not ready with exactly the live orders cancelling, nothing else changed, and the exchange asked to cancel exactly these |
| SessionCalls.StopAlone | src/sentum/trader/order/LiveOrderSession.hpp:55-64 | an undisturbed `stop` does nothing unless started; otherwise it ends stopped, killed and not ready, with exactly the live orders cancelled |
| SessionCalls.StartAlone | src/sentum/trader/order/LiveOrderSession.hpp:42-53 | an undisturbed `start` does nothing when started; otherwise the listed orders are installed and the session is ready iff everything succeeded and it is not killed |
| SessionCalls.ResumeAlone | src/sentum/trader/order/LiveOrderSession.hpp:81-93 | an undisturbed resume clears the switch and is ready iff the confirmation is right, the session started, both reconciliations and the stream succeed and every order of the second list is resolved; what it leaves otherwise, exactly |
| SessionCalls.KeepaliveAlone | src/sentum/trader/order/LiveOrderSession.hpp:124-128 | an undisturbed failed keepalive kills, cancels exactly the live orders, installs the listed ones and is not ready |
| SessionCalls.SubmitAlone | src/sentum/trader/order/LiveOrderSession.hpp:66-69 | an undisturbed submit calls the exchange iff started, ready, reconciled, not killed, valid and no duplicate, and leaves the order as answered |
| SessionCalls.CancelAlone | src/sentum/trader/order/OrderManager.hpp:22 | an undisturbed cancel marks the order and calls the exchange iff it is tracked and not resolved |
| SessionCalls.EventAlone | src/sentum/trader/order/OrderManager.hpp:27 | an undisturbed stream event stores and publishes as the class does |
| SessionCalls.AloneIsRun | src/sentum/trader/order/LiveOrderSession.hpp:42-130 | these executions are runs of the protocol in which only that thread advances |
| SessionCalls.RunIsAlone | src/sentum/trader/order/LiveOrderSession.hpp:42-130 | and every such run to the end of the call is one of them |
| SessionCalls.Finishes | src/sentum/trader/order/LiveOrderSession.hpp:42-130 | from every state every call can be run to its end by itself |
| SessionHistories.ClearingIsReconciled | src/sentum/trader/order/LiveOrderSession.hpp:81-87 | over every interleaving the switch is cleared only by a confirmed resume that, since it began, has installed a whole list of open orders twice and then opened a new stream |
| SessionHistories.ListedAreCancelled | src/sentum/trader/order/OrderManager.hpp:23 | over every interleaving a thread that has listed the live orders does not end before it has tried to cancel each of them |
| SessionHistories.KillIsCarriedOut | src/sentum/trader/order/LiveOrderSession.hpp:72 | over every interleaving a kill that has ended has set the switch, then listed the live orders, then tried to cancel each |
| SessionHistories.ReconciledExactly | src/sentum/trader/order/OrderManager.hpp:20 | the session counts as reconciled iff some thread has installed a whole list |
| OrderProtocol.KillStays | src/sentum/trader/order/OrderManager.hpp:24 | no step but the clear of a resume, with all orders resolved, unsets the kill switch |
| OrderProtocol.NoPlacementWhileKilled | src/sentum/trader/order/OrderManager.hpp:21-24 | over every interleaving: a submit that starts while killed calls the exchange only if in between a resume cleared the switch, with every tracked order resolved at that moment |
| OrderProtocol.OnlyResumeRestoresReady | src/sentum/trader/order/LiveOrderSession.hpp:42-130 | once killed, the session is ready again only after a resume with the right confirmation cleared the switch: stop, start and keepalive recovery never do it |
| OrderProtocol.PlacementsAreReconciled | src/sentum/trader/order/OrderManager.hpp:21 | the exchange is called only for a valid request, by its own submit, after a reconciliation |
| OrderProtocol.OnlyFillsChangePositions | src/sentum/trader/order/LiveOrderSession.hpp:44-49 | the positions change only when the update of a report that says FILLED is published, never by submit, answer, rejection, cancel, kill or reconciliation |
| OrderProtocol.LedgerOfRun | src/sentum/trader/order/LiveOrderSession.hpp:44-49 | in every state of every run the ledger is the fold of the filled reports and each position is what its fills say |
| LiveOrderSession.LiveOrderSession.Start | src/sentum/trader/order/LiveOrderSession.hpp:42-53 | ready afterwards iff reconciliation and stream recovery succeed and the switch was not set |
| LiveOrderSession.LiveOrderSession.Stop | src/sentum/trader/order/LiveOrderSession.hpp:55-64 | kills, cancels the live orders and is not ready |
| LiveOrderSession.LiveOrderSession.Submit | src/sentum/trader/order/LiveOrderSession.hpp:66-69 | places iff started, ready, reconciled, valid and not a duplicate |
| LiveOrderSession.LiveOrderSession.Kill | src/sentum/trader/order/LiveOrderSession.hpp:72 | kills, cancels the live orders and is not ready |
| LiveOrderSession.LiveOrderSession.ResumeAfterReconcile | src/sentum/trader/order/LiveOrderSession.hpp:81-93 | succeeds iff the confirmation is right, the session is started, both reconciliations and the stream succeed and every listed order is resolved; otherwise the switch keeps its value |
| LiveOrderSession.LiveOrderSession.RecoverStream | src/sentum/trader/order/LiveOrderSession.hpp:99-112 | ready afterwards iff everything succeeded and the switch is not set |
| LiveOrderSession.LiveOrderSession.Supervise | src/sentum/trader/order/LiveOrderSession.hpp:114-130 | a failed keepalive kills, cancels, reconciles and leaves the session not ready |
| RiskManager.ApprovedExactly | src/sentum/trader/risk/RiskManager.hpp:22-43 | approved iff a timely buy signal at a positive price whose largest affordable whole number of steps passes the exchange filters, and with exactly that quantity |
| RiskManager.LargestIsUnique | src/sentum/trader/risk/RiskManager.hpp:35-36 | there is only one largest affordable whole number of steps |
| SimulatedVenue.SimulatedVenue.Submit | src/sentum/trader/execution/SimulatedExecutionVenue.hpp:27-51 | fills iff ready and the order valid, the whole quantity of the request, with consecutive ids, at the market time and the touch price moved by the slippage |
| SimulatedVenue.SimulatedVenue.SetFillModel | src/sentum/trader/execution/SimulatedExecutionVenue.hpp:71-74 | costs below zero count as zero |
| SimulatedVenue.FillsAreAdverse | src/sentum/trader/execution/SimulatedExecutionVenue.hpp:31-36 | a buy never fills below the market, a sell never above it |
| SimulatedVenue.CostsExactly | src/sentum/trader/execution/SimulatedExecutionVenue.hpp:31-36 | without slippage buying and selling are the spread apart around the market price; slippage moves either by its share, against the order |
| TradeEngine.TradeEngine.EvaluateAt | src/sentum/trader/TradeEngine.cpp:131-198 | in place: the whole new state of one evaluation |
| TradeEngine.TradeEngine.ProcessEvent | src/sentum/trader/TradeEngine.cpp:112-123 | evaluates events of its symbol with a positive price that are not too old, and ignores all others |
| TradeEngine.TradeEngine.ClosePosition | src/sentum/trader/TradeEngine.cpp:200-223 | sells the held quantity, books the trade and its profit; a refused sale changes nothing |
| TradeHistory.TradeTimes | src/sentum/trader/TradeEngine.cpp:170-219 | over runs: every completed trade was opened by one evaluation and closed by a later one; its entry and exit times are theirs and those of its two fills |
| TradeHistory.TradeMoney | src/sentum/trader/TradeEngine.cpp:206-214 | gross profit, fees and net profit of every completed trade are those of its two fills |
| TradeHistory.CooldownIsKept | src/sentum/trader/risk/RiskManager.hpp:29-30 | over runs: from the evaluation that closes a position to the wall clock of the one that opens the next at least the cooldown goes by, unless the exit was at time 0 |
| TradeHistory.OpensExactly | src/sentum/trader/TradeEngine.cpp:139-155 | in every run a flat engine opens a position iff it evaluates the event, is neither paused nor stopped, the signal is a timely buy at a positive price after the cooldown, and the largest affordable quantity passes the filters |
| TradeHistory.CloseReasonExactly | src/sentum/trader/TradeEngine.cpp:137-196 | why a position is closed: a pending request first, then the stop, the take-profit price, the holding time |
| TradeEngineRun.Conservation | src/sentum/trader/TradeEngine.cpp:131-223 | in every state of every run: fills alternate buy and sell of equal quantity, all money moved is the total profit less the cost of the open position, the total is the sum over completed trades and the end of the metrics' equity curve, wins plus losses is their number |
| TradeEngineRun.WinsAgreeWithoutBreakEven | src/sentum/trader/TradeEngine.cpp:214 | engine and metrics count the same wins iff no trade broke even |
| TradeEngineRun.RunIsProfiled | src/sentum/trader/TradeEngine.cpp:168-193 | extremes, stop and take-profit of an open position are functions of the entry fill and of the quotes seen since |
| TradeEngineRun.TopAndBottomAreExtremes | src/sentum/trader/TradeEngine.cpp:189-193 | highest and lowest are attained bounds of the entry fill and all quotes seen |
| TradeEngineRun.OpenStaysExactly | src/sentum/trader/TradeEngine.cpp:131-198 | event by event in every run: an open position stays open iff the event is no evaluation, the venue cannot sell (stopped, or no price), or no close request is pending and the price lies strictly between the stop it leaves in force and the take-profit price, within the holding time |
| TradeEngineRun.OpenIsJustified | src/sentum/trader/TradeEngine.cpp:189-197 | over runs: while the venue refused no order since the entry, each quote seen by an open position lay strictly between the stop then in force and the take-profit price and before the holding limit |
| TrailingStop.RatchetExactly | src/sentum/trader/TradeEngine.cpp:189-192 | the stop never falls on any path that keeps the position open iff trailing is off or the trail is at most the stop-loss distance and at most 1 |
| TrailingStop.FirstRiseLowersStop | src/sentum/trader/TradeEngine.cpp:189-192 | with a longer trail a first rise lowers the stop, from any entry |
| TrailingStop.EveryRiseLowersStop | src/sentum/trader/TradeEngine.cpp:189-192 | with a trail beyond the whole price every further rise lowers it, from any entry |
| TrailingStop.StopNeverFalls | src/sentum/trader/TradeEngine.cpp:189-192 | under that condition the stop of an open position never falls from one state of a run to the next |
| TrailingStop.RatchetExactlyInRuns | src/sentum/trader/TradeEngine.cpp:168-198 | for an engine that can enter at all: in every run the stop of an open position never falls iff the condition holds |
| TradeEngineRun.SizingBound | src/sentum/trader/risk/RiskManager.hpp:32-42 | across risk manager, venue and engine: whole steps, one more step exceeds the capital at risk, and the gross loss from entry fill to initial stop is at most the capital at risk times (1 + spread/2)(1 + slippage) |
| TradeEngineRun.RequestsCountSinceEntry | src/sentum/trader/TradeEngine.cpp:137-141 | in every run, while a position is open, a close request is pending iff one came since its entry and no evaluation consumed it; what was requested before plays no part |
| TradeEngineRun.CloseByHandExactly | src/sentum/trader/TradeEngine.cpp:137-141 | an evaluation the venue can serve closes by hand iff such a request is pending |
| TradeEngineRun.LateRequestLeaks | src/sentum/trader/TradeEngine.cpp:137-141 | the evaluation after an entry closes by hand iff a request came late in the entry, after the pending one was dropped |
| TradeEngineRun.LateRequestCloses | src/sentum/trader/TradeEngine.cpp:137-141 | for every configuration and tick that can enter, and every next price: the run in which a late request closes the new position by hand |
| TradeEngineRun.RefusalsExactly | src/sentum/trader/TradeEngine.cpp:137 | a close by hand is refused iff trading was stopped or the price is not positive, and the request is lost |
| WalkForward.PlanFits | src/sentum/research/ResearchPlatform.cpp:186 | exactly datasets of at least 50 events get a layout; it has something to train on, to validate and to hold out: the holdout is its share rounded down but at least one event and at most two fifths, the initial training its share rounded down unless that leaves nothing to validate, and there are as many folds as configured, or as events remain, as wide as fit |
| WalkForward.FoldsTile | src/sentum/research/ResearchPlatform.cpp:190 | folds follow each other without gap from the initial training to the holdout |
| WalkForward.ValidationIsOrdered | src/sentum/research/ResearchPlatform.cpp:190 | an earlier fold's validation ends before a later fold begins |
| WalkForward.SeparationExactly | src/sentum/research/ResearchPlatform.cpp:190 | training ends purge plus embargo events before validation begins iff boundary plus embargo does not wrap |
| WalkForward.WrappingEmbargoOverlaps | src/sentum/research/ResearchPlatform.cpp:186-190 | a valid configuration and plan in which the embargo wraps and validation begins inside the training slice |
| WalkForward.Trial | src/sentum/research/ResearchPlatform.cpp:68-80 | unless the embargo wraps, validation events are replayed once and in order, and they are all events between initial training and holdout iff there is no embargo; every fold replays as follows |
| WalkForward.ReplayFold | src/sentum/research/ResearchPlatform.cpp:190 | training is exactly the events up to the purge before the boundary, no holdout event is read, the warm-up is exactly the lookback + 1 events before the first validated one; unless the embargo wraps, validation is exactly the events from the embargo after the boundary to the end of the fold, and every training event lies more than purge and embargo before every validation event |
| ResearchGrid.CheckedTrialCount | src/sentum/research/ResearchPlatform.cpp:50-60 | succeeds iff no dimension is empty and the product is within the bound, returns the product, and no intermediate product exceeds the bound |
| ResearchGrid.EnumerateTrials | src/sentum/research/ResearchPlatform.cpp:187 | the nested loops produce the specified enumeration |
| ResearchGrid.TrialsAreCounted | src/sentum/research/ResearchPlatform.cpp:187 | the number of enumerated sets is the checked count |
| ResearchGrid.TrialsAreCombinations | src/sentum/research/ResearchPlatform.cpp:187 | a parameter set is enumerated iff each value is in its dimension |
| ResearchGrid.TrialAt | src/sentum/research/ResearchPlatform.cpp:187 | the order that numbers the trials: the combination at any positions of the dimensions stands at their place in mixed radix, lookbacks slowest |
| ResearchWorkers.RunKeepsInv | src/sentum/research/ResearchPlatform.cpp:189-190 | in every interleaving a claimed trial is with exactly one worker or finished with its own result |
| ResearchWorkers.AllWorkersTerminate | src/sentum/research/ResearchPlatform.cpp:189-190 | a run is stuck iff all workers stopped, and that is after exactly two steps a trial and one a worker |
| ResearchWorkers.SchedulingIndependence | src/sentum/research/ResearchPlatform.cpp:189-190 | for any worker count and interleaving each trial is evaluated once and slot i holds the result of parameter set i |
| ResearchSelection.Leaderboard | src/sentum/research/ResearchPlatform.cpp:191 | the ranking, cut to its size, is ordered by the comparison with ties in favour of the earlier trial |
| ResearchSelection.BetterIsLexicographic | src/sentum/research/ResearchPlatform.cpp:191 | the comparison is the lexicographic one of eligibility, validation score, deflated sharpe, stability and small overfit gap |
| ResearchSelection.Select | src/sentum/research/ResearchPlatform.cpp:192 | a trial is selected, and the holdout evaluated, iff an eligible trial exists; it is the lexicographically best, earliest eligible one |
| ResearchSelection.BestIsUnique | src/sentum/research/ResearchPlatform.cpp:191-192 | there is only one such trial, so the leaderboard size does not matter |
| Quantiles.QuantileGrows | src/sentum/research/ResearchPlatform.cpp:85-91 | quantiles grow with the probability |
| Quantiles.QuantileEnds | src/sentum/research/ResearchPlatform.cpp:85-91 | probabilities 0 and 1 give the least and the greatest value |
| Quantiles.QuantileInterpolates | src/sentum/research/ResearchPlatform.cpp:85-91 | on an entry of the sorted values the quantile is that entry, between two it moves in proportion |
| Quantiles.QuantileIsWithin | src/sentum/research/ResearchPlatform.cpp:85-91 | every quantile lies between them |
| Quantiles.IntervalIsOrdered | src/sentum/research/ResearchPlatform.cpp:93-96 | lower is at most median is at most upper for every confidence level from 0 up; the ends are quantiles that leave out equally much on either side and are the confidence apart |

## Left out

- Rounding of doubles, infinities and NaN: arithmetic is over the reals; sharpe, sortino, deflated sharpe, volatility and correlation values need roots and logarithms and enter as given numbers.
- Weak memory: the ring and the pools are interleaved sequentially consistently.
- KlineMessages.NoOverflow: beyond 18 digits the signed accumulator would overflow, which the source language leaves undefined; `KlineParser` then computes the unbounded value.
- KlineMessages.RoundTrip: strings with quotes or escapes and messages with blanks are outside the printed format, as the scanner does not support them. Messages in which something before a member hides it are excluded, as the scanner then reads that (`KlineMessages.LookupExactly`, `KlineMessages.NestedKeyWins`).
- MarketDataStore.MarketDataStore.GetOrCreate: in the class the two lock sections are one step; their interleaving is the subject of `MarketDataStoreThreads`.
- MarketDataStore.MarketDataStore.RegisterSymbol: creation and binding are one step in the class, and separate steps in `MarketDataStoreThreads`.
- MarketDataStore.MarketDataStore.Upsert: `symbols` and `size` would only add easy members; the capacity is at least 1, as 0 divides by zero; in `MarketDataStoreThreads` a buffer is its whole log.
- Metrics.Calculate: sharpe and sortino need square roots and are not part of the result; the slippage sensitivity is a number passed through.
- TimeframeAggregator.SlowFramesMergeFastFrames: bucket division nests on both sides of the epoch, but before it the fast frames themselves can be wrong (`TimeframeAggregator.AgreesExactly`), and nothing is claimed of merging wrong frames.
- Indicators.RollingReturnIsCumulativeReturn: a window longer than the ring, for which the store looks at fewer candles; candles that replace one another, which the strategy sees as two prices.
- Collector.HandOff: items pushed after the last emptiness test have no guarantee in the code, and none is claimed; failed database writes lose their batch, which the hand-off counts as handed.
- OrderManager.OrderManager.OnUserDataEvent: the `updated_at` times.
- OrderProtocol.NextKeepsInv: loading the handler and calling it is one step; the stream mutex, which only forbids interleavings, is not modelled; a submit already past the kill check when the switch is set may still call the exchange, and no claim excludes it.
- LiveOrderSession.LiveOrderSession.Start: metadata cache, account and order snapshots, credentials and the external handler, which is a passive observer.
- TradeEngine.TradeEngine.EvaluateAt: the microseconds in client order ids, the descriptive strings and flags of a position, logging, the dashboard and the history database.
- WalkForward.Trial: what a strategy and an engine compute on the events; only which events they read.
- ResearchWorkers.SchedulingIndependence: a trial that throws ends the process.
- ResearchSelection.Select: the library's stable sort is modelled by an insertion sort; stability and `calculate_stability` values enter as given.
- PortfolioRun.FilterCandidates: candidates enter already sorted by entry time; per-asset engines, correlations and volatilities are inputs.
- Monte Carlo, bootstrap and regime statistics: they depend on random picks and logarithms.
- `EnsembleStrategy`, `MomentumStrategy` and the other strategies, `StrategyFactory`: a strategy is a source of signals here.
- `TestnetStrategyRuntime`, `ExecutionEngine`, REST, WebSocket, SQLite, user interface, configuration files, model promotion, exchange metadata and filters.

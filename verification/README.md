# Verified model of the trading bot's core

This project models, in Dafny, the parts of the trading bot that keep state or do arithmetic worth
worrying about, and proves what they are relied on for:

- the depth-limited order book and how much of the unlimited book survives in it (`Levels`,
  `OrderBooks`, `Truncation`, `KrakenHandlers`);
- the protocol that keeps a local Binance book in step with the server: buffer, snapshot, replay,
  follow, detect a gap, start again (`Resync`, `BufferGaps`,
  `StaleMessages`, `Notifications`, `BinanceStreams`);
- the account manager's reservation ledger (`AccountBalances`, `Ledgers`, `LedgerTotals`,
  `AccountManagers`);
- the backtest exchange: latency of market orders, three queues edited while they are scanned,
  balances (`Simulations`, `Latencies`, `Placements`, `FillPrices`, `Overdrafts`, `BacktestClients`, `Decimals`);
- the minute-by-minute replay of recorded data to any number of listeners (`Replays`, `ReplayBooks`, `FanOuts`,
  `TickerProducers`);
- the Python book: uncrossing and grouping (`PythonBooks`, `PythonHistories`, `Groupings`);
- matching and pricing of arbitrage orders (`Arbitrages`);
- relative strength, rolling mean and the market making signal (`Indicators`, `SmoothingWeights`, `Signals`);
- the precision of a decimal string (`Precisions`).

Code that changes its fields step by step is modelled by classes, with the loops and the branches of
the original; each method is proved equal to a function of the old state, and the results are lemmas
about those functions, over all inputs and whole runs. A list the original edits in place is a `seq`
field. Volumes, prices, balances and fees are `real`, so rounding plays no part. Prices are reals in
the C++ book as well, where they are whole ticks: only their order is used, and one model then serves
the C++ and the Python book. Ghost fields (evicted prices, highest update id, fills, calls of
listeners) record history for the proofs and influence nothing.

What comes from outside is a parameter: decoded messages, the answer to a snapshot request if it is
there, the exchange's answers to order and balance requests, the documents read, uninitialised fields.

## Findings

- The buffer of depth events is replayed without a gap test, so a gap in it goes unnoticed
  (`BufferGaps.BufferGapGoesUnnoticed`). For messages in order the replayed book is sure to be the
  server's exactly if no id is missing between the events replayed (`BufferGaps.ReplayAgreesIff`).
  A gap between live messages is always noticed, and there no order of events is needed at all.
- A snapshot newer than the current message is overwritten with messages it contains already, because
  the live path does not skip them: the listener is shown a best bid the server no longer has
  (`StaleMessages.StaleMessageShown`). Until the messages reach the snapshot, the book is sure to be
  the server's exactly if the messages end with what the snapshot says, at every price they write and
  the depth limit has not touched (`StaleMessages.BehindAgreesIff`); from then on it always is
  (`Resync.CaughtUpIff`).
- Of consecutive resting orders that a quote reaches, the second, fourth and so on are passed over
  until the next ticker (`Simulations.EverySecondPassedOver`, and a run with two of them in
  `Simulations.ReachedAndPassedOver`), because the erasing loop does not step its index back.
- A limit order that crosses the mid price on arrival trades at the quote, not at its limit, on
  either side (`FillPrices.ArrivalMayMissLimit`); it does no worse than its limit exactly if the
  quote with slippage has reached it (`FillPrices.ArrivalAtLimitIff`).
- A market order whose pair has no ticker by its deadline fills at a quote from after the deadline
  (`Latencies.FilledAtTheDeadline` covers both cases; a run in `Latencies.QuoteAfterDeadline`).
- Funds are looked at when a limit order is placed and not set aside, so two accepted orders can
  overdraw the account (`Overdrafts.TwoPurchasesOverdraw`). No total is ever negative if every order is
  placed only when the totals cover what all open orders can take (`Overdrafts.FundedNeverOverdrawn`).
- The ledger drifts by exactly the difference if a NEW report carries another quantity or price than
  was stored, or if `Initialize` runs again while external orders are held (`Ledgers.StepDrift`;
  with inputs in `Ledgers.NewWithoutPriceDrifts` and `Ledgers.SecondInitializeDrifts`).
- A REJECTED report does not release an own order (`Ledgers.HeldAfterUpdate`).
- A second application of an update to a full book can change it (`FanOuts.OnePriceTooMany`), and a
  book update is applied once per listener. With at most `depth` prices in book and update together it
  cannot, and no larger bound will do (`FanOuts.IdempotentIff`).
- The first book update of a stream is taken to list a bid: the producer reads the precisions of the
  new book from it, which is undefined if there is none (`Replays.FirstBidsReadIff`).
- Minute 0 doubles as "no minute yet", so events of minute 0 are held with the next minute's
  (`Replays.ReplayChronological` states exactly when that withholds them).
- The sum of a moving average is not initialised by construction, only by `Reset`, which the signal
  never calls; every average is then off by a constant (`Indicators.SimpleMovingAverage.MeansIff`).
- A flat price series has relative strength 100 in both directions (`Indicators.StrengthMirrorIff`).

## Model

| member | source | states |
|---|---|---|
| OrderBooks.OrderBook.UpsertBid | src/model/order_book.h:105-124 | Replaces or inserts a bid at its place by a scan from the worst and evicts the worst above the depth; the ask side stays |
| OrderBooks.OrderBook.UpsertAsk | src/model/order_book.h:131-150 | The same for asks, whose order is reversed; the bid side stays |
| OrderBooks.OrderBook.Delete | src/model/order_book.h:227-236 | The backward scan removes the last level at the price, or nothing |
| OrderBooks.OrderBook.DeleteBid | src/model/order_book.h:152-154 | The bid at the price goes; the book stays sorted |
| OrderBooks.OrderBook.DeleteAsk | src/model/order_book.h:156-158 | The ask at the price goes; the book stays sorted |
| OrderBooks.OrderBook.Clear | src/model/order_book.h:160-163 | Both sides are empty afterwards |
| OrderBooks.OrderBook.GetBestBid | src/model/order_book.h:168-173 | The highest bid held, or the null level |
| OrderBooks.OrderBook.GetBestAsk | src/model/order_book.h:175-180 | The lowest ask held, or the null level |
| OrderBooks.OrderBook.Update | src/model/order_book.h:194-216 | All bid writes and then all ask writes, in order; volume zero deletes |
| Levels.PlaceIsUpdate | src/model/order_book.h:105-120 | An insertion is a map update on a sorted list: exactly one level at the price afterwards, all others untouched, length grown by one only if the price is new |
| Levels.RemoveIsDelete | src/model/order_book.h:227-236 | A deletion leaves exactly the levels at other prices, sorted |
| Levels.SortedUnique | src/model/order_book.h:239-242 | A sorted side is determined by the set of its levels |
| Levels.ApplyAllWrites | src/model/order_book.h:194-216 | At every price better than all evicted ones the truncated list shows the last write, or the old volume where there is none |
| Truncation.TruncationBound | src/model/order_book.h:105-158 | After any run with k deletes the best min(F, max(0, depth - k)) levels of the unlimited book F are, in order, the last levels of the list |
| Truncation.NoDeletesExact | src/model/order_book.h:105-150 | Without deletes the list is exactly the best `depth` levels |
| Truncation.BestIsUnique | src/model/order_book.h:239-242 | There is only one list of the n best levels of a book, so the two results above fix the list |
| Truncation.BoundIsReached | src/model/order_book.h:105-158 | For every depth and every k up to it some run leaves only depth - k levels of a book of `depth`: the bound is sharp |
| KrakenHandlers.OnOrderBookSnapshot | src/websocket/kraken_order_book_handler.hpp:38-53 | Clears the book and upserts asks, then bids |
| KrakenHandlers.OnOrderBookUpdate | src/websocket/kraken_order_book_handler.hpp:55-92 | Applies ask writes, then bid writes; volume zero deletes. Fails exactly if the checksum is to be checked, one came with the message, and it is not that of the resulting book, best levels first |
| KrakenHandlers.SnapshotIsBest | src/websocket/kraken_order_book_handler.hpp:38-53 | After a snapshot each side is exactly the best `depth` levels of what the snapshot lists |
| KrakenHandlers.ChecksumOrder | src/websocket/kraken_order_book_handler.hpp:116-132 | The checksum reads the best ask first and the worst bid last |
| KrakenHandlers.LevelIsPriceThenVolume | src/websocket/kraken_order_book_handler.hpp:119-128 | A level is read as its price, then its volume in units of the precision |
| KrakenHandlers.StoredAsSent | src/websocket/kraken_order_book_handler.hpp:57-78 | A level that fits is stored as it came, timestamp included |
| BinanceStreams.BinanceOrderBookStream.constructor | src/websocket/binance_order_book_stream.hpp:34-40 | An opened connection has an empty book and a snapshot requested |
| BinanceStreams.BinanceOrderBookStream.OnMessage | src/websocket/binance_order_book_stream.hpp:46-107 | One step of the protocol: buffer, or install and follow, or clear and request again; also every book shown to the listener |
| BinanceStreams.BinanceOrderBookStream.InstallSnapshot | src/websocket/binance_order_book_stream.hpp:55-88 | Loads the snapshot, replays the buffer from the covering event on and empties it |
| BinanceStreams.BinanceOrderBookStream.LoadSnapshot | src/websocket/binance_order_book_stream.hpp:58-61 | Takes over the snapshot's id and levels and shows the book |
| BinanceStreams.BinanceOrderBookStream.SearchBuffer | src/websocket/binance_order_book_stream.hpp:65-71 | The first buffered event that covers the id after the snapshot's, or the length |
| BinanceStreams.BinanceOrderBookStream.ReplayFrom | src/websocket/binance_order_book_stream.hpp:75-84 | Applies the later events in order, skipping those the snapshot contains, and shows each book |
| BinanceStreams.BinanceOrderBookStream.ApplyUpdate | src/websocket/binance_order_book_stream.hpp:102-106 | Takes over the event's last id and its levels and shows the book |
| Resync.EventUpToDate | src/websocket/binance_order_book_stream.hpp:95-106 | The gap test alone keeps the invariant, for stale and overlapping events too: prices untouched since `previous` hold the server's value at the highest id applied |
| Resync.ReplayUpToDate | src/websocket/binance_order_book_stream.hpp:62-84 | Replaying a gap-free buffer from the covering event keeps the invariant at every book shown |
| Resync.StepSound | src/websocket/binance_order_book_stream.hpp:46-107 | Every step of the protocol keeps the invariant, resyncs included |
| Resync.ResyncCorrect | src/websocket/binance_order_book_stream.hpp:54-106 | Over every run, whenever the previous id is the highest applied the book is the server's at that id, at every price better than the best one omitted by the snapshot or evicted |
| Resync.BestIsServersBest | src/model/order_book.h:168-180 | A book in step whose best level is visible shows the server's own best price and volume |
| Resync.SearchCases | src/websocket/binance_order_book_stream.hpp:65-74 | Over a contiguous buffer the search finds the unique covering event, or the buffer lies wholly before or wholly after the snapshot |
| Resync.NoHole | src/websocket/binance_order_book_stream.hpp:62-101 | A new snapshot is requested exactly if the one received is older than the oldest event at hand; otherwise the book ends in step unless the snapshot is newer than the current message |
| Resync.CaughtUpIff | src/websocket/binance_order_book_stream.hpp:54-106 | Over every run with contiguous messages the previous update id is the highest one applied exactly once it has reached the snapshot's, and then the book is the server's; before that see `StaleMessages.BehindAgreesIff` |
| Notifications.MessageShows | src/websocket/binance_order_book_stream.hpp:54-106 | What each message adds to the books shown: none when buffered or when it leaves a gap, otherwise exactly one, the book with its writes on both sides |
| Notifications.InstallShows | src/websocket/binance_order_book_stream.hpp:58-85 | An installation shows the snapshot's book, then one book for each buffered event replayed, those with a final id above the snapshot's |
| Notifications.LastShownIsCurrent | src/websocket/binance_order_book_stream.hpp:105-106 | Over every run, while the stream follows live the last book shown is the current one |
| BufferGaps.ReplayAgreesIff | src/websocket/binance_order_book_stream.hpp:62-85 | For buffered messages in order: every server that explains them has the replayed book, exactly if the events replayed have no gap |
| BufferGaps.BufferGapGoesUnnoticed | src/websocket/binance_order_book_stream.hpp:75-84 | A concrete run of truthful messages with a gap inside the buffer that ends in step by its ids with a wrong best bid |
| StaleMessages.BehindAgreesIff | src/websocket/binance_order_book_stream.hpp:94-106 | Over every run with contiguous messages that have not reached the snapshot: every server that explains them has the shown book at the snapshot's id, exactly if they end with the snapshot's values at the prices they write and the depth limit has not touched |
| StaleMessages.StaleMessageShown | src/websocket/binance_order_book_stream.hpp:94-106 | A concrete run of truthful messages in which the listener is shown a best bid older than the snapshot |
| AccountBalances.AccountBalance.GetFreeBalance | src/model/account_balance.h:77-79 | Total less locked, absent assets counting as zero |
| AccountBalances.AccountBalance.SetTotalBalance | src/model/account_balance.h:81-83 | Sets one total and nothing else |
| AccountBalances.AccountBalance.SetLockedBalance | src/model/account_balance.h:85-87 | Sets one locked amount and nothing else |
| AccountBalances.AccountBalance.AddBalance | src/model/account_balance.h:89-95 | Adds to one total, absent counting as zero |
| AccountBalances.AccountBalance.UpdateTotalBalance | src/model/account_balance.h:105-109 | Replaces the listed totals; other totals and all locked amounts stay |
| AccountManagers.AccountManagerImpl.Initialize | src/exchange/account_manager_impl.cc:22-41 | Forgets the external orders and takes over the open ones of known pairs |
| AccountManagers.AccountManagerImpl.RefreshAccountBalance | src/exchange/account_manager_impl.cc:43-69 | Totals become the fetched ones; each locked amount the fetched one plus all reservations |
| AccountManagers.AccountManagerImpl.LockAll | src/exchange/account_manager_impl.cc:55-64 | Adds the reservations of a map of orders, in any order of iteration |
| AccountManagers.AccountManagerImpl.MarketOrder | src/exchange/account_manager_impl.cc:77-94 | Stores an accepted order and reserves for it; a refusal changes no balance |
| AccountManagers.AccountManagerImpl.LimitOrder | src/exchange/account_manager_impl.cc:96-111 | The same at the requested price |
| AccountManagers.AccountManagerImpl.OnAccountBalanceUpdate | src/exchange/account_manager_impl.cc:149-156 | Replaces the reported totals only |
| AccountManagers.AccountManagerImpl.OnOrderUpdate | src/exchange/account_manager_impl.cc:158-186 | Ignores unknown pairs; own orders are updated, others handled as external |
| AccountManagers.AccountManagerImpl.UpdateOurOrder | src/exchange/account_manager_impl.cc:227-268 | The effect of each status on an own order and on the balance |
| AccountManagers.AccountManagerImpl.HandleExternalOrder | src/exchange/account_manager_impl.cc:270-313 | The effect of each status on an external order and on the balance |
| AccountManagers.AccountManagerImpl.AdjustLockedBalance | src/exchange/account_manager_impl.cc:323-340 | Quantity times price of the quote asset for a purchase, quantity of the base asset for a sale |
| AccountManagers.AccountManagerImpl.AdjustBalanceClosedOrder | src/exchange/account_manager_impl.cc:342-365 | Releases the reservation and books the executed amounts |
| AccountManagers.AccountManagerImpl.GetFreeBalance | src/exchange/account_manager_impl.cc:207-213 | In a balanced ledger: the total less what the open orders reserve |
| AccountManagers.AccountManagerImpl.HasOpenOrdersOf | src/exchange/account_manager_impl.cc:195-205 | Whether an own order of the pair is held |
| Ledgers.StepDrift | src/exchange/account_manager_impl.cc:22-186 | By exactly how much each operation moves a locked amount away from the sum over the open orders |
| Ledgers.NewWithoutPriceDrifts | src/exchange/account_manager_impl.cc:232-235 | A concrete run for every purchase: a NEW report with price 0 leaves its whole cost locked for no order |
| Ledgers.SecondInitializeDrifts | src/exchange/account_manager_impl.cc:22-41 | A concrete run for every open order: `Initialize` twice locks it twice |
| Ledgers.StepBalancedIff | src/exchange/account_manager_impl.cc:22-186 | The operations that keep the locked balance equal to the sum are exactly those that meet a condition known before the call |
| Ledgers.RefreshKeepsLocked | src/exchange/account_manager_impl.cc:43-69 | A refresh leaves a locked amount unchanged exactly if the fetched balance brought none |
| Ledgers.RunBalanced | src/exchange/account_manager_impl.cc:43-340 | Over every run of such operations the locked balance of every asset is the sum over own and external orders |
| Ledgers.OrderlyBalanced | src/exchange/account_manager_impl.cc:43-340 | The same for every run against an exchange that issues fresh ids, echoes orders as stored and reports no locked amounts |
| Ledgers.SingleOwner | src/exchange/account_manager_impl.h:89-96 | No id is ever an own and an external order at once |
| Ledgers.EndedStaysOut | src/exchange/account_manager_impl.cc:241-264 | Once filled, canceled or expired, an order is in neither map for the rest of the run |
| Ledgers.HeldAfterUpdate | src/exchange/account_manager_impl.cc:158-313 | Exactly which orders are still held after an update |
| Ledgers.ReleasedOnce | src/exchange/account_manager_impl.cc:158-186 | A terminal report delivered again, any time later, changes nothing |
| Ledgers.FillKeepsFree | src/exchange/account_manager_impl.cc:241-247 | Filling an own order leaves the free amount of the reserved asset as it was and adds what was bought or received to the other |
| LedgerTotals.OnlyFillsMoveTotals | src/exchange/account_manager_impl.cc:228-269 | A report on an own order changes a total only if the order was filled, then by its quantity and its quantity times price; a cancellation or expiry releases the reservation and books nothing |
| LedgerTotals.TotalsAddUp | src/exchange/account_manager_impl.cc:22-186 | Over every run each total is the one last reported or fetched, plus what own orders filled since have traded, plus what the reports that ended external orders said |
| LedgerTotals.StoredAfterUpdate | src/exchange/account_manager_impl.cc:228-269 | Which fields of an own order a report that does not end it changes |
| LedgerTotals.SyncedIff | src/exchange/account_manager_impl.cc:43-111 | Synced exactly from the first placement, refused or not, or refresh on |
| BacktestClients.BacktestExchangeClient.MarketOrder | src/backtest/backtest_exchange_client.hpp:69-92 | A new id, a request stamped with the last arrival time, no check of funds |
| BacktestClients.BacktestExchangeClient.LimitOrder | src/backtest/backtest_exchange_client.hpp:94-107 | A new id; the order is accepted if the funds are there |
| BacktestClients.BacktestExchangeClient.AddLimitOrder | src/backtest/backtest_exchange_client.hpp:228-241 | Accepted as new exactly if the free balance covers it |
| BacktestClients.BacktestExchangeClient.CanExecuteOrder | src/backtest/backtest_exchange_client.hpp:211-225 | The free balance covers the quantity sold or the notional bought |
| BacktestClients.BacktestExchangeClient.OnBookTicker | src/backtest/backtest_exchange_client.hpp:185-199 | The three passes in order, then the ticker becomes the last one; other exchanges only move the clock |
| BacktestClients.BacktestExchangeClient.HandlePendingMarketOrders | src/backtest/backtest_exchange_client.hpp:243-264 | Due market orders fill at the previous ticker and leave the queue; all others stay in order |
| BacktestClients.BacktestExchangeClient.HandlePendingLimitOrders | src/backtest/backtest_exchange_client.hpp:307-350 | Due limit orders fill or start to rest; all others stay in order |
| BacktestClients.BacktestExchangeClient.HandleLimitOrders | src/backtest/backtest_exchange_client.hpp:352-401 | The erasing loop computes the resting pass, balances and order of the queue included |
| BacktestClients.BacktestExchangeClient.ExecuteMarketOrder | src/backtest/backtest_exchange_client.hpp:266-305 | Moves quantity and cost, slippage and fee included, between base and quote |
| BacktestClients.BacktestExchangeClient.FillResting | src/backtest/backtest_exchange_client.hpp:362-399 | The same without slippage |
| Simulations.Conservation | src/backtest/backtest_exchange_client.hpp:228-401 | After any run each order occurs among waiting, resting and filled as often as it was accepted, and every balance is the initial one plus the signed amounts of the fills |
| Simulations.ExactlyOnePlace | src/backtest/backtest_exchange_client.hpp:69-107 | Each accepted order is in exactly one place, and there once: none lost, none filled twice |
| Simulations.EverySecondPassedOver | src/backtest/backtest_exchange_client.hpp:357-400 | Of each stretch of consecutive reached orders exactly the first, third, fifth and so on fill, in queue order; all others stay resting in order |
| Placements.MarketOrderFate | src/backtest/backtest_exchange_client.hpp:69-264 | Every filled market order was placed by some action with its quantity and numbered id; its time is counted from the last ticker before that action, with twice the latency and the delay |
| Placements.LimitOrderFate | src/backtest/backtest_exchange_client.hpp:94-350 | Every limit order arrives with the first ticker of its pair after its time, and fills there exactly if its price is at least as near to the opposite quote as to its own side's; otherwise it rests |
| Placements.FillsInOrder | src/backtest/backtest_exchange_client.hpp:185-199 | On one ticker market orders fill first, then limit orders that arrive, then resting ones |
| Placements.AcceptedIff | src/backtest/backtest_exchange_client.hpp:94-241 | After any run a limit order is accepted exactly if what the fills have left of the asset it gives covers it |
| Simulations.ReachedAndPassedOver | src/backtest/backtest_exchange_client.hpp:357-400 | A concrete run with two equal purchases reached by the same quote, of which the second stays resting |
| Overdrafts.FundedNeverOverdrawn | src/backtest/backtest_exchange_client.hpp:211-401 | Over every run no total is negative, if each order is placed only when the totals cover the most that it and the open orders can take, fees and slippage included |
| Overdrafts.TwoPurchasesOverdraw | src/backtest/backtest_exchange_client.hpp:211-241 | A concrete run in which two purchases pass the test of funds and take the balance from 10 to -10 |
| Decimals.ParsePrint | src/backtest/backtest_exchange_client.hpp:71-72 | Printing a counter as an id can be undone, so ids are distinct |
| Latencies.FilledAtTheDeadline | src/backtest/backtest_exchange_client.hpp:243-264 | With T = creation + 2 latency + delay: a market order filled at the last ticker up to T, on the first one after T; if none came by T, at the first of all on the second |
| Latencies.QuoteAfterDeadline | src/backtest/backtest_exchange_client.hpp:249-258 | A concrete run in which an order due at 0 fills at the quote of 5, when the next one arrives |
| Latencies.NoneOverdue | src/backtest/backtest_exchange_client.hpp:243-264 | No market order is still waiting once a ticker after T could have filled it |
| FillPrices.RestingAtLimitOrBetter | src/backtest/backtest_exchange_client.hpp:363-398 | A resting order never fills worse than at its limit, fee included |
| FillPrices.EveryFillMoves | src/backtest/backtest_exchange_client.hpp:266-401 | Over every run each fill moves the order's quantity of the base asset of its pair, and of the quote asset bid or ask times quantity, with slippage except for resting orders, after the fee |
| FillPrices.ReachedIff | src/backtest/backtest_exchange_client.hpp:360-398 | A resting order is reached exactly if filling it at the quote is no worse than at its limit |
| FillPrices.ArrivalMayMissLimit | src/backtest/backtest_exchange_client.hpp:322-344 | A concrete run in which a sale at 10 brings 9 and a purchase at 10 costs 11, both having crossed the mid price |
| FillPrices.ArrivalAtLimitIff | src/backtest/backtest_exchange_client.hpp:322-344 | Over every run a limit order that trades on arrival does no worse than its limit exactly if the quote with slippage has reached the limit, for sales and purchases |
| TickerProducers.MongoTickerProducer.Produce | src/db/mongo_ticker_producer.hpp:101-140 | Flushes each minute when a later one begins, never the last; the count is the number of events delivered |
| TickerProducers.MongoTickerProducer.FlushEvents | src/db/mongo_ticker_producer.hpp:142-172 | Delivers the events in order of arrival to every listener |
| TickerProducers.MongoTickerProducer.CallListeners | src/db/mongo_ticker_producer.hpp:156-169 | Calls each listener once, applying a book update before each call |
| TickerProducers.MongoTickerProducer.GetOrCreateOrderBook | src/db/mongo_ticker_producer.hpp:280-290 | The first book of the exchange and pair, created empty if there is none, for a first update that lists a bid |
| TickerProducers.MongoTickerProducer.SortByArrival | src/db/mongo_ticker_producer.hpp:148-154 | A chronological rearrangement of the same events |
| Replays.ReplayChronological | src/db/mongo_ticker_producer.hpp:101-172 | What is delivered is in global order of arrival, and is exactly the events before the last minute unless events of minute 0 are withheld; both directions |
| Replays.ListenersSeeReplay | src/db/mongo_ticker_producer.hpp:142-172 | Every listener gets all of it in that order |
| Replays.EachListenerGetsAll | src/db/mongo_ticker_producer.hpp:155-170 | A listener's share of the calls is the whole list of events |
| Replays.FirstBidsReadIff | src/db/mongo_ticker_producer.hpp:280-290 | Every first bid read to create a book is there exactly if the first update delivered of every stream lists one |
| Replays.FanOutIdempotent | src/db/mongo_ticker_producer.hpp:155-170 | With room for all prices, any number of listeners leaves and shows the same book as one |
| ReplayBooks.CallShows | src/db/mongo_ticker_producer.hpp:155-169 | A listener called with a book update is shown the stream's book with the writes of the update on both sides; the books of other streams stay |
| ReplayBooks.DeliveryShows | src/db/mongo_ticker_producer.hpp:142-172 | With room for its prices: each event is delivered to every listener once, in order, and each is shown the book of all updates of the stream so far, each applied once |
| FanOuts.RepeatedOnce | src/model/order_book.h:194-216 | Applying an update n times is applying it once, if the prices of book and update number at most `depth` |
| FanOuts.OnePriceTooMany | src/model/order_book.h:194-216 | For every positive depth and either side one price more than that makes the second application differ |
| FanOuts.IdempotentIff | src/model/order_book.h:194-216 | All books and updates with at most `bound` prices are unchanged by repetition exactly if `bound` is at most the depth |
| PythonBooks.OrderBook.UpsertBid | prediction/order_book.py:7-24 | Places the bid, trims to the depth and pops the asks it crosses; the book stays uncrossed |
| PythonBooks.OrderBook.UpsertAsk | prediction/order_book.py:27-44 | Places the ask, trims to the depth and pops the bids it crosses; the book stays uncrossed |
| PythonBooks.OrderBook.Delete | prediction/order_book.py:52-56 | The forward scan removes the level at the price, or nothing |
| PythonBooks.OrderBook.DeleteBid | prediction/order_book.py:46-47 | The bid at the price goes; the book stays uncrossed |
| PythonBooks.OrderBook.DeleteAsk | prediction/order_book.py:49-50 | The ask at the price goes; the book stays uncrossed |
| PythonBooks.OrderBook.GroupLevels | prediction/order_book.py:64-93 | The group volumes of both sides; an index error exactly if a side is empty |
| PythonBooks.OrderBook.GroupBids | prediction/order_book.py:70-80 | The nested loops over negative indices compute the greedy groups of the bids |
| PythonBooks.OrderBook.GroupAsks | prediction/order_book.py:82-92 | The nested loops over negative indices compute the greedy groups of the asks |
| PythonBooks.PopCrossedExact | prediction/order_book.py:22-24 | Exactly the opposite levels at or through the price go, and the rest keeps its order |
| PythonBooks.RunUncrossed | prediction/order_book.py:7-56 | Over every run both sides are sorted and within the depth, and every bid is below every ask |
| PythonBooks.UpsertKeepsBest | prediction/order_book.py:7-20 | An upsert leaves the level put and the levels at other prices, as many of the best as the depth allows |
| PythonHistories.ShownIffStanding | prediction/order_book.py:7-56 | Over every run with room for its prices a level is shown exactly if some edit put it and no later edit wrote its price or crossed it |
| PythonBooks.IntervalOfBest | prediction/order_book.py:65-68 | The width of a group is the given share of the mid of the highest bid and the lowest ask |
| Groupings.GreedyIsOptimal | prediction/order_book.py:69-92 | No partition into consecutive groups narrower than the interval has fewer groups |
| Groupings.GreedyIsPartition | prediction/order_book.py:69-92 | The groups are such a partition themselves |
| Groupings.SumsAddUp | prediction/order_book.py:69-92 | The group volumes add up to the volume of the side |
| Groupings.SumsAreVolumes | prediction/order_book.py:69-92 | Each sum is the volume of the levels of its own group |
| Groupings.AnchorsApart | prediction/order_book.py:69-92 | The best prices of successive groups lie at least one interval apart |
| Groupings.ProgressIff | prediction/order_book.py:73-79 | The inner loop advances exactly for a positive interval; for any other the outer one never ends |
| Arbitrages.FindMatch | src/strategy/arbitrage/arbitrage_strategy_matcher.cc:21-65 | The first highest positive bid and the first lowest ask, reported exactly if both exchanges have names and are configured and what the pair gains, fees and slippage included, is at least the margin on both trades |
| Arbitrages.ProfitIsSurplus | src/strategy/arbitrage/arbitrage_strategy_matcher.cc:67-76 | The profit is what selling at the bid less slippage and buying at the ask plus slippage leaves after fees and the margin on both; none unless both exchanges are configured |
| Arbitrages.PricesBreakEven | src/strategy/arbitrage/arbitrage_order_calculator.cc:59-90 | At the computed prices what selling brings equals what buying takes |
| Arbitrages.PricesWithinIff | src/strategy/arbitrage/arbitrage_order_calculator.cc:59-90 | Both prices lie between the quote and the price of no profit exactly for pairs that pay for their fees |
| Arbitrages.PricesByVolume | src/strategy/arbitrage/arbitrage_order_calculator.cc:59-90 | Each price lies between its ends in proportion to the bid side's average share of daily and book volume |
| Arbitrages.MatchCovers | src/strategy/arbitrage/arbitrage_strategy_matcher.cc:58-75 | Every match pays for its fees |
| Arbitrages.MatchedPricesSafe | src/strategy/arbitrage/arbitrage_order_calculator.cc:59-90 | For every match: ask <= buy <= (S/B) bid, (B/S) ask <= sell <= bid and S sell = B buy, with S and B the parts left by and added by the fees |
| Arbitrages.NeverLoses | src/strategy/arbitrage/arbitrage_order_calculator.cc:59-90 | Both legs filled at their limits or better never lose |
| Arbitrages.QuantityIsLargest | src/strategy/arbitrage/arbitrage_order_calculator.cc:29-57 | The quantities within 30% of both volumes and 90% of both balances are exactly those up to the computed one |
| Arbitrages.BuyLegAffordable | src/strategy/arbitrage/arbitrage_order_calculator.cc:29-88 | The reservation for the buy leg is in the quote balance if the bid exceeds the ask by at most a ninth, fees included |
| Arbitrages.AffordableIff | src/exchange/account_manager_impl.cc:327-333 | When the quote balance limits the quantity, the reservation fits exactly if the buy price is at most 10/9 of the ask |
| Indicators.CalculateRelativeStrength | src/strategy/indicator/relative_strength_index.cc:25-42 | The smoothing loop computes the recursive definition; no value for a series too short |
| Indicators.CalculateChanges | src/strategy/indicator/relative_strength_index.cc:13-21 | The change as a difference of two non-negative parts, one of them zero |
| Indicators.StrengthInRange | src/strategy/indicator/relative_strength_index.cc:25-42 | The index is between 0 and 100 for every series longer than the period |
| Indicators.SmoothedZeroIff | src/strategy/indicator/relative_strength_index.cc:33-40 | Both averages vanish exactly if the closes they cover are all the same |
| Indicators.StrengthMirrorIff | src/strategy/indicator/relative_strength_index.cc:25-42 | Negating the series turns r into 100 - r exactly unless the closes looked at are all the same |
| SmoothingWeights.SmoothedIsAverage | src/strategy/indicator/relative_strength_index.cc:33-40 | The smoothing loop is the average of the changes weighted by powers of (period - 1) / period |
| SmoothingWeights.StrengthIsShare | src/strategy/indicator/relative_strength_index.cc:25-42 | The index is the percentage of the weighted rises in all weighted changes of the last period + 1 closes |
| Indicators.SimpleMovingAverage.Update | src/strategy/indicator/simple_moving_average.hpp:10-21 | Adds the last close, drops the one a period before and stores the quotient; on a series that grew by one close the sum stays that of the last `period` closes and each stored value belongs to its window, up to what the sum started with |
| Indicators.SimpleMovingAverage.Reset | src/strategy/indicator/simple_moving_average.hpp:23-27 | Afterwards the sum has started at zero |
| Indicators.SimpleMovingAverage.MeansIff | src/strategy/indicator/simple_moving_average.hpp:10-27 | The j-th stored value is the mean of closes j to j + period - 1 exactly if the sum started at zero |
| Indicators.SimpleMovingAverage.SlopeIsDifference | src/strategy/indicator/simple_moving_average.hpp:33-54 | The slope is the newest close less the one that dropped out, over the period, whatever the sum started with |
| Signals.MarketMakingSignal.OnBookTicker | src/strategy/market_making/market_making_signal.cc:91-101 | The first quote of a later minute appends the last mid price and updates all three averages |
| Signals.MarketMakingSignal.Lockstep | src/strategy/market_making/market_making_signal.cc:91-99 | Once the longest average has a slope all have, and the strength index exists |
| Signals.MarketMakingSignal.Predict | src/strategy/market_making/market_making_signal.cc:27-81 | No missing value is accessed; confidence 0.04 for a turn at moderate strength, else 0 |
| Signals.MarketMakingSignal.ConfidentIff | src/strategy/market_making/market_making_signal.cc:40-81 | Confident at 0.04 exactly for a turn of the last close against the closes 21 and 55 earlier, means over 8, 21 and 55 in trend order, and rises that make up two to three fifths of the weighted changes |
| Precisions.PrecisionFromString | src/utils/string.cc:18-43 | An error exactly for what is not a numeral; otherwise the least number of places that makes the value whole |
| Precisions.TrailingZero | src/utils/string.cc:32-42 | A zero appended to the decimals changes neither value nor precision |

## Left out

- Everything that is I/O: HTTP, websockets, JSON, Mongo, logging, CSV; the models start from decoded values. The CRC function of Kraken checksums is a parameter.
- Reconnects: `OnOpen` resets neither book nor buffer; one connection is modelled, with any number of resyncs in it. Failed snapshot and balance requests end in exceptions and are not modelled.
- Widths and rounding: IEEE doubles, `quick_pow10`, and the 64-bit wrap-around of update ids and counters; the 32-bit minute of the signal is modelled.
- Two decimal prices that fall on one tick: levels are distinct by price once decoded.
- `GetLatestUpdateTimestamp`, `GetLastUpdate` and the ticker watcher of the stream.
- Backtest `CancelOrder`, open-order queries, the account-value log line, and user-data and balance callbacks, which could place orders while a queue is scanned.
- The order objects handed back by the placing calls, which have been moved from by then; only whether an order was accepted is modelled.
- Threads: operations under the order mutex are single steps; the spinlocks inside are not modelled.
- `ArbitrageStrategy::OnBookTicker`, the market making risk manager, the other exchange clients, candles, average true range, order book imbalance.
- Replays.UpdateBooks: books of the producer are values here, so aliasing between listeners and the stored book is not captured; nor is the precision taken from the first update.
- TickerProducers.MongoTickerProducer.GetOrCreateOrderBook: creates an empty book also for a first update without bids, where the original is undefined (`Replays.FirstBidsReadIff`).
- TickerProducers.MongoTickerProducer.SortByArrival: promises no order among events that arrived together, because the library sort does not.
- Arbitrages.FindMatch: asks are taken to be below the largest double, which the original starts its minimum from, and tickers to be filed under their own exchange names.
- PythonBooks.OrderBook.GroupLevels: requires a positive interval when neither side is empty, because the original never returns otherwise (`Groupings.ProgressIff`).
- Indicators.SimpleMovingAverage.Update: requires the closes it indexes to be there; the original asserts as much only in part.

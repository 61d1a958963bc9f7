# A verified model of the exchange simulator

This project models the core of an exchange simulator and proves what it does over every run. The
core is a limit order book with a matching engine. Around it are a lock-free queue, a framed TCP
connection, market-data and client replicas, a random number generator and two priority queues with
lazy deletion.

`dafny verify dfyconfig.toml` checks everything.

## How the model is built

**The order book has three layers.**

1. `OrderBook.dfy` is the engine in place. Each side has a fixed pool of 100,000 slots, an intrusive
   free list, 10,000 price levels that thread doubly linked queues through the same link fields, and
   a cached best-price index. The book adds a handle table and an id map. Its loops, re-scans and
   pointer updates are those of the source.
2. `BookModel.dfy` is the same book as a value: one sequence of orders per price, the free slots, the
   handle table, the id map and the cached index. Each method of the first layer is proved to compute
   the function of this layer. `Links.dfy` says when memory holds such a value.
3. The theorems are about runs of the second layer:
   - `PriceTime.dfy`, `Ranking.dfy`, `TimePriority.dfy` and `Fairness.dfy` cover price-time priority;
   - `BestPrice.dfy` covers the cached best price and crossing, `Assertion.dfy` the source's own check
     of them, and `Counterexamples.dfy` holds the runs on which they go wrong;
   - `Requests.dfy`, `Submissions.dfy` and `Messages.dfy` say what every request does to the lists of
     resting orders, what it reports and what each client is told, without the model's operations;
   - `IdIndex.dfy` covers the id map and the handle table;
   - `Ledger.dfy` covers conservation of volume.

A level is addressed by its rank, counted from the best price of its side, so that both sides share
one set of definitions. `Run(cs)` is the book after the requests `cs`, starting from the empty book.

**32-bit arithmetic is explicit.** Level totals are remainders modulo 2^32 and order ids wrap. The
shape invariant (`BookOk`, `Valid`) and the theorems about matching, best prices and crossing hold on
every run, wrapped totals included. A theorem that needs ids not to wrap says so.
`Ledger.SmallRunsNoWrap` shows that with less than 2^32 units of accepted volume no total wraps.

**Concurrent parts are step machines.** The ring (`Spsc.dfy`), the write pump (`WritePump.dfy`) and
the engine inbox (`EngineInbox.dfy`) are interleavings of single loads, stores and flag exchanges. A
theorem about a run holds for every interleaving. The same code also appears as classes
(`Spsc.SpscQueue`, `Connections.Connection`) in which one call runs at a time.

**Market data.** `MarketData.dfy` treats a replica as a map plus the prices it has been told about.
`ShadowBook.dfy` and `ClientReplica.dfy` are the two receiving classes, and `Replay.dfy` drives the
book object and the shadow book object together.

## What turned out not to hold

- **The cached best price can be wrong.** `amend_order` re-scans for a new best price whenever the
  amended level's total becomes 0, whichever level that is, while `cancel_order` first checks that it
  was the best one. `Counterexamples.AmendHidesBestBid` is a run of three requests after which no best
  bid is cached although a bid rests. A second way needs no amendment: two orders of 2^31 units make a
  32-bit total of 0, and a re-scan passes them (`Counterexamples.WrapHidesBids`).
  `BestPrice.ApplyKeepsBest` and `BestPrice.ExactThroughout` give the exact condition, for every book
  and every run. While totals do not wrap it is that no amendment takes the last order out of a level
  other than the cached best (`BestPrice.HidesUnwrapped`).
- **The book can be crossed.** `Counterexamples.HiddenBidCrosses` is such a run. A submission crosses
  the book if and only if it rests while orders of the other side within its limit are hidden
  (`BestPrice.ApplyCrossed`, `BestPrice.UncrossedThroughout`). A level is hidden when it has orders
  and is better than the cached best, or worse with a 32-bit total of 0.
- **The assertion at the end of a submission can fail**, as it does on
  `Counterexamples.AssertionFails`. It compares the cached best prices only, so it may hold of a
  crossed book. `Assertion.SubmitAsserts` says exactly when it holds after a submission.
  `Assertion.ApplyBreaks` says which request brings the cached prices together: only an amendment of a
  bid while no best bid is cached. `Assertion.AssertedThroughout` and `Assertion.ApartThroughout` are
  the same over whole runs.
- **Price-time priority can be violated** across prices, as on `Counterexamples.HiddenBidSkipped`. It
  is kept if and only if the greedy filling would not reach a hidden level
  (`Ranking.PriceTimePriority`, `Fairness.RunPriceTime`). Time priority at one price holds whatever the
  cached best (`TimePriority.NoQueueJumping`).
- **The engine's inbox can be stranded.** A connection that fills the inbox is disconnected, its
  disconnect message is refused too, and its notification no longer wakes the engine
  (`EngineInbox.FloodStrands`). From then on nothing is dispatched (`EngineInbox.StrandedForGood`).
  Frames of a read that was handled after a failed write had disconnected their connection wait until
  something else wakes the engine (`EngineInbox.LateFrameStrands`). `EngineInbox.RunAttended` gives the
  exact condition.
- **Endianness.** The repository's README (line 47) and a comment in `src/connectivity.cpp` (line
  239) call the wire format little-endian. The C++ code writes and reads the size field big-endian,
  and the model follows the code.

## Model

| member | source | states |
|---|---|---|
| Types.SumRemainingRemove | src/order_book.cpp:444 | Taking one order out of a queue lowers the queue's volume by exactly that order's remaining quantity. |
| Types.SumRemainingUpdate | src/order_book.cpp:548-550 | Changing one order in place changes the queue's volume by exactly the difference. |
| Matching.FillQueue | src/order_book.cpp:224-262 | Filling a queue makes progress whenever both sides have something, keeps the survivors sound, and leaves a residual only when the queue is exhausted. |
| Matching.FillConserves | src/order_book.cpp:227-232 | What the taker received equals what the makers gave, and both sums add up. |
| Matching.FillIsGreedy | src/order_book.cpp:224-232 | Closed form: maker i trades if and only if the makers ahead of it do not exhaust the taker, and then gets the smaller of its own quantity and what they leave. |
| Matching.FillKeeps | src/order_book.cpp:224-262 | Closed form of the survivors: exactly the makers the taker reaches the end of leave; the one at the taker's end keeps its place with the rest of its quantity; the others are untouched. |
| BookModel.PushBackOk | src/order_book.cpp:117-138 | Appending an order from the head of the free list keeps queues and free list a partition of the slots, every order at the level of its price and side. |
| BookModel.RemoveOk | src/order_book.cpp:569-585 | Removing any order and returning its slot keeps that partition. |
| BookModel.ScanFrom | src/order_book.cpp:163-187 | A re-scan finds the nearest level behind its start with a non-zero total, and passes only levels with total 0. |
| BookModel.AddedOk | src/order_book.cpp:95-161 | Adding keeps the side's invariant: best is the sentinel or a level with orders. |
| BookModel.CancelledOk | src/order_book.cpp:444-454 | So does cancelling. |
| BookModel.ReducedOk | src/order_book.cpp:548-564 | So does amending, although its re-scan is not limited to the best level. |
| BookModel.MatchOne | src/order_book.cpp:224-263 | One trade keeps the side's invariant and reduces what the taker still wants. |
| BookModel.MatchSide | src/order_book.cpp:207-265 | Matching ends on every input, because the best level always holds an order with something left, and keeps the invariant. |
| BookModel.MatchOneIndexes | src/order_book.cpp:247-260 | A trade changes the id map and the handle table only when it fills the maker, and then removes exactly the maker's entries. |
| BookModel.LookupFinds | src/order_book.cpp:403-426 | On every run an id is found exactly when it is mapped; it then leads to a resting order with that id and side, so the null-order branch and a failing id assertion are unreachable. |
| BookModel.ApplyOk | src/order_book.cpp:342-585 | Submit, cancel and amend keep the whole invariant for every input. |
| BookModel.Run | src/order_book.cpp:329-585 | The invariant holds after every run from the empty book, id wrap-around included. |
| PriceTime.MatchOneStep | src/order_book.cpp:224-260 | A trade takes the head of the best level, moves the best price at most towards worse prices, and neither hides nor uncovers any level. |
| PriceTime.MatchSideFrame | src/order_book.cpp:207-265 | Matching leaves levels beyond the limit and hidden levels alone, hides and uncovers nothing, and stops only with nothing left, no best price, or a best price beyond the limit. |
| PriceTime.MatchIsGreedy | src/order_book.cpp:189-309 | On every side, wrapped totals and wrong best prices included: the nested loops over levels and linked queues equal greedy filling of one list, the orders that are not hidden, in trades, residual and remaining book. |
| Ranking.RankedUnique | src/order_book.cpp:189-266 | A list sorted by price and then arrival is determined by the orders in it. |
| Ranking.PriceTimePriority | src/order_book.cpp:189-309 | Matching equals filling, up to the limit price, any list that sorts the resting orders by price and then arrival (same makers, quantities, residual and survivors) if and only if that list does not reach a hidden level. |
| Ranking.HiddenUntouched | src/order_book.cpp:207-265 | Matching never trades with a hidden level. |
| Ranking.ExactNeverMisses | src/order_book.cpp:163-187 | An exact best price with totals that do not wrap leaves nothing hidden to be reached. |
| Ranking.TradesAreFills | src/order_book.cpp:236-245 | On every run, whatever the cached best: the trade callbacks are the fills, each within the limit and on the maker's side, and they add up to what the taker received. |
| TimePriority.LevelFifo | src/order_book.cpp:224-254 | Whatever the cached best: every queue is filled from its front with exactly what traded at its price. |
| TimePriority.FilledInTurn | src/order_book.cpp:224-254 | In a queue with ascending ids, makers trade in ascending order and nobody older than a maker is left behind. |
| TimePriority.NoQueueJumping | src/order_book.cpp:224-254 | On every run of at most 2^32 accepted submissions, an order never trades while an earlier order at the same side and price is still resting. |
| Fairness.TradesWithinLimit | src/order_book.cpp:217-245 | On every run, every trade executes at the maker's price, within the taker's limit, against the other side, with positive quantity and the taker's id. |
| Fairness.RunPriceTime | src/order_book.cpp:342-394 | On every run of at most 2^32 accepted submissions, the next submission's trade callbacks are those of filling any price-time ranking of the other side if and only if that filling reaches no hidden level, and then the surviving book is what it leaves. |
| Fairness.RunNeverMisses | src/order_book.cpp:342-394 | On every run with exact best prices and totals that do not wrap, the filling reaches no hidden level. |
| BestPrice.PassedLevel | src/order_book.cpp:207-256 | Matching moves the best price past a level, hidden or not, if and only if everything offered up to that level is within the limit and not more than the taker wants. |
| BestPrice.PassedIff | src/order_book.cpp:207-256 | For a hidden level only what is offered before it matters. |
| BestPrice.MatchKeepsBest | src/order_book.cpp:207-256 | Matching keeps an exact best price exact if and only if it does not pass a hidden level. |
| BestPrice.CancelKeepsBest | src/order_book.cpp:444-454 | Cancelling keeps an exact best price exact if and only if it does not empty the best level with a wrapped total next behind it. |
| BestPrice.ReduceKeepsBest | src/order_book.cpp:548-558 | Lowering an order keeps an exact best price exact if and only if it does not bring a level's 32-bit total to 0 with orders left in front of the new best price. |
| BestPrice.ApplyKeepsBest | src/order_book.cpp:342-567 | From an exact book, whatever its totals, a request leaves an exact book if and only if it is not one of the requests that hide orders, a condition on the book before the request. |
| BestPrice.HidesUnwrapped | src/order_book.cpp:556-558 | While totals do not wrap, the requests that hide orders are exactly the amendments that take the last order out of a level other than the cached best. |
| BestPrice.RunExact | src/order_book.cpp:151-187 | On every run without a request that hides orders the cached indexes are exactly the highest non-empty bid and the lowest non-empty ask, and the book is not crossed. |
| BestPrice.ExactThroughout | src/order_book.cpp:556-558 | Over whole runs: the cached prices are exact at every point if and only if no request of the run hides orders. |
| BestPrice.MatchLeftover | src/order_book.cpp:207-265 | A taker is left with something if and only if less is offered within its limit than it wants; then exactly the hidden levels within the limit still have orders. |
| BestPrice.ApplyCrossed | src/order_book.cpp:342-394 | A request leaves an uncrossed book crossed if and only if it is a submission that finds a free slot, wants more than it is offered within its limit, and has hidden orders of the other side within its limit. |
| BestPrice.UncrossedThroughout | src/order_book.cpp:342-394 | Over whole runs: the book is uncrossed at every point if and only if the run has no such submission. |
| BestPrice.CrossingHides | src/order_book.cpp:342-394 | From an exact book, a request that crosses the book also hides orders, so exact runs are never crossed. |
| Assertion.AssertionMeaning | src/order_book.cpp:19-32 | The assertion at the end of a submission holds of every uncrossed book, and of a book with exact best prices it says exactly that the book is uncrossed. |
| Assertion.SubmitAsserts | src/order_book.cpp:365-393 | On every book: after an accepted submission the assertion holds if and only if no own best price was cached before it, or it takes everything the other side offers up to that price. |
| Assertion.ApplyBreaks | src/order_book.cpp:342-567 | A request breaks what the assertion says if and only if it is an effective amendment of a bid, while no best bid is cached and a best ask is, that brings its level's 32-bit total to 0 while another bid level with a positive total stands at or above that ask; submissions and cancellations never break it. |
| Assertion.ApartThroughout | src/order_book.cpp:556-558 | Over whole runs: the cached best prices are apart at every point if and only if the run has no such amendment. |
| Assertion.AssertedThroughout | src/order_book.cpp:393-393 | Over whole runs: no assertion fails if and only if every accepted submission meets the condition for its own assertion. |
| Counterexamples.AmendHidesBestBid | src/order_book.cpp:556-558 | Three concrete requests after which no best bid is cached although a bid rests. |
| Counterexamples.HiddenBidCrosses | src/order_book.cpp:342-394 | A fourth request that leaves a bid and an ask resting at the same price. |
| Counterexamples.HiddenBidSkipped | src/order_book.cpp:207-218 | After those three requests an ask at 100 makes no trade, while filling any price-time ranking of the resting bids makes one. |
| Counterexamples.AssertionFails | src/order_book.cpp:19-32 | Nine concrete requests, the last an accepted submission, after which the cached best bid is 100 and the cached best ask 60: the assertion fails, and its condition failed before the submission. |
| Counterexamples.WrapHidesBids | src/order_book.cpp:449-454 | Four concrete requests without an amendment after which the best bid is wrong: two orders of 2^31 units make a level total of 0, and a cancellation re-scans past them. |
| IdIndex.Counted | src/order_book.cpp:345-365 | Exactly the submissions with positive quantity and valid price receive an id; a rejected one changes nothing. |
| IdIndex.ApplyIndexed | src/order_book.cpp:371-389 | Every request keeps the id map and the handle table mutually inverse with the resting orders of both sides, and ids ascending along every queue. |
| IdIndex.RunIndexed | src/order_book.cpp:256-259 | That holds on every run of at most 2^32 accepted submissions. |
| IdIndex.LookupExact | src/order_book.cpp:403-426 | On those runs a lookup succeeds exactly for the ids of resting orders. |
| Ledger.ApplyVolume | src/order_book.cpp:342-567 | Each request balances: volume before plus incoming equals volume after plus twice the traded, the cancelled or amended away, and the dropped volume. |
| Ledger.RunVolume | src/order_book.cpp:105-139 | Over every run, accepted volume = 2 × traded + resting + cancelled or amended away + residuals dropped because the pool was full. |
| Ledger.SmallRunsNoWrap | src/types.hpp:9 | On every run that accepts less than 2^32 units in all, no 32-bit level total wraps. |
| Requests.TotalIsVolume | src/order_book.cpp:9-17 | The total a level holds is the volume of the orders resting at its price, on 32 bits. |
| Requests.CancelMeaning | src/order_book.cpp:401-460 | On every run of at most 2^32 accepted submissions, for a resting order: its owner's cancellation leaves the list of resting orders of that side without exactly that order and the other side as it was, and reports the volume left at the price and then the cancelled order; anybody else's changes nothing and is answered Unauthorised. |
| Requests.CancelUnknown | src/order_book.cpp:403-413 | If no order with that id rests, nothing changes and the caller is answered OrderNotFound. |
| Requests.CancelBest | src/order_book.cpp:449-454 | The cached best moves, to the next level that shows a total, exactly when the last order of the cached best level left. |
| Requests.AmendMeaning | src/order_book.cpp:462-567 | On the same runs: the owner may set any quantity from what has traded up to the present one; the order keeps its place with that quantity and what remains of it, or leaves when nothing remains; the other side is as it was; the reply carries the old quantity and that order, followed by the volume at the price if it changed. Other quantities are answered InvalidVolume, other callers Unauthorised, with nothing changed. |
| Requests.AmendUnknown | src/order_book.cpp:464-474 | If no order with that id rests, nothing changes and the caller is answered OrderNotFound. |
| Requests.AmendBest | src/order_book.cpp:556-558 | The cached best moves exactly when the amended level's 32-bit total becomes 0, to the next level behind the cached best that shows a total; with no best cached, the bid side starts over from the top and the ask side finds none. |
| Submissions.PoolShared | src/order.hpp:17-42 | The resting orders and the free slots of a side are 100,000 together, so a slot is free exactly when fewer orders rest. |
| Submissions.MatchReports | src/order_book.cpp:236-263 | Matching reports its trades in order and each level it traded at once, after the last trade there, with the volume left at that price. |
| Submissions.SubmitMeaning | src/order_book.cpp:342-394 | On every run, for every accepted submission: after those reports, if the trades fill it the own side is as it was; otherwise, if fewer than 100,000 orders rest there, it gains exactly one order, last at its price, with the submission's price, quantity and client, the next id, the unfilled part as remaining and the filled part as cumulative, and reports the volume at that price and that order; otherwise the own side is as it was and the caller is told that the book is full. |
| Submissions.RejectMeaning | src/order_book.cpp:345-364 | A submission of quantity 0 or with an invalid price changes nothing and is answered InvalidVolume or InvalidPrice, the quantity first. |
| Submissions.SubmitBest | src/order_book.cpp:151-161 | The own cached best becomes the new order's price exactly when an order rests at a better price than the cached one; the other side's moves past exactly the levels up to which everything offered is within the limit and taken. |
| Links.ChainAppend | src/order_book.cpp:129-138 | The link updates of an insertion thread exactly the old queue followed by the new order. |
| Links.ChainRemove | src/order_book.cpp:570-579 | The link updates of a removal thread exactly the queue without that order, wherever it stood, with the right first and last. |
| Links.FreePop | src/order.hpp:31-37 | Taking the head slot leaves the free list threading the other free slots. |
| Links.FreePush | src/order.hpp:39-42 | Returning a slot makes it the head of the free list. |
| Links.RepresentsAdd | src/order_book.cpp:117-139 | After an insertion, memory holds the side with the order added: queues, free list and 32-bit totals. |
| Links.RepresentsRemove | src/order_book.cpp:569-585 | After a removal and release, memory holds the side without the order. |
| Links.RepresentsUpdate | src/order_book.cpp:548-550 | After a change in place, memory holds the side with the changed order. |
| OrderBooks.OrderBookSide.constructor | src/order_book.cpp:80-89 | The arrays built by the two loops hold the empty side. |
| OrderBooks.OrderBookSide.Allocate | src/order.hpp:31-37 | Returns the first free slot and advances the list, or null exactly when no slot is free. |
| OrderBooks.OrderBookSide.Deallocate | src/order.hpp:39-42 | Puts the slot at the head of the free list and changes nothing else. |
| OrderBooks.OrderBookSide.UpdateBestBidAfterEmpty | src/order_book.cpp:163-174 | The downward scan computes the model's re-scan. |
| OrderBooks.OrderBookSide.UpdateBestAskAfterEmpty | src/order_book.cpp:176-187 | The upward scan computes the model's re-scan. |
| OrderBooks.OrderBookSide.AddOrder | src/order_book.cpp:95-149 | Computes the model's insertion and its level update, or the book-full error with nothing changed. |
| OrderBooks.OrderBookSide.MatchLoop | src/order_book.cpp:189-266 | The nested loops compute the model's matching: book side, id map, handle table, residual and callbacks in order. |
| OrderBooks.OrderBook.constructor | src/order_book.cpp:329-334 | Builds the empty book. |
| OrderBooks.OrderBook.SubmitOrder | src/order_book.cpp:342-394 | Computes the model's submission: new state and callbacks in order, error cases included; `Submissions.SubmitMeaning` and `Submissions.RejectMeaning` say what that is. |
| OrderBooks.OrderBook.Learn | src/order_book.cpp:373-375 | Enters a new order in the handle table and, if its id is free, in the id map, and keeps both consistent with the sides. |
| OrderBooks.OrderBook.CancelOrder | src/order_book.cpp:401-460 | Computes the model's cancellation, error cases included; `Requests.CancelMeaning` and `Requests.CancelUnknown` say what that is. |
| OrderBooks.OrderBook.AmendOrder | src/order_book.cpp:462-567 | Computes the model's amendment, error cases included; `Requests.AmendMeaning` and `Requests.AmendUnknown` say what that is. |
| OrderBooks.OrderBook.BuildSnapshot | src/order_book.cpp:587-632 | The four arrays hold the first ten non-zero levels of each side from the cached best, padded with zeros. |
| Replay.RunBook | src/order_book.cpp:329-585 | The book in place, driven by any sequence of requests, is in the state the model run is in and has made the same callbacks. |
| Replay.Continue | src/order_book.cpp:342-585 | So it is from any reachable state on. |
| MarketData.ApplySeen | src/order_book.cpp:140-263 | A replica that is right at every price it knows is right again after the updates of any request. |
| MarketData.VisibleExact | src/order_book.cpp:598-631 | Every quote of a snapshot is a level's true non-zero total. |
| MarketData.VisibleOrdered | src/order_book.cpp:598-631 | Quotes come best price first. |
| MarketData.VisibleComplete | src/order_book.cpp:598-631 | A non-zero level from the start on is quoted unless ten better ones are. |
| MarketData.SnapshotExact | src/order_book.cpp:587-632 | A snapshot side is at most ten quotes, best first, each the true non-zero total of a level from the cached best on, and leaves none of those levels out unless ten better ones are quoted. |
| MarketData.KnownGrows | apps/market_simulator/shadow_order_book.hpp:27-34 | A replica learns exactly the prices that are announced. |
| MarketData.FeedFromEmpty | apps/market_simulator/shadow_order_book.hpp:27-34 | A replica that started empty and saw every update is, as a map, the engine's map of non-zero levels after every run. |
| MarketData.FeedFromSnapshot | apps/market_simulator/shadow_order_book.hpp:10-34 | A replica started from a snapshot and fed the updates since is, as a map, the engine's map of non-zero levels restricted to the quoted and updated prices. |
| ShadowBook.PaddingIgnored | apps/market_simulator/shadow_order_book.hpp:13-24 | Zero entries behind the quotes do not change the replica. |
| ShadowBook.ShadowOrderBook.OnOrderBookSnapshot | apps/market_simulator/shadow_order_book.hpp:10-25 | Replaces both maps by those of the snapshot's quotes. |
| ShadowBook.ShadowOrderBook.OnPriceLevelUpdate | apps/market_simulator/shadow_order_book.hpp:27-34 | Sets or erases one level of the announced side. |
| ShadowBook.ShadowOrderBook.Feed | apps/market_simulator/shadow_order_book.hpp:27-34 | Applying any stretch of the feed gives the replica that the theorems about feeds speak of. |
| Replay.ListenFromStart | apps/market_simulator/shadow_order_book.hpp:27-34 | The shadow book object fed by the book object from the start ends with the engine's map of non-zero levels. |
| Replay.TakeSnapshot | apps/market_simulator/shadow_order_book.hpp:10-25 | A new shadow book that receives the arrays the book wrote holds the levels of the snapshot's quotes; the zero padding does not matter. |
| Replay.Subscribe | apps/market_simulator/shadow_order_book.hpp:10-34 | The shadow book object that subscribes in mid-run ends with the engine's levels at exactly the quoted and updated prices. |
| ClientReplica.ApplyHeard | src/exchange.cpp:241-358 | The messages of any request keep a client's open-order map in step with the book. |
| ClientReplica.RunHeard | python/exchange/agents/trader.py:126-176 | So they do over every run of at most 2^32 accepted submissions. |
| ClientReplica.ReplicaExact | python/exchange/agents/trader.py:126-176 | After every such run no handler has failed; an entry with something remaining is exactly a resting order of that client with the engine's numbers; one with nothing remaining is an order amended down to its filled amount. |
| Messages.HearsSent | src/exchange.cpp:177-181 | Hearing callbacks is receiving the messages they send, in order. |
| Messages.TakerFills | src/exchange.cpp:268-278 | On every run of fewer than 2^32 accepted submissions the submitting client hears of each of its trades once, in order, with the sum of the quantities traded so far as cumulative and the rest of the order as leaves, after the last one what rests or is dropped; nobody else hears of that order's fills. |
| Messages.MakerFills | src/exchange.cpp:255-266 | On the same runs the maker of each trade is an order that rested before, and its owner hears of it exactly once, with its remaining quantity less and its cumulative quantity more the traded one. |
| Messages.OthersHearNothing | src/exchange.cpp:320-358 | A cancellation or an amendment sends nothing to clients other than the caller. |
| Messages.CancelReply | src/exchange.cpp:320-332 | The owner of a resting order is sent exactly the confirmation of its cancellation, another caller no confirmation. |
| Messages.AmendReply | src/exchange.cpp:345-357 | The owner of a resting order is sent exactly its new quantity and what remains, if the quantity is allowed. |
| Messages.InsertReply | src/exchange.cpp:292-305 | The last message to the owner of an order that comes to rest confirms its id, side, price, quantity and unfilled part. |
| ClientReplica.Trader.OnConfirmOrderInserted | python/exchange/agents/trader.py:126-137 | Stores the order under its id, with the traded part as cumulative. |
| ClientReplica.Trader.OnPartialFill | python/exchange/agents/trader.py:139-156 | Ignores an unknown id, removes the entry when nothing is left, and otherwise sets remaining and cumulative. |
| ClientReplica.Trader.OnConfirmOrderCancelled | python/exchange/agents/trader.py:158-167 | Removes the entry; an unknown id is ignored. |
| ClientReplica.Trader.OnConfirmOrderAmended | python/exchange/agents/trader.py:169-176 | Sets quantity and remaining; an unknown id ends the receive loop. |
| ClientReplica.Trader.ReceiveLoop | python/exchange/agents/trader.py:63-91 | Folds the handlers over the messages in order, until one fails. |
| Spsc.CapacityFacts | src/spsc_queue.hpp:10-75 | For a power-of-two capacity the mask is the remainder, and the capacity divides 2^64. |
| Spsc.StepRefines | src/spsc_queue.hpp:20-64 | Every load, write or publish step of either thread, with a stale view of the other's index and counters wrapping modulo 2^64, is a step of a bounded FIFO. |
| Spsc.RunQueue | src/spsc_queue.hpp:20-64 | After any interleaving the queue holds exactly the pushed items not yet taken, in order. |
| Spsc.RunIsFifo | src/spsc_queue.hpp:20-64 | The k-th item taken is the k-th pushed; a push is refused only at capacity; emptiness is reported only when true. |
| Spsc.PeekStable | src/spsc_queue.hpp:50-64 | The item a peek points to is not overwritten before it is consumed, whatever the producer does. |
| Spsc.SizeExact | src/spsc_queue.hpp:66-70 | A size query of the consumer, as two loads, reports the length the queue had at the head load, and 0 only if the queue was empty then. |
| Spsc.SpscQueue.TryPush | src/spsc_queue.hpp:20-31 | Appends the item, or refuses exactly when full and changes nothing. |
| Spsc.SpscQueue.TryPop | src/spsc_queue.hpp:37-48 | Removes and returns the first item, or fails exactly when empty. |
| Spsc.SpscQueue.Peek | src/spsc_queue.hpp:50-56 | Finds the slot of the first item, or fails exactly when empty. |
| Spsc.SpscQueue.ConsumeOne | src/spsc_queue.hpp:58-64 | Removes the first item, or fails exactly when empty. |
| Spsc.SpscQueue.SizeApprox | src/spsc_queue.hpp:66-70 | Reports the number of queued items. |
| Framing.ParsePrefix | src/connectivity.cpp:111-192 | Parsing a prefix and going on from its leftover equals parsing everything; once parsing stopped, later bytes change nothing. |
| Framing.SplitInvariance | src/connectivity.cpp:86-192 | However the stream is split into reads, the frames delivered, the reason for stopping and the leftover are those of parsing it at once. |
| Framing.ParseEncode | src/connectivity.cpp:309-315 | Parsing the encoding of messages gives back the same types and payloads in order, with nothing left over. |
| Framing.RoundTrip | src/connectivity.hpp:101-110 | So does receiving the encoding in any pieces. |
| Framing.HeaderParsed | src/connectivity.cpp:114-178 | A header is parsed as the size it announces, from 0 to 65535: with too few bytes the parser waits, a size above 244 is a violation, a size up to 46 is refused without room in the queue, and otherwise exactly that frame is delivered and parsing goes on behind it. |
| Framing.NoHeader | src/connectivity.cpp:115-117 | With fewer than three bytes the parser waits. |
| Connections.Connection.FrameAt | src/connectivity.cpp:115-138 | Reads the frame at an offset, or reports that bytes are missing. |
| Connections.Connection.Compact | src/connectivity.cpp:181-191 | Moves the unparsed bytes to the front. |
| Connections.Connection.ParseAccumulator | src/connectivity.cpp:111-192 | The parse loop delivers what the reference parser delivers, keeps its leftover, and disconnects on a violation or a refused push. |
| Connections.Connection.Append | src/connectivity.cpp:94-103 | Appends the bytes; the buffer doubles at most once, from 131,070 to 262,140 bytes. |
| Connections.Connection.HandleRead | src/connectivity.cpp:86-109 | One read is one reference read, also after a failed write has disconnected the connection; the accumulator never exceeds 262,140 bytes and a completed parse leaves at most 65,537. |
| Connections.Connection.SendMessage | src/connectivity.cpp:194-225 | Queues a message, or drops it exactly when it is too large or the queue is full; posts a drain exactly when a queued message finds none pending. |
| Connections.Connection.PutFrame | src/connectivity.cpp:309-315 | Appends exactly the frame's encoding to the batch. |
| Connections.Connection.FillBatch | src/connectivity.cpp:290-317 | Moves messages from the front of the queue into the batch in order, as encoded, until the queue is empty or the next one does not fit. |
| Connections.Connection.DrainWrites | src/connectivity.cpp:283-324 | Moves messages into the batch with bytes balanced; a message left in the queue has a write in progress. |
| Connections.Connection.RunPostedDrain | src/connectivity.cpp:276-281 | Runs a posted drain and leaves no message stranded. |
| Connections.Connection.HandleWrite | src/connectivity.cpp:341-374 | Any partial write keeps bytes written, the unsent batch and the queue equal to the encoding of the accepted messages; a part goes on with the batch, a whole batch is followed by a new one as full as the queue allows. |
| WritePump.StepBalanced | src/connectivity.cpp:194-374 | Every step of the engine or the I/O strand keeps the byte balance. |
| WritePump.StepAwake | src/connectivity.cpp:276-374 | Every step keeps a non-empty queue attended. |
| WritePump.RunPump | src/connectivity.cpp:194-374 | In every reachable state of every interleaving bytes balance, and a non-empty queue has a drain posted, a write in progress, a sender about to schedule one, or a handler about to look again. |
| WritePump.PumpDelivers | src/connectivity.cpp:283-374 | Whatever has been written so far and in whatever pieces it is read, the receiver delivers a prefix of the accepted messages, and all of them once everything is written. |
| EngineInbox.RunInbox | src/exchange.cpp:55-73 | In every reachable state of every interleaving, refused pushes, lost connections and their late frames included, each raised flag has exactly one task posted or about to be, the inbox respects its capacity, and messages are dispatched in the order they were pushed. |
| EngineInbox.StepAttended | src/exchange.cpp:55-115 | A step keeps a non-empty inbox attended if and only if it is not one that strands it: with the engine resting, no drain outstanding and no notification outstanding of another open connection, the loss of a connection while the inbox is full, or a late frame of a lost connection. |
| EngineInbox.RunAttended | src/exchange.cpp:55-115 | Over whole runs: a non-empty inbox always has a notification of an open connection or an engine drain outstanding, or a step under way that leads to one, if and only if no step of the run strands it. |
| EngineInbox.StrandedForGood | src/exchange.cpp:103-115 | Once a loss has stranded a full inbox, it stays as it is for ever and nothing is dispatched again. |
| EngineInbox.FloodStrands | src/connectivity.cpp:149-158 | A run that strands the inbox: one connection sends more frames than the inbox holds before the engine looks. |
| EngineInbox.LateFrameStrands | src/connectivity.cpp:62-109 | A run that strands an inbox that is not full: a frame read before the loss of its connection is queued after the disconnect message was dispatched. |
| EngineInbox.IoKeeps | src/connectivity.cpp:39-68 | Every step of the I/O thread keeps each raised flag backed by exactly one task. |
| EngineInbox.EngineKeeps | src/exchange.cpp:60-72 | So does every step of the engine strand. |
| Pcg.Distinct | apps/market_simulator/pcg32.hpp:24-25 | With any odd increment no state repeats within 2^64 steps. |
| Pcg.Period | apps/market_simulator/pcg32.hpp:24-25 | After 2^64 steps the first state returns. |
| Pcg.FullPeriod | apps/market_simulator/pcg32.hpp:24-55 | From any state, with any odd increment and the code's multiplier, every 64-bit state is visited. |
| PcgOutput.OutputInjective | apps/market_simulator/pcg32.hpp:27-32 | For fixed top five bits, different bits 27 to 58 give different outputs. |
| PcgOutput.PreimageOutput | apps/market_simulator/pcg32.hpp:27-32 | Every output is reached, for any choice of the top five and the low 27 bits. |
| PcgOutput.OutputPreimage | apps/market_simulator/pcg32.hpp:27-32 | Every state is the preimage its output and its outer bits determine. |
| PcgOutput.Equidistributed | apps/market_simulator/pcg32.hpp:23-33 | In every period each 32-bit value is output exactly 2^32 times. |
| PcgOutput.OutputBits | apps/market_simulator/pcg32.hpp:27-32 | Bit k of the output is the sum without carry of bits 27 + m and 45 + m of the state, where m is k plus the state's top five bits, modulo 32. |
| PcgOutput.Pcg32.SeedRng | apps/market_simulator/pcg32.hpp:15-21 | Seeding makes the increment odd and mixes the seed in between two steps of the recurrence. |
| PcgOutput.Pcg32.NextUint | apps/market_simulator/pcg32.hpp:23-33 | Returns, bit by bit, the rotated xor-shift of the old state, and advances the state by the multiplier and the increment modulo 2^64. |
| Heaps.Top | apps/market_simulator/order_manager.hpp:98-102 | The top of a heap is an entry with the least key. |
| OrderManagers.OrderManager.AdvanceHazard | apps/market_simulator/order_manager.hpp:107-116 | Hazard accrues at the cancel rate from the second update on. |
| OrderManagers.OrderManager.PruneTop | apps/market_simulator/order_manager.hpp:192-200 | Removes only entries of inactive orders, until an entry of an active order is on top or the queue is empty. |
| OrderManagers.OrderManager.RegisterPendingInsert | apps/market_simulator/order_manager.hpp:26-33 | Records the threshold of an order that was sent. |
| OrderManagers.OrderManager.RescheduleNextExpiry | apps/market_simulator/order_manager.hpp:118-153 | The alarm is exact: at once if an active order is due, at the time the first one falls due otherwise, and none without a positive rate or an active order. |
| OrderManagers.OrderManager.OnInsertAcknowledged | apps/market_simulator/order_manager.hpp:35-55 | A pending order becomes active with exactly one new entry; an unknown acknowledgement changes nothing. |
| OrderManagers.OrderManager.OnPartialFill | apps/market_simulator/order_manager.hpp:57-68 | A fill that leaves nothing makes the order inactive. |
| OrderManagers.OrderManager.UpdateCancelRate | apps/market_simulator/order_manager.hpp:70-79 | The past accrues at the old rate, and the alarm is exact for the new one. |
| OrderManagers.FiringDone | apps/market_simulator/order_manager.hpp:166-187 | When no remaining entry is due, the orders fired are exactly the active orders that were due. |
| OrderManagers.OrderManager.FireDue | apps/market_simulator/order_manager.hpp:164-187 | Popping entries until the top is not due fires only due active orders, each once, and leaves every other active order its entries. |
| OrderManagers.OrderManager.FireNextExpiry | apps/market_simulator/order_manager.hpp:155-190 | A firing cancels exactly the active orders that are due, once each, and leaves none due; on every history without a reused exchange id every active order keeps exactly one entry and none is cancelled twice. |
| OrderManagers.OrderManager.FireOnTime | apps/market_simulator/order_manager.hpp:105-190 | When an alarm has run its delay, the firing cancels exactly the active orders whose thresholds the hazard reaches in that time at the cancel rate, at least one, and none was due earlier. |
| BestBooks.LevelsAreLast | python/scripts/analysis.py:127-141 | The volume map holds exactly the prices whose last update had a positive volume. |
| BestBooks.BestBook.UpdateLevel | python/scripts/analysis.py:127-141 | Updates one side's map and keeps every live level in its heap. |
| BestBooks.BestBook.BestBid | python/scripts/analysis.py:143-149 | Returns the greatest key of the bid map, or nothing exactly when it is empty, whatever stale entries the heap holds. |
| BestBooks.BestBook.BestAsk | python/scripts/analysis.py:151-157 | Returns the least key of the ask map, or nothing exactly when it is empty. |
| BestBooks.Replay | python/scripts/analysis.py:127-157 | After any update sequence, with queries anywhere in between, the best queries answer for the levels the updates define. |

## Left out

- Weak memory ordering: the step machines interleave sequentially consistent loads and stores.
- More than one I/O thread: the inbox has one producer, the default of `apps/exchange/main.cpp:20`.
- Sockets, strands, accepting, closing and shutdown: only posted tasks, flags and completion handlers appear, of a running exchange. The outbound theorems are about open connections.
- `send_message_unbuffered` and the large-message callback: frames above the buffered size count as delivered in order with the others, and a snapshot is applied before the updates that follow it.
- The byte layout of payload structs, the table of payload sizes and the Python codec: payloads are datatypes, and byte round trips are C++ to C++ only, since the Python header (`python/exchange/util/__init__.py:67`) is little-endian.
- Sequence numbers and trade ids of outgoing messages, routing to sockets and the subscriber list of `src/exchange.cpp`: they would add only counters and copies.
- The two loads of `size_approx` inside the inbox machine: it reads emptiness in one step, that of the head load (`Spsc.SizeExact`).
- Best, mid, spread and volume queries of `ShadowOrderBook` and the level dictionaries of the Python trader: pure reads or the same map again.
- Time stamps, logging, printing, message texts and debug output: time is an elapsed amount given to the expiry queue, errors are codes.
- Distributions, market dynamics and simulator state: floating-point heuristics.
- Floating point: hazards are real numbers, so rounding in the expiry queue is not modelled.
- Heaps, hash maps and ordered maps: multisets and maps, where a top entry is any least one.
- OrderManagers.OrderManager.FireNextExpiry: the numbering of cancel requests is not modelled, because the counter is shared with other senders.
- IdIndex.RunIndexed: stops at 2^32 accepted submissions, after which an id may be given out again while its first owner rests and the id map keeps the first owner; `BookModel.LookupFinds` still holds.
- Connections.Connection.HandleWrite: after a write error the connection is closing, and nothing is promised about its queue.

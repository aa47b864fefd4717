# A small exchange and its trading client

This project models an exchange and the client that trades on it, and proves what the two promise
each other. Four parts are modelled, and they compose:

* **The matching book.** `OrderRings` is the pointer structure that the exchange's book and the
  client's copy share: pools of blocks, circular doubly linked rings of price levels and of orders,
  a price-slot index and an order index. Every pointer operation is proved to be an operation on a
  plain list of orders in trading order (`Ladder`). `MEOrderBook` matches, rests and cancels over that
  structure and is proved against the functions of `Matching`, about which price-time priority, the
  book invariant and conservation are proved.
* **Market data.** The publisher numbers the updates, the synthesizer folds them into snapshots, the
  consumer detects gaps and splices a snapshot with queued updates, and `MarketOrderBook` rebuilds
  the book. Whatever the network loses, repeats or reorders, as long as it does not mix snapshots, a
  client that is not recovering holds the exchange's book.
* **The client's orders.** One slot for each instrument and side, the risk gate, positions and profit,
  against the exchange over first-in first-out queues, with other clients trading as they like and the
  market moving. Over every run the slots tell the truth, the position limit holds, and the profit is
  what the fills the client has heard of come to.
* **Transport.** The lock-free queue under every interleaving of its atomic accesses, and the
  sequenced streams between order server and gateways over every split into reads and every interleaving
  of the connections.

Pointers are slot numbers in pools, with -1 for null. Classes keep the source's fields; ghost fields
hold the rings as sequences. Operations on values are specified by functions, and the class methods
are proved to compute them. `MatchingEngine`, `MarketOrderBook`, `MarketDataConsumer`,
`SnapshotSynthesizer`, `OrderManager`, `PositionInfo`, `OrderServer`, `OrderGateway` and `MemPool`
follow the classes of the source.

## Where the code departs from what it is meant to do

The members below model the intended form, and each repair is marked in a comment. For most of these
places the form as written is modelled as well, with the exact condition under which it makes no
difference.

| place | as written | treated in |
|---|---|---|
| `exchange/matcher/me_order_book.cpp:11-15` | the pointer arrays are not initialised | they start as null |
| `exchange/matcher/me_order_book.cpp:39` | client and instrument are passed in each other's place | `Misnaming.CancelableAsWritten`, `Misnaming.CollisionAsWritten` |
| `exchange/matcher/me_order_book.cpp:123-153` | the BUY scan does not compare prices; linking in front of a level leaves that level pointing elsewhere | `AsWritten.InsertAsWritten` |
| `exchange/matcher/me_order_book.cpp:232` | the SELL comparison is reversed | `Crossing.SellAsWritten` |
| `exchange/matcher/matching_engine.cpp:68-73` | CANCEL falls through into FATAL | comment in `MatchingEngine.ProcessClientRequest` |
| `exchange/matcher/matching_engine.cpp:47-53` | reads its queue without testing `size()` | `LFQueue.UnguardedCanAssert` |
| `exchange/market_data/snapshot_sythesizer.cpp:61` | a new order is stored at its ticker id | `Publishing.AddAsWritten` |
| `exchange/market_data/market_data_publisher.cpp:55-60` | the pointer is sent instead of the update, and the slot is read after its release | comment in `MarketDataPublisher.Drain` |
| `trading/market_data/market_data_consumer.cpp:79-102, 147-256` | the anchors of the two snapshot markers are never compared | `Comparing.ComparingIsSafe`; as written `Anchors.AnchoredIsSafe`, `Anchors.MixedSnapshotLosesAnOrder`, `Anchors.MixedSnapshotDoesNoHarm` |
| `trading/market_data/market_data_consumer.cpp:115-120` | the snapshot address is opened on the socket of the incrementals, and a client that starts in recovery never joins it | sockets are not modelled; messages arrive as they may |
| `trading/strategy/market_order_book.cpp:21-24` | the guard of the cached best prices misses the first order of a side, and CLEAR | `Bbo.CacheAsWritten` |
| `trading/strategy/market_order_book.cpp:53-76` | CLEAR leaves the level index as it is | `AsWritten.ClearAsWritten` |
| `trading/strategy/position_keeper.hpp:18` | the accumulators are not initialised | they start at zero |
| `trading/strategy/position_keeper.hpp:49, 57` | price times quantity overflows 64 bits | `Positions.ProfitAsWritten` |
| `trading/strategy/position_keeper.hpp:56` | the product of two positions overflows 32 bits, so a flip through zero goes unnoticed, or a partial close passes for one | `Positions.ProfitAsWritten`, `Positions.FlipGoesUnnoticed` |
| `trading/strategy/position_keeper.hpp:51-60` | a partial close does not rescale the opposite accumulator | `Positions.ProfitAsWritten` |
| `trading/strategy/position_keeper.hpp:75` | the total is not updated when the position is flat | `Positions.TotalAsWritten` |
| `trading/strategy/position_keeper.hpp:90` | the sum of two prices overflows 64 bits | `Positions.QuoteAsWritten` |
| `trading/strategy/order_manager.cpp:118` | the ask is quoted at the bid price | `ClientOrders.MoveOrdersAgree` |
| `trading/strategy/risk_manager.cpp:19-22` | sum and absolute value are computed, and quantity and limit cast, in 32 bits | `ClientOrders.RiskIsExact`, `ClientOrders.RiskGateCanBePassed` |
| `trading/strategy/order_manager.cpp:77-110` | a zero quantity passes the gate and leaves its slot stuck | `Protocol.ZeroSticks`, `Protocol.PositiveRunsAgree` |

## What is assumed

* When an order comes to rest, the orders left in its price slot (modulo `ME_MAX_PRICE_LEVELS`) have its
  price (`PriceFree`).
* Order ids stay below `ME_MAX_ORDER_IDS` and client ids below `ME_MAX_NUM_CLIENTS`; a client order id
  is not reused while it is live (`Admissible`). For the modelled client this is proved, not assumed
  (`Protocol.OwnIsAdmissible`).
* When an order comes to rest at the exchange, the order pool, and the level pool if the price is new, are
  not down to their last free block (`HasRoom`, part of `Placing.CanRest`); `allocate` searches for the next
  free block eagerly, so a pool of N blocks serves N - 1 objects (`Pool.OneBlockStaysFree`). For the client's
  copy neither this nor the price slot is assumed: both follow (`EndToEnd.ClientCanFollow`).
* A queue's writer never gets a full ring ahead of its reader; given that, `LFQueue.FirstInFirstOut`
  justifies the queues of the other modules.
* Requests of one client reach the engine in the order sent. Within one batch the source sorts by
  receive time with an unstable sort, so it promises this only for requests with different times.
* When a queued snapshot looks whole, its messages come from one publication (`Recovery.Unmixed`). For a
  client that compares the anchors of the two markers this is replaced by a network that keeps order
  (`Comparing.ComparingInOrder`).
* `max_order_size + max_position` is below 2^31 for every instrument (`ClientOrders.SmallLimits`). Order
  quantities are arbitrary, zero included.
* 64-bit counters do not wrap; doubles are reals.

## Model

| member | source | states |
|---|---|---|
| Matching.PriceTimePriority | exchange/matcher/me_order_book.cpp:215-277 | The matching loop trades exactly the orders within the limit that are reached by price and then arrival, each at its resting price for a quantity computed from the book alone, all in full except perhaps the last; reports and updates say so field by field; it leaves the survivors in order, and stops early only because nothing left is within the limit |
| Matching.MatchReports | exchange/matcher/me_order_book.cpp:252-261 | One pair of fill reports for each order that trades, first to the incoming order's owner and then to the resting one's, both at the resting price, with name, ids, side, quantity traded and quantity left, and no others |
| Matching.MatchUpdates | exchange/matcher/me_order_book.cpp:263-276 | One pair of updates for each order that trades: the trade, on the incoming side and at the resting price, then the removal of the resting order or its new quantity, and no others |
| RequestEffect.NewDoes | exchange/matcher/me_order_book.cpp:28-47 | All that a new order does: the acknowledgement with the next id, one pair of reports and updates for each of the orders it trades with, and what is left of it resting, at its own limit, behind everything priced at least as well and with the next priority at its price, and announced so; nothing else |
| RequestEffect.CancelDoes | exchange/matcher/me_order_book.cpp:49-76 | All that a cancel does: the order of that name, wherever it rests, leaves its side, its owner is told what was left of it and the market that it is gone; or, if none has that name, the sender is refused and nothing happens |
| RequestEffect.NextPriorityIs | exchange/matcher/me_order_book.cpp:78-84 | A new order's priority is one more than that of the last order at its price, or 1 |
| Matching.MatchLeaves | exchange/matcher/me_order_book.cpp:215-241 | What is left of the incoming order is its quantity less what stands in front, and some is left only if the side is used up or no longer crosses |
| Matching.Lookup | exchange/matcher/me_order_book.cpp:49-57 | A cancel finds an order of that name on either side, or there is none |
| BookInvariant.ProcessKeepsGood | exchange/matcher/me_order_book.cpp:28-76 | Every add and cancel keeps both sides sorted by price and time with rising priorities and positive quantities, names and ids unique, and bids below asks |
| BookInvariant.MatchStopsUncrossed | exchange/matcher/me_order_book.cpp:215-241 | An order that comes to rest crosses nothing that is left on the other side |
| BookInvariant.ProcessTicker | exchange/matcher/me_order_book.cpp:28-76 | Every response and every market update sent for a request carries the instrument of the request |
| Reporting.NarrowIsExact | exchange/matcher/me_order_book.cpp:215-216 | The 32-bit parameter keeps a market id exactly when it is below 2^32 |
| Reporting.ReportsAreTrue | exchange/matcher/me_order_book.cpp:242-277 | Over fewer than 2^32 accepted requests every report of a fill or a cancellation names its order by the market id under which it was acknowledged |
| Venue.LogDescribesBooks | exchange/matcher/me_order_book.cpp:28-76 | After any accepted requests over all instruments, folding the updates sent so far into an empty copy gives every book of the exchange: levels, queue order, quantities and priorities |
| Venue.InstrumentsKeepApart | exchange/matcher/matching_engine.cpp:58-76 | After any requests each book is what serving the requests for its instrument alone makes of it, and the responses and updates for the instrument are those that this sends, in order |
| Venue.NeverCrossed | exchange/matcher/me_order_book.cpp:28-47 | After any accepted requests every bid is priced below every ask |
| Following.OneSidePerSlot | exchange/matcher/me_order_book.hpp:45-48 | After any accepted requests for which the exchange had a place, no price slot is shared by a bid and an ask |
| Replica.ProcessFollows | trading/strategy/market_order_book.cpp:20-76 | The updates of one request turn a copy of the book before it into a copy of the book after it |
| Replica.MatchFollows | exchange/matcher/me_order_book.cpp:263-276 | The updates sent while matching keep a copy of the opposite side in step |
| UpdateStream.ProcessIsLegal | exchange/matcher/me_order_book.cpp:28-76 | Every update sent names an order that is there, or adds one newer than all and behind all at its price |
| UpdateStream.LegalKeepsGoodView | trading/strategy/market_order_book.cpp:20-52 | Applying such an update keeps a client's copy sorted, live and free of duplicate ids |
| Conservation.RunConserves | exchange/matcher/me_order_book.cpp:28-76 | Over any run, for every instrument and order name, the accepted quantity is what rests plus what was reported filled and cancelled; and as much is bought as is sold and as is announced as traded |
| Conservation.MatchConserves | exchange/matcher/me_order_book.cpp:242-277 | Matching moves quantity of any order name from open to filled and loses none |
| Conservation.MatchBalances | exchange/matcher/me_order_book.cpp:242-277 | The quantities reported to buyers, to sellers and to the market by the matching loop are equal |
| Rings.SpliceRing | exchange/matcher/me_order_book.cpp:145-148 | Linking a new slot in between two neighbours at any position gives the ring with the slot inserted there |
| Rings.UnlinkRing | exchange/matcher/me_order_book.cpp:173-176 | Unlinking a slot from a ring of several gives the ring without it |
| PriceSlots.PriceSlot | exchange/matcher/me_order_book.hpp:45 | The slot of a price is the remainder of the price taken as an unsigned 64-bit number, for negative prices too; two prices share a slot exactly when they differ by a multiple of the number of slots |
| HeapOps.LevelLadder | exchange/matcher/me_order_book.cpp:106-165 | A level linked in where its price fits keeps the ring of its side circular, doubly linked and strictly sorted |
| HeapOps.LevelKeeps | exchange/matcher/me_order_book.cpp:86-95 | Opening a level for an order keeps the whole layout: both rings, all queues and both indexes |
| HeapOps.AppendKeeps | exchange/matcher/me_order_book.cpp:96-103 | Queueing an order at its level keeps the whole layout |
| HeapOps.LeaveKeeps | exchange/matcher/me_order_book.cpp:172-187 | Taking an order from a level that keeps others keeps the whole layout, also when it was the first |
| HeapOps.UnlevelKeeps | exchange/matcher/me_order_book.cpp:190-213 | Closing a level with its last order keeps the whole layout, also when the ring becomes empty |
| HeapOps.ResizeKeeps | exchange/matcher/me_order_book.cpp:251 | Changing an order's quantity keeps the whole layout |
| HeapFlat.LevelFlat | exchange/matcher/me_order_book.cpp:86-95 | In trading order, opening a level puts the order behind everything priced at least as well and leaves the other side alone |
| HeapFlat.AppendFlat | exchange/matcher/me_order_book.cpp:96-103 | Queueing an order puts it behind everything priced at least as well and leaves the other side alone |
| HeapFlat.LeaveFlat | exchange/matcher/me_order_book.cpp:172-187 | Removing an order from a longer queue removes that order from the list and nothing else |
| HeapFlat.UnlevelFlat | exchange/matcher/me_order_book.cpp:190-213 | Removing the last order of a level removes that order from the list and nothing else |
| HeapFlat.ResizeFlat | exchange/matcher/me_order_book.cpp:251 | Changing a quantity changes that order in the list and nothing else |
| HeapFlat.HeadOfSide | exchange/matcher/me_order_book.cpp:219-231 | The first order of the best level is the head of the side |
| HeapFlat.PriorityOfLevel | exchange/matcher/me_order_book.cpp:78-84 | One more than the priority at the back of a level's ring is the next priority at its price |
| HeapFlat.PriorityOfNewLevel | exchange/matcher/me_order_book.cpp:80-81 | An empty price slot means that no order has the price, and the next priority is 1 |
| Pool.OneBlockStaysFree | common/mem_pool.hpp:25-39 | With a free block to hand out next at most N - 1 of N blocks are in use, and that many exactly when no other block is free |
| Pool.MemPool.Allocate | common/mem_pool.hpp:46-56 | Hands out the block the index names, which was free, and moves the index to the first free block onwards and round; fails exactly when only one block was free |
| Pool.MemPool.Deallocate | common/mem_pool.hpp:58-65 | Frees that block and no other |
| OrderRings.OrderRings.ScanLevels | exchange/matcher/me_order_book.cpp:119-139 | The circular scan ends at the unique place of the price in the sorted ring |
| OrderRings.OrderRings.InsertLevel | exchange/matcher/me_order_book.cpp:119-164 | The level is linked in at that place, with wrap-around and rings of one, and the best pointer moves exactly when the place is the first |
| OrderRings.BestIsFirst | exchange/matcher/me_order_book.cpp:154-163 | A price belongs in front of the whole ring exactly when it is better than the best |
| OrderRings.OrderRings.AddOrdersAtPrice | exchange/matcher/me_order_book.cpp:106-165 | The level enters the level index and the ring of its side, or becomes that ring |
| OrderRings.OrderRings.AddOrder | exchange/matcher/me_order_book.cpp:86-104 | The side lists the new order behind everything priced at least as well, the other side is unchanged, and pools, rings and indexes stay consistent; an order that joins a level needs no block for one |
| OrderRings.OrderRings.RemoveOrdersAtPrice | exchange/matcher/me_order_book.cpp:190-213 | The level leaves ring and index, the best pointer moves on if it was the best, and the block is free |
| OrderRings.OrderRings.RemoveOrder | exchange/matcher/me_order_book.cpp:167-188 | The order leaves its side, the other side is unchanged, its block is free, and everything stays consistent |
| OrderRings.OrderRings.SetQty | exchange/matcher/me_order_book.cpp:251 | Only that order's quantity changes |
| OrderRings.OrderRings.GetNextPriority | exchange/matcher/me_order_book.cpp:78-84 | The priority read from the level's ring is one more than the last order at the price has, or 1 |
| OrderRings.OrderRings.Front | exchange/matcher/me_order_book.cpp:219-231 | The slot found is the head of the side, and none is found exactly when the side is empty |
| OrderRings.OrderRings.Find | exchange/matcher/me_order_book.cpp:52-58 | The slot found is a resting order of that name, and none is found only if no order has it |
| OrderRings.OrderRings.TopLevel | trading/strategy/market_order_book.cpp:232-261 | Walking the best level's ring gives the best price and the 32-bit sum of the quantities on it |
| TopOfBook.TopIs | trading/strategy/market_order_book.cpp:232-261 | On a sorted side what that walk gives is a price that is offered and that none betters, with the total quantity, in 32 bits, of all orders of the side at that price, and nothing else is |
| OrderRings.OrderRings.Clear | trading/strategy/market_order_book.cpp:53-76 | Both sides are empty afterwards, every block is free and both indexes are empty |
| OrderBook.MEOrderBook.Match | exchange/matcher/me_order_book.cpp:242-277 | One fill: both reports, the trade, and the removal or change of the resting order, on the pointer structure |
| OrderBook.MEOrderBook.CheckForMatch | exchange/matcher/me_order_book.cpp:215-241 | The loop over the pointer structure terminates and equals the recursive match over the listed side, messages included |
| OrderBook.MEOrderBook.Add | exchange/matcher/me_order_book.cpp:28-47 | The book and everything sent are those of the specified add; blocks and a price slot are needed only for what rests, and only once matching has freed what it frees |
| OrderBook.MEOrderBook.Cancel | exchange/matcher/me_order_book.cpp:49-76 | The book and everything sent are those of the specified cancel, refusal included |
| Engine.MatchingEngine.CreateBooks | exchange/matcher/matching_engine.cpp:11-13 | One empty book for each instrument, sharing nothing but the queues |
| Engine.MatchingEngine.ProcessClientRequest | exchange/matcher/matching_engine.cpp:58-76 | Serving a request changes the one book and the two queues as specified and no other book |
| Snapshot.SnapshotRebuildsBook | exchange/market_data/snapshot_sythesizer.cpp:105-146 | Whatever a client held, replaying a snapshot leaves it with exactly the book of the stream folded so far, queue order included |
| SnapshotLines.SnapshotLists | exchange/market_data/snapshot_sythesizer.cpp:105-146 | A snapshot is, between two markers with the number of the last update folded in, a CLEAR for every instrument, each followed by its orders by ascending id, every one of them once and nothing else |
| Snapshot.BelowNext | exchange/market_data/snapshot_sythesizer.cpp:126-134 | Adding the order with the next id puts it exactly where the full book has it, because arrival order in a level is ascending id |
| Snapshot.SynthesizeMirrors | exchange/market_data/snapshot_sythesizer.cpp:51-103 | The synthesizer's orders are exactly the live orders of the stream, as they stand |
| Publishing.MarketDataPublisher.Drain | exchange/market_data/market_data_publisher.cpp:43-69 | Wire and synthesizer get the same updates numbered from 1 without gap |
| Publishing.SnapshotSynthesizer.AddToSnapshot | exchange/market_data/snapshot_sythesizer.cpp:51-103 | Accepts exactly the updates its checks let through, and records them |
| Publishing.SnapshotSynthesizer.Drain | exchange/market_data/snapshot_sythesizer.cpp:32-42 | On the exchange's own stream no check fails, and the whole stream so far is folded in |
| Publishing.SnapshotSynthesizer.PublishSnapshot | exchange/market_data/snapshot_sythesizer.cpp:105-146 | Start marker, for each instrument a CLEAR and its orders in ascending id, end marker, numbered from 0 |
| Publishing.NextIsAcceptable | exchange/market_data/snapshot_sythesizer.cpp:57-102 | The exchange's next update passes every check of the synthesizer |
| Publishing.AddAsWritten | exchange/market_data/snapshot_sythesizer.cpp:57-63 | As written, a new order is recorded rightly, and its removal accepted, exactly when its order id equals its ticker id |
| Publishing.LedgerHoldsOpen | exchange/market_data/snapshot_sythesizer.cpp:57-101 | After any updates that make sense the synthesizer holds exactly the orders added and not removed since, with the side and priority they were added with and the price and quantity last said |
| Publishing.TakesWhatMakesSense | exchange/market_data/snapshot_sythesizer.cpp:51-103 | Whatever it has taken in, it takes in a numbered update if and only if the number is the next and the update adds an order that is not there, or changes or removes one that is, on its side |
| Recovery.RecoveryIsSafe | trading/market_data/market_data_consumer.cpp:57-256 | Over any loss, duplication and reordering, if each snapshot that looks whole comes from one publication: whenever the consumer is not in recovery what it passed on rebuilds every book of the log up to its next expected number |
| Recovery.CheckIsSafe | trading/market_data/market_data_consumer.cpp:147-256 | A recovery that completes from one publication's snapshot splices it and queued updates into exactly the log's book |
| Recovery.OneSourceIsSnapshot | trading/market_data/market_data_consumer.cpp:160-194 | A queue that looks whole and comes from one publication is that snapshot, message for message |
| SyncCheck.CheckIsExact | trading/market_data/market_data_consumer.cpp:147-256 | Whatever the queues hold: recovery ends if and only if the snapshot queue has exactly the numbers 0 to some n between START and END, and the incremental queue, above the number in END, exactly the numbers up to some last one, no marker before it; otherwise the snapshot is kept if it may still be completed and given up if not |
| SyncCheck.CheckEnds | trading/market_data/market_data_consumer.cpp:237-256 | When it ends, all but the markers is passed on, snapshot first, in order of number, and both queues are emptied |
| MarketData.MarketDataConsumer.CheckSnapshotSync | trading/market_data/market_data_consumer.cpp:147-256 | Leaves recovery exactly when the queued snapshot is contiguous from 0 between START and END and the queued updates above the anchor are contiguous; passes on its orders followed by those updates |
| MarketData.MarketDataConsumer.ScanSnapshot | trading/market_data/market_data_consumer.cpp:160-190 | Finds the snapshot complete exactly when its numbers are 0, 1, 2, ..., and collects all but the markers |
| MarketData.MarketDataConsumer.ScanIncrementals | trading/market_data/market_data_consumer.cpp:204-236 | Finds the continuation complete exactly when it has no gap above the anchor, and collects it |
| MarketData.MarketDataConsumer.QueueMessage | trading/market_data/market_data_consumer.cpp:125-145 | A snapshot message seen twice empties the snapshot queue first; then the message is queued and the check made |
| MarketData.MarketDataConsumer.ProcessMessage | trading/market_data/market_data_consumer.cpp:79-102 | A wrong number starts recovery with empty queues; in order, an incremental is passed on |
| MarketData.MarketDataConsumer.RecvCallback | trading/market_data/market_data_consumer.cpp:57-109 | One read is its messages one after the other; snapshots outside recovery are ignored |
| Anchors.AnchorsDecide | trading/market_data/market_data_consumer.cpp:154-202 | Over a channel that keeps order, a snapshot that looks whole comes from one publication if and only if its two markers name the same anchor |
| Anchors.AnchoredIsSafe | trading/market_data/market_data_consumer.cpp:79-256 | For the code as written, over a channel that loses and repeats but keeps order: in runs in which every whole-looking snapshot names one anchor in both markers, whenever the consumer is not in recovery it has passed on exactly the book of the log up to its next expected number |
| Anchored.AnchoredIsUsable | trading/market_data/market_data_consumer.cpp:243-247 | In such runs of the code as written everything passed on can be applied |
| Anchors.MixedSnapshotLosesAnOrder | trading/market_data/market_data_consumer.cpp:154-202 | Without that comparison genuine messages in published order can end recovery with an order missing for good |
| Anchors.MixedSnapshotDoesNoHarm | trading/market_data/market_data_consumer.cpp:154-202 | The comparison is not necessary: there are messages in published order with different anchors that rebuild the right book, because no book changed between the two snapshots |
| Comparing.ComparingIsSound | trading/market_data/market_data_consumer.cpp:147-256 | A consumer that compares the anchors, and gives up a snapshot in which they differ, is safe over every run of a channel that keeps order, mixed snapshots included: outside recovery it has passed on exactly the book of the log up to its next expected number, and everything it passed on has a source |
| Comparing.ComparingIsSafe | trading/market_data/market_data_consumer.cpp:57-256 | The same read by read, and everything it passed on can be applied |
| Progress.RecoveryCompletes | trading/market_data/market_data_consumer.cpp:147-256 | A recovering consumer that receives a whole published snapshot, message by message, leaves recovery if and only if its queued updates continue it without a gap; it then expects the number behind the last of them and has passed on the snapshot's orders and those updates, whether it compares anchors or not |
| Listening.KeepsWhatCame | trading/market_data/market_data_consumer.cpp:79-145 | Over any messages at all, a recovering consumer holds exactly the incrementals that came since the recovery began, each under its number, the one that revealed the gap included |
| Listening.RunRecovers | trading/market_data/market_data_consumer.cpp:57-256 | After any reads that have left it recovering, a consumer sent a whole snapshot ends its recovery if and only if the incrementals that came since the recovery began, of those above the anchor, are numbered up to some last one without a gap; it then has passed on the snapshot's orders and those incrementals, expects the number behind the last, and holds every book of the log up to it |
| Listening.StaysInStep | trading/market_data/market_data_consumer.cpp:57-102 | A consumer that is not recovering and is sent what it expects passes on exactly that and stays out of recovery, whatever snapshots are sent in between |
| Listening.ReadsAreMessages | trading/market_data/market_data_consumer.cpp:57-109 | Read by read or message by message comes to the same, where a read of snapshots that begins outside recovery is not looked at |
| Downstream.OutputIsTraced | trading/market_data/market_data_consumer.cpp:79-102 | Under the one-publication hypothesis every update passed on is an entry of the log met with the book in front of it, or an order of one of the log's books restated and met with its older orders, or a CLEAR |
| Downstream.OutputIsUsable | trading/market_data/market_data_consumer.cpp:243-247 | Under the one-publication hypothesis everything passed on over any run can be applied: it never names an order the client's book does not hold |
| Bbo.CacheStaysCoherent | trading/strategy/market_order_book.cpp:21-24 | Skipping the refresh for worse-priced updates never leaves the cached best price wrong, nor the cached quantity as the total of all orders at that price |
| Bbo.CacheAsWritten | trading/strategy/market_order_book.cpp:21-24 | The guard as written leaves the cache wrong exactly for the first order of a side and for a CLEAR not priced at the top |
| Bbo.CacheFollowsStream | trading/strategy/market_order_book.cpp:20-93 | Over any stream that can be applied, rebuilds included, the cache holds for each side a price that is offered and that none betters, and the total quantity of all its orders at that price |
| ReplicaBook.MarketOrderBook.IsTouched | trading/strategy/market_order_book.cpp:21-24 | Answers, from the pointer structure, whether the update may change the top of a side |
| ReplicaBook.MarketOrderBook.UpdateBBO | trading/strategy/market_order_book.cpp:232-261 | The refreshed sides of the cache hold the best price and the total quantity of all orders at it, the others keep their values |
| ReplicaBook.MarketOrderBook.OnMarketUpdate | trading/strategy/market_order_book.cpp:20-93 | The pointer structure follows the update exactly, the cache agrees with the book afterwards, and the invariant holds |
| ReplicaBook.MarketOrderBook.Follow | trading/strategy/trade_engine.cpp:101-110 | The updates of a stream that are for the instrument are applied in order, and the pointer structure holds exactly the book they describe |
| EndToEnd.LogIsLegal | exchange/matcher/me_order_book.cpp:28-76 | What the exchange sends for accepted requests is a stream that synthesizer and clients can follow |
| EndToEnd.ClientSeesExchange | trading/market_data/market_data_consumer.cpp:57-256 | Under the one-publication hypothesis, a client that is not recovering and has caught up has passed on updates that describe, for every instrument, exactly the exchange's book, with the cached best prices to match, and it is not crossed |
| EndToEnd.ComparingClientSeesExchange | trading/market_data/market_data_consumer.cpp:57-256 | The same, read by read, for a client that compares the anchors, over every run of a network that loses and repeats messages but keeps their order, mixed snapshots included |
| EndToEnd.AnchoredClientSeesExchange | trading/market_data/market_data_consumer.cpp:57-256 | The same, read by read, for the code as written over such a network, in runs in which the comparison it leaves out would never have failed |
| EndToEnd.ClientCanFollow | trading/strategy/market_order_book.cpp:20-52 | Over any such run, recovering or not, the client's pointer book can apply everything passed on: each order changed is there, and each order added, inside snapshots too, finds its price slot free of other prices and sides and a free block, if the exchange had a place for every order that came to rest |
| EndToEnd.ComparingClientCanFollow | trading/strategy/market_order_book.cpp:20-52 | The same for a client that compares the anchors, over every run of a network that keeps order |
| EndToEnd.AnchoredClientCanFollow | trading/strategy/market_order_book.cpp:20-52 | The same for the code as written over such a network, in runs in which the comparison would never have failed |
| ClientOrders.RiskIsExact | trading/strategy/risk_manager.cpp:14-28 | For 32-bit limits the gate, with every step in wrapping 32-bit arithmetic, lets through exactly the orders of allowed size whose complete fill keeps the position within the limit while the loss is allowed, for every position within the limit, side and 32-bit quantity, if and only if the two limits add up to less than 2^31 |
| ClientOrders.SumFits | trading/strategy/risk_manager.cpp:19-22 | No order of allowed size takes a position within the limit out of the 32-bit range if and only if the two limits add up to less than 2^31 |
| ClientOrders.RiskGateCanBePassed | trading/strategy/risk_manager.cpp:19-22 | Whenever the limits add up to 2^31 or more, with a position limit below that, an order that is not permitted gets through from a position at the limit |
| ClientOrders.GateTellsWhy | trading/strategy/risk_manager.cpp:14-28 | With small limits the gate's answer names the first limit that the order would break: its size, the position after a complete fill, the loss; or none |
| ClientOrders.MoveOrderDoes | trading/strategy/order_manager.cpp:51-110 | On either side: a live order with another price or quantity is cancelled by its own id and waits; an idle slot is given a new order, as wanted and with the next id, if the price is one and the gate allows it; otherwise nothing is sent; no other slot changes |
| ClientOrders.MoveOrdersDoes | trading/strategy/order_manager.cpp:112-119 | Quoting does that to the bid slot with the bid price and then to the ask slot with the ask price, both with the clip, requests and ids in that order; with the repair |
| ClientOrders.HearingDoes | trading/strategy/order_manager.cpp:12-45 | An acknowledgement makes the slot's order live, a cancellation or last fill ends it, a fill leaves it what the response says is left, a refusal changes nothing; nothing else of the order, no other slot and, but for a fill, no position changes |
| ClientOrders.MoveOrdersAgree | trading/strategy/order_manager.cpp:112-119 | Quoting the ask at the bid price goes unnoticed exactly when the prices are equal, the ask slot waits for an answer, it is idle and the gate refuses, or it is live and has the wrong quantity or is quoted at neither price |
| Positions.ProfitIdentity | trading/strategy/position_keeper.hpp:39-82 | With the repairs, exact products among them, over any fills, partial closes and flips included, realised plus unrealised profit at the last price is net cash flow plus position times price, and the total is their sum |
| Positions.FillBalances | trading/strategy/position_keeper.hpp:39-60 | With the repairs, exact products among them, every fill keeps realised profit equal to cash plus the cost of what is open, and the closed side's accumulator zero |
| Positions.FillDoes | trading/strategy/position_keeper.hpp:39-60 | With the repairs, profit is realised against the average entry price and only on what a fill closes; a partial close leaves the average of the rest alone, and what goes beyond flat is opened at the fill's price |
| Positions.QuoteBalances | trading/strategy/position_keeper.hpp:84-107 | A quote revalues the open position at the mid price and keeps the books balanced |
| Positions.ProfitAsWritten | trading/strategy/position_keeper.hpp:48-75 | As written, with products in wrapping 32 and 64 bits, the identity survives a fill exactly when: it adds to the position and its value fits 64 bits; or it closes a part of a position with average entry price zero; or it closes the position exactly; or it goes through zero, and either the 32-bit product of the positions is negative and the value of the rest fits 64 bits, or it is not negative and the price is zero |
| Positions.AsWrittenIsOff | trading/strategy/position_keeper.hpp:39-75 | As written, by exactly how much a fill makes profit differ from cash plus market value, in each case |
| Positions.FlipGoesUnnoticed | trading/strategy/position_keeper.hpp:56 | As written, buying 60000 at 1 and selling 120000 at 1 from flat leaves profit off by 60000 |
| Positions.QuoteAsWritten | trading/strategy/position_keeper.hpp:84-107 | As written, a quote revalues rightly exactly when it is ignored anyway or the sum of its prices fits 64 bits |
| Positions.TotalAsWritten | trading/strategy/position_keeper.hpp:62-75 | As written, the total is right after a fill to flat exactly when the position was last valued at that fill's price |
| Positions.TotalAfterFills | trading/strategy/position_keeper.hpp:62-75 | As written, after any fills, the total is right after a fill to flat exactly when that fill repeats the price of the fill before |
| Positions.TotalAfterQuote | trading/strategy/position_keeper.hpp:62-112 | As written, with a quote in between, exactly when the closing fill is at the mid price of the quote |
| Accounts.PositionsAreInOrder | trading/strategy/position_keeper.hpp:39-112 | With the repairs, after any responses and quotes whose fills stay within 32 bits: the position is what the responses say was bought less what was sold, the volume their sum, and total profit the money they say came in less what went out plus the position at the latest price, all of it realised when flat |
| Earnings.EarningsOverRuns | trading/strategy/trade_engine.cpp:114-145 | The same over every run against the exchange, with no assumption about the fills |
| Trader.PositionInfo.Book | trading/strategy/position_keeper.hpp:39-60 | Position, volume, realised profit and accumulators after a fill, with the repairs: exact products and the rescaled accumulator |
| Trader.PositionInfo.AddFill | trading/strategy/position_keeper.hpp:39-82 | The whole position record after a fill, with the repairs |
| Trader.PositionInfo.UpdateBBO | trading/strategy/position_keeper.hpp:84-112 | The position record after a quote |
| Trader.OrderManager.NewOrder | trading/strategy/order_manager.cpp:51-64 | One NEW with a fresh id is sent and the slot waits for it |
| Trader.OrderManager.CancelOrder | trading/strategy/order_manager.cpp:66-76 | One CANCEL of the slot's order is sent and the slot waits for it |
| Trader.OrderManager.CheckPreTradeRisk | trading/strategy/risk_manager.cpp:14-28 | The gate's answer for the instrument's position and limits |
| Trader.OrderManager.MoveOrder | trading/strategy/order_manager.cpp:77-110 | The slot machine: cancel a live order that should change, try a new one from an idle slot, otherwise wait |
| Trader.OrderManager.MoveOrders | trading/strategy/order_manager.cpp:112-119 | Both slots are moved, bid first |
| Trader.OrderManager.OnResponse | trading/strategy/order_manager.cpp:12-45 | The slot's state and quantity after a response |
| Trader.OrderManager.OnOrderUpdate | trading/strategy/trade_engine.cpp:135-145 | A fill goes to the position and then every response to its slot |
| Trader.OrderManager.OnOrderBookUpdate | trading/strategy/trade_engine.cpp:114-121 | A new best bid and offer revalues that instrument's position and nothing else |
| ClientEffect.MatchTellsIncoming | exchange/matcher/me_order_book.cpp:252-255 | The owner of an incoming order is told a chain of fills from its quantity down to what is left; nobody else is told about that side |
| ClientEffect.MatchTellsResting | exchange/matcher/me_order_book.cpp:257-260 | At most one resting order of a client is hit, at most once, and what the client is told is what happened to it |
| ClientEffect.AddTellsOwn | exchange/matcher/me_order_book.cpp:28-47 | The sender of a NEW is told an acknowledgement and fills down to exactly what rests; others see nothing change on that side |
| ClientEffect.CancelTells | exchange/matcher/me_order_book.cpp:49-76 | A cancel takes and reports exactly the order it names; a refusal is about no order |
| Agreement.AtMostOne | trading/strategy/order_manager.cpp:77-110 | At most one order of the client rests for a slot, it is the slot's, and an idle slot has none |
| Agreement.HearResponse | trading/strategy/order_manager.cpp:12-45 | Hearing the oldest response keeps slot and exchange in agreement, and a fill is for an open order and leaves what the slot had minus what was traded |
| Agreement.SendNew | trading/strategy/order_manager.cpp:51-64 | Sending a new order from an idle slot keeps agreement, even with a stale cancel still on its way |
| Agreement.SendCancel | trading/strategy/order_manager.cpp:66-76 | Cancelling a live order keeps agreement |
| Agreement.ServeNew | exchange/matcher/me_order_book.cpp:28-47 | Serving the NEW keeps agreement |
| Agreement.ServeCancel | exchange/matcher/me_order_book.cpp:49-76 | Serving a CANCEL keeps agreement, current or stale |
| Agreement.GetHit | exchange/matcher/me_order_book.cpp:242-277 | Being hit by somebody's order keeps agreement |
| Protocol.RunKeeps | trading/strategy/order_manager.cpp:12-110 | Over every run of moves of any quantity, responses, quotes, served requests and other clients' requests the whole invariant holds |
| Protocol.PositionLimit | trading/strategy/risk_manager.cpp:14-28 | Over every run the position would stay within the limit even if the open orders filled completely, so it is within the limit |
| Protocol.QuotesAreExact | trading/strategy/order_manager.cpp:77-110 | Over every run, moving an order cancels a live one that differs, and places one from an idle slot exactly when the price is one, the quantity is within its limit, a complete fill keeps the position within its limit, and the loss is allowed |
| Protocol.ClientAndExchangeAgree | trading/strategy/order_manager.cpp:12-110 | Over every run at most one order rests for each slot, an idle slot has none, and with nothing on its way the slot is idle, or live with its order resting with the same id, price and quantity, or holds an order of quantity zero |
| Protocol.PositiveRunsAgree | trading/strategy/order_manager.cpp:12-110 | Over every run in which no quantity of zero is asked for there is no exception: with nothing on its way a slot is idle with nothing resting, or live with its order resting with the same id, price and quantity |
| Protocol.RunsComeToRest | trading/strategy/order_manager.cpp:12-110 | After any run, once the requests on their way are served and the responses heard, nothing is on its way and every slot is idle or live or holds an order of quantity zero |
| Protocol.OwnIsAdmissible | exchange/matcher/me_order_book.cpp:28-34 | The client never reuses a name that is resting |
| Protocol.ZeroIsPlaced | trading/strategy/order_manager.cpp:77-110 | A quantity of zero takes an idle slot exactly when the loss is allowed |
| Protocol.ZeroIsRefused | exchange/matcher/me_order_book.cpp:28-76 | The exchange acknowledges an order of quantity zero without resting it, and refuses its cancel without naming a side |
| Protocol.ZeroSticks | trading/strategy/order_manager.cpp:12-110 | Once a slot holds an order of quantity zero it holds that order for ever, whatever happens after in any order: the order never rests, the slot never becomes free, and once it waits for the cancel it waits for ever |
| LFQueue.FirstInFirstOut | common/lf_queue.hpp:28-51 | Under every interleaving what was read is a prefix of what was published, equal indexes mean nothing is unread, and writer and reader never hold the same slot |
| LFQueue.PublishesWhatIsBrought | common/lf_queue.hpp:28-35 | Under every interleaving what was published is, value for value and in order, what the writer brought, all but the one it may have in hand |
| LFQueue.ReaderGetsNext | common/lf_queue.hpp:37-51 | With something unread and no write under way the reader takes the next value in eight accesses, guarded or not |
| LFQueue.WriterGetsThrough | common/lf_queue.hpp:28-35 | With room for one more the writer publishes its value in five accesses |
| LFQueue.GuardedNeverAsserts | exchange/order_server/order_server.cpp:48-64 | For a reader that tests `size()` the assertion never fires |
| LFQueue.UnguardedCanAssert | exchange/matcher/matching_engine.cpp:47-53 | For a reader that does not there is an interleaving in which it fires |
| LFQueue.OverrunLooksEmpty | common/lf_queue.hpp:32-40 | Publishing into a ring with one free slot makes it look empty |
| Wire.DecodeEncode | exchange/order_server/client_request.hpp:31-60 | A sequenced request that is written is read back |
| Wire.Layout | exchange/order_server/client_request.hpp:31-60 | Where each field lies in the record, packed, its lowest byte first |
| Wire.EncodeDecode | exchange/order_server/client_request.hpp:31-60 | Every record is the encoding of what is read from it |
| Framing.SplitsDoNotMatter | exchange/order_server/order_server.cpp:75-112 | However the stream is split into reads the same requests are let through, and less than one record waits |
| Connections.WaitingIsRemainder | exchange/order_server/order_server.cpp:75-112 | However the reads of many connections interleave, what waits in each socket's buffer is the remainder of its own stream |
| Connections.AcceptedInSequence | exchange/order_server/order_server.cpp:85-107 | Whatever arrives on whatever sockets, each client's accepted numbers are 1, 2, 3, ..., and every client with an accepted request has a socket |
| Connections.HeardAsIfAlone | exchange/order_server/order_server.cpp:85-107 | For a client that only one socket speaks for, the accepted requests are exactly those of its messages on that socket that carried the next number, whatever the other sockets bring in between |
| Connections.SpokenForOnce | exchange/order_server/order_server.cpp:85-107 | Whoever names a client, on whatever sockets, what has been accepted for it came on the socket that named it first, and is, of the messages that named it there, each one that carried the next number |
| Connections.GatewayToServer | trading/order_gw/order_gateway.cpp:45-56 | With a gateway on each socket, however the bytes arrive and the reads interleave, the server has accepted for each client exactly the requests that are complete, which are the first ones its gateway dequeued |
| Server.TCPSocket.Read | common/tcp_socket.cpp:41-43 | A read appends to the waiting bytes |
| Server.TCPSocket.MemCpy | exchange/order_server/order_server.cpp:109-110 | The copy is made between regions that do not overlap |
| Server.OrderServer.OnRequest | exchange/order_server/order_server.cpp:85-106 | The socket and sequence checks for one request |
| Server.OrderServer.RecvCallback | exchange/order_server/order_server.cpp:70-113 | The complete records are decoded and checked in order and the remainder, shorter than a record, moves to the front |
| Gateway.ResponseRouter.Drain | exchange/order_server/order_server.cpp:48-66 | Every client's stream carries exactly its responses, in order, numbered from 1; every answered client must have a socket |
| Gateway.OrderGateway.SendRequests | trading/order_gw/order_gateway.cpp:45-56 | The bytes written are those of the dequeued requests, in order, numbered from 1 |
| Gateway.OrderGateway.RecvCallback | trading/order_gw/order_gateway.cpp:64-91 | What is passed on is what the client and sequence checks let through of all messages received |
| Gateway.ForClientPicks | exchange/order_server/order_server.cpp:48-66 | A client's stream has all the responses that name it, no others, in order |
| Gateway.HeardInTurn | trading/order_gw/order_gateway.cpp:64-91 | Whatever reaches a gateway, what it passes on is for its own client and is the first message numbered 1, the first behind it numbered 2, and so on for as long as there is one |
| Gateway.ServerToGateway | trading/order_gw/order_gateway.cpp:64-91 | Whatever part of its stream has reached a client's gateway, exactly that many of its responses have been passed on, from the first |
| Crossing.SellAsWritten | exchange/matcher/me_order_book.cpp:229-238 | As written, a SELL is matched rightly exactly when there is nothing to match, or the best bid is at its limit and enough is bid there or nothing else is bid |
| Misnaming.CancelableAsWritten | exchange/matcher/me_order_book.cpp:28-76 | As written, over any later requests, a cancel by the sender of a resting order finds that very order if and only if the sender's client id is the instrument's id and no order with the same client order id, whoever sent it, has come to rest or left since |
| Misnaming.AloneIsCancelable | exchange/matcher/me_order_book.cpp:28-76 | As written, as long as no other order with its client order id rests, a sender can cancel its order exactly when its client id is the instrument's id |
| Misnaming.CollisionAsWritten | exchange/matcher/me_order_book.cpp:38-58 | As written, one client's cancel takes another client's order of the same number, and once that order is gone the first client's own cannot be cancelled |
| AsWritten.InsertAsWritten | exchange/matcher/me_order_book.cpp:106-165 | As written, linking in a level gives a sorted ring exactly for the first level of a side and for a price worse than all others, except a BUY at price zero |
| AsWritten.ScanLevels | exchange/matcher/me_order_book.cpp:119-139 | Where the scan as written stops |
| AsWritten.ClearAsWritten | trading/strategy/market_order_book.cpp:53-76 | As written, the layout is right after a CLEAR exactly when there was nothing to clear |

## Left out

- Sockets, epoll, multicast groups, timestamps, threads and their start and stop: input and output are byte sequences, message sets and events.
- Logging, `toString` and the strategies (feature engine, market maker, liquidity taker): their calls to `moveOrders` are arbitrary events.
- The FIFO sequencer: one library sort that is not stable; per-client order into the engine is assumed instead.
- Record layouts other than the client request: responses and market updates travel as values.
- Gateway.OrderGateway.RecvCallback: takes the decoded records of a read; its buffer is cut into records by the same loop as the server's, which `Server.OrderServer.RecvCallback` models byte by byte.
- MarketData.MarketDataConsumer.RecvCallback: takes the whole messages of a read; the cutting of the buffer is again that loop.
- LFQueue.FirstInFirstOut: does not model the memory order of the non-atomic slot accesses; every access is one step of a sequentially consistent system.
- Pool.MemPool.Allocate: blocks hold values, so aliasing of stale pointers into a freed block is not captured; the process exit on an exhausted pool is the result `None`.
- Server.OrderServer.OnRequest: client ids of 256 and above are dropped; the source indexes its tables with them unchecked.
- OrderRings.OrderRings.Find: the order indexes are maps; the arrays of the source abort on an id beyond their size.
- PositionKeeper and RiskManager tables: positions and limits of the instruments are sequences handed to `OrderManager`.
- How soon a client recovers: a network that loses enough can prevent it for ever; `Listening.RunRecovers` says what is enough.

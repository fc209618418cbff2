# Order book and autopilot: a verified model

This project models the stateful core of the CoW Protocol services in Dafny and proves what that core
promises: the auction run loop of the autopilot and the leader lock in front of it, the relational
layer below (order queries, trade pages, competition tables, event tables), the pipeline that turns
database orders into an auction, the CoW AMM index, the block stream and the order encoding.

Tables are maps from primary key to row. Queries are comprehensions over those maps. A concurrent
protocol is a `Next` function over its steps and a `Run` over a list of steps; a step that is not possible
leaves the state unchanged, so a theorem about all lists of steps is a theorem about all interleavings.
Code that updates things in place is a class or a loop, proved equal to a specification function, and the
properties are proved of that function. Answers of drivers, nodes, the database and the clock are
parameters, including every way in which they can fail.

| file | what it holds |
|---|---|
| `Common.dfy`, `Tables.dfy`, `Sequences.dfy` | identifiers, conflict handling and sums, filtering and sorting |
| `OrderQueries.dfy`, `OrderStore.dfy`, `IncrementalOrders.dfy` | order tables, full and incremental query, the cache refreshed by the latter |
| `SolverCompetition.dfy`, `CompetitionRoundTrip.dfy` | storing and reading back a solver competition |
| `AuctionProtocol.dfy`, `OrdersInFlight.dfy`, `RunLoop.dfy`, `LeaderLock.dfy`, `BlockStream.dfy` | the run loop, its in-flight query, its lock and its blocks |
| `TradePages.dfy`, `Attribution.dfy` | trade pages, and which settlement a trade belongs to |
| `EventReplay.dfy`, `OrderEvents.dfy` | event tables under reorgs, the order event log |
| `AmmCache.dfy` | the CoW AMM cache beside its table |
| `OrderPipeline.dfy`, `PricePriority.dfy` | from solvable orders to an auction, and which prices to fetch first |
| `OrderEncoding.dfy` | EIP-712 preimage and order uid |

## Where code and promise differ

Each point is stated as a lemma. Where the promise can hold, the lemma gives the exact condition under which
it does, and another one an input for which it does not.

- The cache of solvable orders goes on from the block of the last stored settlement and from the time of the
  last read, less a minute. Rows that are stored later with that block or an earlier one are not picked up:
  the fee of an order whose settlement was read before the fee was stored, an on-chain order whose indexer
  lags behind the one for settlements, a fill taken back by a reorg. The minute moves the time and not the
  block (`IncrementalOrders.RefreshHealthyIff`, `IncrementalOrders.CacheOverWholeRuns`,
  `IncrementalOrders.FeeStoredAfterRead`, `IncrementalOrders.PlacementIndexedAfterSettlement`,
  `IncrementalOrders.FillRevertedAfterRead`).
- A healthy cache still differs from the full query on refunded orders, and on new ethflow orders: their user
  deadline is written before their row exists, so the row keeps the signed deadline
  (`IncrementalOrders.HealthyEqualsFullQueryIff`, `IncrementalOrders.EthflowDeadlineStoredIff`,
  `IncrementalOrders.ExpiredEthflowOrderDiverges`, `IncrementalOrders.RefundedOrderDiverges`).
- For the same reason, indexing a batch table by table differs from placing its orders one by one if it places
  a new order twice (`OrderStore.PassesPlaceEachOrderIff`, `OrderStore.PlacedTwiceDiffers`).
- The loop is meant to run the solvers only if the auction or the block changed. The block is remembered
  only when two auctions compare equal, so the first repetition always runs (`RunLoop.UnchangedRunsAgainIff`,
  `RunLoop.FirstRepetitionRuns`).
- A failed read of the orders in flight counts as no order in flight (`AuctionProtocol.ExclusionNeedsTheRead`).
- The lock decides who starts an iteration, not who is inside one. A leader whose session dies goes on with
  the auction it is running while the next leader cuts its own, and neither sees what the other has not
  stored yet: an order can be settled twice in one window (`AuctionProtocol.LateTaskIff`,
  `AuctionProtocol.OverlappingLeadersSettleTwice`, `LeaderLock.LeadershipPassesOnDeath`).
- A failed ping or request is taken to mean that its session is dead. If it is alive, the server may keep the
  lock for a session without a guard, and no other instance can lead until that session ends
  (`LeaderLock.NeverOrphanedIff`, `LeaderLock.LostPingOrphansLock`).
- Limits are pushed into the branches of the trades query. A JIT order that was settled twice has two rows,
  each of its trades is then found twice in that branch, and a page can miss a trade
  (`TradePages.PushDownSoundIff`, `TradePages.SettledTwiceIsUnsound`).
- `delete` cuts a block number above the largest signed 64-bit integer to that integer, which deletes one
  block too many (`EventReplay.ReplayIff`, `EventReplay.LastBlockIsLost`).
- The AMM cache takes in a pool whose block number cannot be stored, and a pool that is delivered twice
  (`AmmCache.AppendAgreesIff`, `AmmCache.UnstorablePoolDisagrees`, `AmmCache.RedeliveredPoolDisagrees`).
- An order event that arrives late is compared with a later one and can repeat the label of its neighbour in
  time (`OrderEvents.InsertKeepsNeighboursIff`, `OrderEvents.LateEventRepeatsLabel`).
- The documentation of the full query says that orders waiting for a pre-signature are excluded; it returns
  them with a flag (`OrderQueries.PendingIsReturned`).
- The documentation of `throttle` speaks of every n-th update; it forwards every (n + 1)-th
  (`BlockStream.ThrottledEvery`).
- The log message for a token whose quality is unknown says that it is assumed to be good; its orders are
  dropped (`OrderPipeline.UnknownTokenIsDropped`).

## Model

| member | source | states |
|---|---|---|
| `AuctionProtocol.NoOrderOfferedWhileInFlight` | crates/autopilot/src/run_loop.rs:267-378 | In every run in which no instance cuts an auction while another one is running its own, with any interleaving of blocks, cache updates, cuts, competitions, partial storage failures, settlement starts, settlement events and reorgs: an auction being solved contains no order of a started settlement whose deadline is after the auction's block, unless that settlement was recorded when the auction was cut, provided the in-flight read worked. |
| `AuctionProtocol.SettleWindowsDisjoint` | crates/autopilot/src/run_loop.rs:699-758 | In every such run, settle requests of two auctions for the same order, with the first settlement not recorded at the second cut, lie in disjoint block windows: the later one starts at or after the deadline of the earlier one. |
| `AuctionProtocol.RunsKeepInv` | crates/autopilot/src/run_loop.rs:301-378 | Every state that any number of instances can reach keeps the protocol invariant: running auctions have different ids with nothing stored for them, everything the in-flight query needs about a started settlement is stored, every cut excludes the tasks it knew about, and requests start between their auction's block and their deadline. |
| `AuctionProtocol.SingleLeaderIsClean` | crates/autopilot/src/run_loop.rs:144-178 | Every run of a single instance is such a run, so both results hold for it without a condition. |
| `AuctionProtocol.LateTaskIff` | crates/autopilot/src/run_loop.rs:144-178 | After an auction is cut, a settlement of an older auction that the cut could not take into account can still be started if and only if another instance was running an auction at that moment, whoever holds the lock. |
| `AuctionProtocol.OverlappingLeadersSettleTwice` | crates/autopilot/src/run_loop.rs:267-378 | Two instances that overlap like this and offer the same order go on to request its settlement in overlapping block windows, with both in-flight reads working. |
| `AuctionProtocol.StoredIsInFlight` | crates/database/src/solver_competition_v2.rs:463-484 | The in-flight query finds every order of a stored winning solution before its deadline unless that solution has a settlement. |
| `OrdersInFlight.InFlightAreUnsettledWins` | crates/database/src/solver_competition_v2.rs:463-484 | Over every run, with any storage failures, settlements and reorgs, starting from tables that hold some wins: the in-flight query returns an order if and only if a winning bid that was stored before or during the run has the order, a deadline after the block, and no settlement recorded for it. |
| `OrdersInFlight.CompeteAddsWinners` | crates/database/src/solver_competition_v2.rs:463-484 | In every reachable state and whatever fails while it is stored, a competition puts exactly the orders of its stored winning bids in flight, as long as their deadline is ahead and they have no settlement. |
| `OrdersInFlight.LosersAreOffered` | crates/autopilot/src/run_loop.rs:872-897 | An order that was not in flight and that no winning bid has is still offered by the cut after the competition. |
| `OrdersInFlight.WinnersAreNotOffered` | crates/autopilot/src/run_loop.rs:872-897 | An order of a stored winning bid is not offered by that cut before its deadline unless it was settled. |
| `OrdersInFlight.SettlementReleases` | crates/database/src/solver_competition_v2.rs:463-484 | After a settlement of a win is recorded, or once its deadline has passed, an order of it is in flight if and only if another win has it that is neither settled nor out of time. |
| `AuctionProtocol.SaveStores` | crates/autopilot/src/run_loop.rs:433-560 | Saving a competition under a new auction id stores the header of every bid under its rank and a row for each of its orders, so that the task started for that rank is found again. |
| `AuctionProtocol.RemoveInFlightOrders` | crates/autopilot/src/run_loop.rs:872-897 | The in-place removal takes out every occurrence of an order in flight and of a JIT order owner with an order in flight, and nothing else; what is left keeps its order, block and prices are untouched, and a failed read removes nothing. |
| `AuctionProtocol.ExclusionNeedsTheRead` | crates/autopilot/src/run_loop.rs:872-897 | The cut auction shares no order with the orders in flight if and only if the read worked or the cached auction had none of them. |
| `RunLoop.NextAuction` | crates/autopilot/src/run_loop.rs:233-255 | An auction is skipped exactly if it equals the remembered one and the remembered block is the start block; the block is remembered only on equality; no auction leaves the memory unchanged. |
| `RunLoop.SkippedOnlyIfRun` | crates/autopilot/src/run_loop.rs:195-255 | Over whole runs: a skipped auction was sent to the solvers before, unchanged and in the same block. |
| `RunLoop.RunAtMostTwice` | crates/autopilot/src/run_loop.rs:195-255 | In a stretch of unchanged auction and block, every iteration from the third on is skipped. |
| `RunLoop.UnchangedRunsAgainIff` | crates/autopilot/src/run_loop.rs:240-250 | An unchanged auction in an unchanged block runs again if and only if no earlier iteration in this block compared equal to its predecessor. |
| `RunLoop.FirstRepetitionRuns` | crates/autopilot/src/run_loop.rs:240-250 | The first repetition of any auction runs: the same auction is sent twice in one block. |
| `RunLoop.StartBlocksFromStream` | crates/autopilot/src/run_loop.rs:195-228 | Whatever the node sends, start blocks taken from the channel (its value, or a later one that is waited for) never fall in number, and number and hash each fix the block. |
| `RunLoop.RunForever` | crates/autopilot/src/run_loop.rs:127-178 | With a lock, an iteration cuts the auction on offer if and only if the guard is held after its attempt, and otherwise none; without a lock it always does. The cut carries that auction and the iteration's start block; which cuts run is decided by the auctions cut before; shutdown unlocks exactly the guard then held. |
| `RunLoop.HeldIff` | crates/database/src/leader_pg_lock.rs:53-84 | Over whole runs of iterations: the guard is held if and only if it was granted to some earlier request and no ping has failed since, and its session is the one of that request. |
| `RunLoop.AsksIff` | crates/database/src/leader_pg_lock.rs:66-72 | An iteration requests the lock if and only if it has no guard after its ping and every earlier request is at least the configured interval ago, so two requests are never closer than that and a follower that waited as long does ask. |
| `RunLoop.WaitForSettlementTransaction` | crates/autopilot/src/run_loop.rs:832-868 | Waiting ends after at most max(1, deadline - start) blocks; it returns the transaction of the first successful lookup, and times out if and only if no lookup up to and including the first block at or past the deadline found one. |
| `LeaderLock.Lock.TryAcquire` | crates/database/src/leader_pg_lock.rs:53-84 | New guard and last attempt as a function of the old ones, the ping and the answer; `Ok` says whether the guard is held, an error happens exactly if an attempt was due and failed, and leaves no guard. |
| `LeaderLock.Lock.Release` | crates/database/src/leader_pg_lock.rs:86-91 | Unlocks the session of the guard, if there is one, and drops it. |
| `LeaderLock.Tracker.TryAcquire` | crates/autopilot/src/leader_lock_tracker.rs:41-63 | After every call, errors included, the leader flag equals "the guard is held", and the instance has just stepped up exactly if the guard is new. |
| `LeaderLock.Tracker.Release` | crates/autopilot/src/leader_lock_tracker.rs:68-79 | Unlocks exactly if the guard is held. |
| `LeaderLock.OneLiveLeader` | crates/database/src/leader_pg_lock.rs:53-91 | Over every interleaving of instances opening sessions, pinging, requesting, unlocking and sessions dying, with any answer lost: a guard on a live session is the server's lock owner, and there is at most one. |
| `LeaderLock.LeadershipPassesOnDeath` | crates/database/src/leader_pg_lock.rs:53-84 | When the session of a leader dies, another instance is granted the lock at once, while the old leader keeps its guard until its next ping. |
| `LeaderLock.RunKeepsInv` | crates/database/src/leader_pg_lock.rs:53-91 | The invariant behind it: sessions of instances are disjoint, the owner is alive, and guards on live sessions own the lock. |
| `LeaderLock.NoOrphanIff` | crates/database/src/leader_pg_lock.rs:12-91 | A step keeps the lock in the hands of a guard if and only if it is harmless: no ping or unlock fails on a live session, and no request gets the lock with its answer lost. |
| `LeaderLock.NeverOrphanedIff` | crates/database/src/leader_pg_lock.rs:12-91 | A run never has a lock without a guard if and only if all its steps are harmless. |
| `LeaderLock.GrantedIffNoLiveLeader` | crates/database/src/leader_pg_lock.rs:66-80 | In any state whose lock is not orphaned, a follower's request on a live session is granted if and only if no instance leads on a live session, and the answers it can get are the true ones. |
| `LeaderLock.LeadershipNeverStuck` | crates/database/src/leader_pg_lock.rs:12-91 | So this holds after every run of harmless steps. |
| `LeaderLock.LostPingOrphansLock` | crates/database/src/leader_pg_lock.rs:59-64 | A step that is not harmless: after a ping lost on a live session nobody leads and every other session is refused. |
| `BlockStream.PublishBlocks` | crates/ethrpc/src/block_stream.rs:164-206 | The loop publishes exactly the blocks of the specification `Published`. |
| `BlockStream.PublishedIncreasing` | crates/ethrpc/src/block_stream.rs:183-205 | For any received sequence, reorgs included, published numbers strictly increase and only received blocks are published. |
| `BlockStream.CurrentIsMaximum` | crates/ethrpc/src/block_stream.rs:183-205 | If a hash fixes its block, the current block has the largest number received so far. |
| `BlockStream.PublishedIffRecord` | crates/ethrpc/src/block_stream.rs:183-205 | A received block is published if and only if its number is larger than all numbers received before it. |
| `BlockStream.Throttle` | crates/ethrpc/src/block_stream.rs:293-331 | The counting loop forwards the subsequence of the specification `Throttled`. |
| `BlockStream.ThrottledEvery` | crates/ethrpc/src/block_stream.rs:304-317 | The j-th forwarded update is the ((j + 1) * (n + 1))-th update. |
| `BlockStream.ThrottledLength` | crates/ethrpc/src/block_stream.rs:304-317 | The number of forwarded updates is the number of updates divided by n + 1, rounded down. |
| `BlockStream.Blocks` | crates/ethrpc/src/block_stream.rs:372-418 | Fails if any block is missing or the sorted blocks are not linked by parent hash; otherwise returns numbers and hashes of the sorted chain. |
| `BlockStream.BlocksIgnoreCompletionOrder` | crates/ethrpc/src/block_stream.rs:372-418 | For every completion order of the requests, collecting and sorting gives the blocks of the range from lowest to highest, or fails if one is missing. |
| `BlockStream.RangeIsChain` | crates/ethrpc/src/block_stream.rs:372-418 | So for every completion order the request succeeds if and only if every block of the range exists and names its predecessor as parent, and then returns number and hash of each block from start to end. |
| `OrderQueries.ChangesAreSelected` | crates/database/src/orders.rs:1002-1025 | After any sequence of writes stamped after the checkpoint, each order either has the same row and the same related rows as before, or is selected by the incremental read; selected orders stay selected. |
| `OrderQueries.UpdatedUidsAreUpdated` | crates/database/src/orders.rs:1002-1025 | The union of seven searches returns an order exactly if one of its related rows is stamped after the block. |
| `OrderQueries.NewTradeAddsUp` | crates/database/src/orders.rs:709-822 | A new trade adds exactly its amounts to the fill sums of its order. |
| `OrderQueries.CancelledForGood` | crates/database/src/orders.rs:453-473 | Once an order is cancelled, no sequence of later writes, reorgs included, makes it solvable again or moves the time of its cancellation. |
| `OrderQueries.ClosedIsUnsolvable` | crates/database/src/orders.rs:709-822 | After cancelling a stored order, and after an on-chain invalidation, a failed placement or a refund, no read returns the order. |
| `OrderQueries.RevertUndoesEvents` | crates/autopilot/src/boundary/events/settlement.rs:67-82 | After any sequence of new settlement-contract events in blocks from a number on, the reorg of these blocks restores the tables as they were before the first of them. |
| `OrderQueries.RevertUndoesInvalidationIff` | crates/database/src/onchain_invalidations.rs:42-54 | A new on-chain invalidation is undone by a reorg if and only if it is in a reverted block. |
| `OrderQueries.RevertUndoesRefundIff` | crates/database/src/ethflow_orders.rs:101-113 | A new refund is undone if and only if its block is in the deleted range, ends included. |
| `OrderQueries.PendingIsReturned` | crates/database/src/orders.rs:709-822 | An open order whose last pre-signature event did not sign it, or that has none, is returned, with the flag set. |
| `OrderQueries.LastEventDecides` | crates/database/src/orders.rs:786-795 | Both queries return a pre-signed order as pending if and only if its event with the largest block, and within it the largest log index, did not sign it. |
| `OrderQueries.NoEventIsPending` | crates/database/src/orders.rs:769-769 | Without an event a pre-signed order is pending in both queries. |
| `OrderQueries.OtherSchemesNeverPend` | crates/database/src/orders.rs:769-769 | Orders of other schemes are never pending. |
| `OrderQueries.NewEventDecides` | crates/database/src/orders.rs:876-900 | Storing an event after all others of the order sets the flag of both queries: signing clears it, withdrawing sets it. |
| `OrderQueries.LateEventIsIgnored` | crates/database/src/orders.rs:876-900 | An event stored after a later one leaves the flag as it was. |
| `OrderQueries.RevertRestoresFlag` | crates/database/src/events.rs:48-71 | A reorg brings back the flag of the last event before its block. |
| `OrderQueries.RevertToNoEvent` | crates/database/src/events.rs:48-71 | If there is none, the order is pending again. |
| `IncrementalOrders.DeltaComplete` | crates/database/src/orders.rs:825-931 | Every order whose membership or row in the full query changes between two reads is fetched by the incremental read, and fetched solvable orders have the row of the full query. |
| `IncrementalOrders.SolvableOrdersAfter` | crates/autopilot/src/infra/persistence/mod.rs:542-673 | Inserting the fetched orders one by one and retaining the open ones is the refresh the theorems are about; the new checkpoint is the start of the read and the block of the latest settlement. |
| `IncrementalOrders.GetSolvableOrders` | crates/autopilot/src/solvable_orders.rs:361-393 | The first read is the full query, later ones are refreshes from the checkpoint of the last read, and every checkpoint is moved back by 60 seconds. |
| `IncrementalOrders.StoredWithinTheMinute` | crates/autopilot/src/solvable_orders.rs:386-392 | An order with a creation time less than 60 seconds before a read that is stored only after it is returned by the next read, whatever is written in between. |
| `IncrementalOrders.StoredAfterTheMinute` | crates/autopilot/src/solvable_orders.rs:386-392 | From 60 seconds on, it is returned if and only if a related row past the checkpoint's block points to it. |
| `IncrementalOrders.CancelledWithinTheMinuteIff` | crates/autopilot/src/solvable_orders.rs:386-392 | A cancellation stored after a read is noticed by the next one if and only if its time is less than 60 seconds before the first read, or a related row is past the checkpoint's block. |
| `OrderQueries.LatestSettlementBlock` | crates/database/src/orders.rs:934-940 | The block a read leaves as checkpoint is that of a stored settlement and no settlement has a larger one; zero without settlements. |
| `IncrementalOrders.RefreshHealthyIff` | crates/autopilot/src/infra/persistence/mod.rs:542-632 | Whatever was written between two reads, late rows and reorgs included: after the refresh no cached order is stale or closed and no unexpired solvable order is missing, if and only if every order is returned by the incremental read, or is retained with its row unchanged, or is neither retained nor has become solvable. |
| `IncrementalOrders.CacheOverWholeRuns` | crates/autopilot/src/solvable_orders.rs:361-393 | Over any number of reads after the first one, with the checkpoints the code keeps and any writes in between, the cache is healthy after each of them if and only if none of them overlooks anything in that sense. |
| `IncrementalOrders.StampedWritesAreNoticed` | crates/database/src/orders.rs:1002-1025 | A read overlooks nothing if all writes since the last read are stamped after its checkpoint. |
| `IncrementalOrders.StampedRunsStayHealthy` | crates/autopilot/src/solvable_orders.rs:361-393 | So a whole run of such writes, with validity moving forward, is healthy throughout. |
| `IncrementalOrders.LateExecutionIsStale` | crates/autopilot/src/infra/persistence/mod.rs:799-816 | For any tables: an execution row stored with a block at or before the checkpoint leaves a cached order without its fee. |
| `IncrementalOrders.FeeStoredAfterRead` | crates/autopilot/src/boundary/events/settlement.rs:84-93 | A run of three reads in which this happens: a trade and its settlement are committed before the second read, which leaves a healthy cache, and the fee afterwards. |
| `IncrementalOrders.LatePlacementIsMissed` | crates/autopilot/src/database/onchain_order_events/mod.rs:312-376 | For any tables: a new on-chain order with a block at or before the checkpoint and an older creation time is solvable and not in the cache. |
| `IncrementalOrders.PlacementIndexedAfterSettlement` | crates/autopilot/src/database/onchain_order_events/mod.rs:204-215 | A run of three reads in which this happens, with the placement indexed after a settlement of a later block. |
| `IncrementalOrders.RevertedTradeIsStale` | crates/autopilot/src/boundary/events/settlement.rs:67-82 | A reorg that takes back fills and leaves no newer row of the order leaves the old fill amounts in the cache. |
| `IncrementalOrders.FillRevertedAfterRead` | crates/autopilot/src/boundary/events/settlement.rs:67-82 | A run of two reads in which this happens to a partly filled order. |
| `IncrementalOrders.RefreshEqualsFullQueryIff` | crates/autopilot/src/infra/persistence/mod.rs:604-632 | For any writes: the refresh is the full query's answer if and only if on every fetched open order the stored deadline and absence of a refund agree with the signed and user deadlines, every order kept without being fetched has its old row, its stored deadline ahead and no refund, and every other order is closed, refunded or past its stored deadline. |
| `IncrementalOrders.HealthyEqualsFullQueryIff` | crates/autopilot/src/infra/persistence/mod.rs:604-632 | A healthy cache is the full query's answer if and only if every cached order has its stored deadline ahead and no refund, and no open order for which this holds is expired by its signed or user deadline. |
| `IncrementalOrders.EthflowDeadlineStoredIff` | crates/autopilot/src/database/onchain_order_events/mod.rs:312-376 | Indexing an ethflow placement stores the user's deadline in the order row if and only if the order was stored before. |
| `IncrementalOrders.ExpiredEthflowOrderDiverges` | crates/database/src/orders.rs:709-822 | So an ethflow order past the user's deadline is in the full query and not in the refreshed cache. |
| `IncrementalOrders.RefundedOrderDiverges` | crates/autopilot/src/infra/persistence/mod.rs:604-632 | A refund before the deadline removes an order from the full query and not from the refreshed cache. |
| `OrderStore.Store.InsertOrderAndIgnoreConflicts` | crates/database/src/orders.rs:155-204 | Stores a new order with its signed deadline as the true one, ignores a stored one, and says which; this is the change `InsertOrder`. |
| `OrderStore.Store.InsertEthflowEvents` | crates/autopilot/src/database/onchain_order_events/mod.rs:312-376 | The loops of the indexer over a batch, table by table, for any batch. |
| `OrderStore.PassesPlaceEachOrderIff` | crates/autopilot/src/database/onchain_order_events/mod.rs:312-376 | Those passes do what placing the orders one after the other does, if and only if every new order that the batch repeats is placed last with the signed deadline. |
| `OrderStore.PlacedTwiceDiffers` | crates/database/src/ethflow_orders.rs:26-79 | A batch that places a new order twice, with another deadline than the signed one, is such a case. |
| `SolverCompetition.CompetitionStore.SaveAll` | crates/database/src/solver_competition_v2.rs:242-257 | The three inserting loops together are `Save`; a batch without orders fails and leaves all tables as they were. |
| `SolverCompetition.CompetitionStore.SaveTradeExecutions` | crates/database/src/solver_competition_v2.rs:287-317 | One row for every order of every solution, ignoring taken keys. |
| `SolverCompetition.CompetitionStore.SaveJitOrderRows` | crates/database/src/solver_competition_v2.rs:319-350 | One row for every order that is not in the order book, ignoring taken keys. |
| `SolverCompetition.MapRowsToSolutions` | crates/database/src/solver_competition_v2.rs:419-455 | For joined rows in any order, the result has one solution per solution uid, with its header and all its orders, strictly ascending by uid. |
| `CompetitionRoundTrip.SaveFetchRoundTrip` | crates/database/src/solver_competition_v2.rs:242-455 | For an unused auction id, distinct solution uids, non-empty solutions with distinct orders and an agreeing order book, fetching what was saved returns the saved solutions ascending by uid, each with the same header and the same multiset of orders, for every order in which rows are returned. |
| `CompetitionRoundTrip.SaveSucceeds` | crates/database/src/solver_competition_v2.rs:242-350 | Saving such solutions does not fail. |
| `CompetitionRoundTrip.SecondSaveChangesNothing` | crates/database/src/solver_competition_v2.rs:242-350 | Saving the same solutions again leaves all three tables unchanged, for any content of the tables. |
| `CompetitionRoundTrip.WinnersAreFilterOfFetch` | crates/database/src/solver_competition_v2.rs:372-417 | For any tables, the winning-solutions query of a solver returns the solutions of `fetch` that this solver won, in the same order and with the same orders. |
| `TradePages.PushDownSoundIff` | crates/database/src/trades.rs:31-94 | Cutting each branch of the union to limit + offset rows, with ties resolved in any way, gives the page of the whole union for every limit and offset, if and only if no trade found only as a JIT trade has more JIT hits before it than there are trades before it. |
| `TradePages.OneJitRowPerUid` | crates/database/src/trades.rs:31-94 | One row per JIT order is enough for that. |
| `TradePages.SettledTwiceIsUnsound` | crates/database/src/trades.rs:75-84 | For a JIT order that was settled twice some page misses a trade. |
| `TradePages.TopKeepsIff` | crates/database/src/trades.rs:57-62 | However ties are resolved, a limited search keeps a row if and only if fewer than limit hits come before it. |
| `TradePages.UnionIff` | crates/database/src/trades.rs:53-88 | The rows pages are cut from are exactly those of stored trades of book or JIT orders with the owner asked for, and of book orders that owner placed on chain, restricted to the order asked for; without an owner, of all book and JIT orders. |
| `TradePages.RowDescribes` | crates/database/src/trades.rs:31-51 | A row is that of a trade if and only if it has the stored trade, its sell amount without the fee, the order's data, and the next settlement of the block if there is one. |
| `TradePages.UidFilterSelects` | crates/database/src/trades.rs:53-88 | Asking for an order returns the part of the answer about that order. |
| `TradePages.OwnerFilterSelectsIff` | crates/database/src/trades.rs:53-88 | Asking for an owner returns the part of the unfiltered answer with that owner if and only if no matching trade is of another owner's order that this owner placed on chain. |
| `Attribution.NextSettlementFinds` | crates/database/src/trades.rs:45-51 | The lateral lookup finds a settlement if and only if one follows the trade in its block, and then the one with the least log index. |
| `Attribution.AttributionsAgreeIff` | crates/database/src/trades.rs:104-129 | The lateral lookup and the range query attribute trades to the same settlements if and only if no trade has the position of a settlement. |
| `Attribution.SharedPositionIsAttributedTwice` | crates/database/src/trades.rs:104-129 | A trade at the position of a settlement is in the range of that settlement and of the next one. |
| `Attribution.SettlementsPartitionTrades` | crates/database/src/trades.rs:104-129 | Otherwise the ranges of settlements are disjoint and cover exactly the trades followed by a settlement in their block. |
| `Attribution.OrdersInTxAreAttributed` | crates/database/src/orders.rs:660-703 | For a transaction with one settlement, the orders query returns the orders of exactly the trades the lateral lookup gives that settlement. |
| `Attribution.OrdersInTxFailsIff` | crates/database/src/orders.rs:660-703 | The query fails if and only if the transaction has several settlements, and returns nothing if it has none. |
| `EventReplay.EventStore.AppendEvents` | crates/database/src/events.rs:73-171 | The loop of inserts that do nothing on conflict, over four tables, is `Append`. |
| `EventReplay.AppendKeepsFirst` | crates/database/src/events.rs:73-171 | At every position of every table an append keeps what is stored and otherwise stores the first event for it. |
| `EventReplay.ReplayIff` | crates/database/src/events.rs:48-171 | For two chains equal below a block: indexing the old one, deleting from that block and appending the rest of the new one gives the tables of the new one, if and only if the block number fits the column or no event is in the last representable block. |
| `EventReplay.LastBlockIsLost` | crates/database/src/events.rs:52-69 | A block number that is too large, with an event in the last representable block, loses that event. |
| `EventReplay.WritersAgree` | crates/database/src/events.rs:73-171 | Several writers appending the same events in any interleaving, each stopping anywhere, leave the tables of one append once one of them is done. |
| `OrderEvents.Log.InsertOrderEvent` | crates/database/src/order_events.rs:49-77 | Stores the event unless the latest event of its order has the same label. |
| `OrderEvents.Log.DeleteOrderEventsBefore` | crates/database/src/order_events.rs:82-95 | Keeps the rows from the timestamp on, in order, and returns how many went. |
| `OrderEvents.Log.GetLatest` | crates/database/src/order_events.rs:98-108 | One pass finds the event of the order with the largest timestamp. |
| `OrderEvents.LogsStayCollapsed` | crates/database/src/order_events.rs:49-95 | With increasing timestamps per order, any mix of inserts and deletions keeps each order's log chronological and free of consecutive equal labels. |
| `OrderEvents.LogIsCollapsedInput` | crates/database/src/order_events.rs:49-77 | Without deletions the log of an order is its input with repeated labels collapsed. |
| `OrderEvents.LatestHasLastLabel` | crates/database/src/order_events.rs:98-108 | And the latest event has the label inserted last. |
| `OrderEvents.InsertKeepsNeighboursIff` | crates/database/src/order_events.rs:49-77 | For events with different timestamps arriving in any order: an insert keeps the log, read in time order, free of equal neighbours if and only if the event is left out or differs from its neighbours in time. |
| `OrderEvents.LateEventRepeatsLabel` | crates/database/src/order_events.rs:49-77 | A late event between two others that has the label of the first is stored next to it. |
| `AmmCache.AmmTable.UpsertBatched` | crates/database/src/cow_amms.rs:19-64 | Batch after batch overwrites the rows in order, and fails exactly if a batch of 200 names an address twice. |
| `AmmCache.BatchesAcceptedIff` | crates/database/src/cow_amms.rs:19-64 | The rows are accepted if and only if no address is repeated among the first 200, the next 200, and so on. |
| `AmmCache.Storage.InitializeFromDatabase` | crates/cow-amm/src/cache.rs:47-92 | Fills the cache from the fetched rows, or leaves it alone if the query, a lookup or a block number fails. |
| `AmmCache.Storage.AppendEvents` | crates/cow-amm/src/cache.rs:159-223 | Fails if a complete event met a transport error, if the database fails or if a batch is refused, with table and cache unchanged. On success the cache gains each pool, with its tokens, as often as complete supported events create it in a block, and the table has the row of the last such event that could be stored. |
| `AmmCache.ProcessedFailsIff` | crates/cow-amm/src/cache.rs:161-185 | Processing a batch aborts if and only if a complete event in it met a transport error. |
| `AmmCache.CacheGains` | crates/cow-amm/src/cache.rs:205-222 | Otherwise each pool is cached for a block as often as before plus the number of complete supported events that create it there. |
| `AmmCache.TableGains` | crates/cow-amm/src/cache.rs:187-212 | And each address has the row of its last supported complete event whose block can be stored, or its old row if there is none. |
| `AmmCache.Storage.ReplaceEvents` | crates/cow-amm/src/cache.rs:128-157 | Rolls back the block range in table and cache and then appends; fails with both unchanged if the range cannot be deleted, and with the range gone if the append fails. |
| `AmmCache.Storage.RemoveAmms` | crates/cow-amm/src/cache.rs:101-106 | The loop over the blocks of the cache drops the named pools, keeps the order of the others and leaves the table alone. |
| `AmmCache.RollbackKeeps` | crates/database/src/cow_amms.rs:81-101 | Deleting an inclusive block range of the factory from the table and from the cache keeps the two in agreement, and keeps the cache a part of the table. |
| `AmmCache.DeliveriesKeep` | crates/cow-amm/src/cache.rs:128-223 | Over any sequence of appends, rollbacks and removals with any failures, where block numbers fit the signed 64-bit type, each pool is created once on the chain and its creation is delivered once until its block is rolled back: the cache holds each pool at most once and only as stored, and without removals it holds exactly the factory's rows. |
| `AmmCache.RolledBackIsNew` | crates/cow-amm/src/cache.rs:128-157 | The deliveries meant there include a pool delivered again in a replacement of its own block, and exclude one appended twice. |
| `AmmCache.AppendAgreesIff` | crates/cow-amm/src/cache.rs:159-223 | A successful append keeps cache and table in agreement if and only if the new pools are distinct, not indexed for the factory yet, and their block numbers can be stored. |
| `AmmCache.UnstorablePoolDisagrees` | crates/cow-amm/src/cache.rs:187-203 | A pool in a block above the largest signed 64-bit integer is cached and not stored. |
| `AmmCache.RedeliveredPoolDisagrees` | crates/cow-amm/src/cache.rs:159-223 | A pool that is appended again without a rollback breaks the agreement. |
| `AmmCache.CreatedOnceIsAccepted` | crates/database/src/cow_amms.rs:19-64 | Such pools are never refused, in however many batches. |
| `AmmCache.InitializedAgrees` | crates/cow-amm/src/cache.rs:47-92 | A successful initialisation brings the empty cache into agreement with the table, for any order of the fetched rows. |
| `OrderPipeline.OrderFilterCounter.Checkpoint` | crates/autopilot/src/solvable_orders.rs:825-845 | Removes and returns, once each, the tracked orders that are not kept, adds their number to the reason, and keeps remaining plus counted constant; the lookup of each removed order succeeds. |
| `OrderPipeline.OrderFilterCounter.CheckpointByInvalidOrders` | crates/autopilot/src/solvable_orders.rs:848-867 | Removes the listed orders, counts only those still tracked, and keeps remaining plus counted constant. |
| `OrderPipeline.OrderFilterCounter.Record` | crates/autopilot/src/solvable_orders.rs:873-895 | The last checkpoint, for whatever no other one caught. |
| `OrderPipeline.FilterInvalidOrders` | crates/autopilot/src/solvable_orders.rs:396-430 | Leaves the orders that pass the first three checks; the invalid set and the counts name each dropped order under the first check it fails. |
| `OrderPipeline.UnknownTokenIsDropped` | crates/autopilot/src/solvable_orders.rs:701-744 | An order of a token whose quality cannot be determined is dropped as unsupported. |
| `OrderPipeline.OrdersWithBalance` | crates/autopilot/src/solvable_orders.rs:544-582 | Keeps exactly the orders whose owner can pay, newest first. |
| `OrderPipeline.FilterMispricedLimitOrders` | crates/autopilot/src/solvable_orders.rs:748-783 | Keeps, in order, all orders but the limit orders whose sell value is below the factor times their buy value, or for which one of the values does not fit 256 bits; looking up prices cannot fail for orders that got this far. |
| `OrderPipeline.Update` | crates/autopilot/src/solvable_orders.rs:171-276 | Every candidate ends in exactly one of auction, invalid set and filtered list, decided by the first filter it fails; the filtered list has no duplicates, each reason counts exactly its orders, auction plus counts is the number of candidates, the catch-all finds nothing, and the auction is newest first. |
| `OrderPipeline.AskingLessKeeps` | crates/autopilot/src/solvable_orders.rs:748-783 | A limit order in the auction stays there with a smaller buy amount. |
| `OrderPipeline.OfferingMoreKeeps` | crates/autopilot/src/solvable_orders.rs:748-783 | With a larger sell amount that does not overflow it is never out of the market; at most its owner cannot pay. |
| `OrderPipeline.AtMarketPriceIff` | crates/autopilot/src/solvable_orders.rs:748-783 | A limit order that asks for exactly the value it sells is in the auction if and only if the factor is at most one. |
| `OrderPipeline.NothingForSomething` | crates/autopilot/src/solvable_orders.rs:748-783 | With positive prices and factor, selling nothing for something is out of the market and buying nothing is not. |
| `OrderPipeline.OverflowIsDropped` | crates/autopilot/src/solvable_orders.rs:766-776 | A limit order with a native amount above 256 bits is out of the market. |
| `OrderPipeline.LargerFactorKeepsLess` | crates/autopilot/src/solvable_orders.rs:748-783 | A larger factor keeps no order that a smaller one drops. |
| `OrderPipeline.OtherClassesIgnoreMarket` | crates/autopilot/src/solvable_orders.rs:753-756 | Orders of other classes are never out of the market and do not depend on the factor. |
| `OrderPipeline.BanDropsExactly` | crates/autopilot/src/solvable_orders.rs:452-469 | Banning one more address drops exactly the orders owned by it or paid to it, and leaves the fate of all others as it was. |
| `OrderPipeline.MoreBalanceKeeps` | crates/autopilot/src/solvable_orders.rs:544-582 | Larger balances drop no order for lack of balance and change no other fate. |
| `OrderPipeline.EnoughBalanceIff` | crates/autopilot/src/solvable_orders.rs:544-582 | A fill-or-kill order passes if and only if the balance of its owner, token, source and pre-interactions covers sell amount and fee; a partially fillable one if and only if there is any balance; an overflowing sum does not pass. |
| `OrderPipeline.ExemptFromBalance` | crates/autopilot/src/solvable_orders.rs:544-565 | Orders paid to the settlement contract, contract-signed orders if so configured, and all orders with the filter off need no balance. |
| `OrderPipeline.SignatureIff` | crates/autopilot/src/solvable_orders.rs:489-540 | Pending pre-signatures and contract signatures that do not validate are dropped, and no others; contract-signed orders pass if their check is switched off. |
| `OrderPipeline.TokensIff` | crates/autopilot/src/solvable_orders.rs:701-744 | An order passes if and only if both tokens are known to be good or it trades one token with itself. |
| `OrderPipeline.UnpricedTokenDrops` | crates/autopilot/src/solvable_orders.rs:616-657 | Taking away the price of a token drops exactly the orders that trade it and were not dropped earlier. |
| `PricePriority.PrioritizeMissingPrices` | crates/autopilot/src/solvable_orders.rs:666-699 | Each token of the orders once. A token comes before another only if for every order of the last 30 minutes that trades the other one there is one that trades it and is not older, and, without such an order of its own, only if it is traded at least as often; for every iteration order of the hash map. |
| `PricePriority.DeduplicatedInOrder` | crates/autopilot/src/solvable_orders.rs:675-688 | The tokens of recent orders are in order of first appearance. |
| `PricePriority.SplitTokens` | crates/autopilot/src/solvable_orders.rs:671-688 | One pass collects the tokens of recent orders and counts every use of a token by an old order. |
| `OrderEncoding.HashStructPreimage` | crates/model/src/order.rs:238-259 | The slice writes into the zeroed 416 bytes yield the type hash and the twelve 32-byte words that EIP-712 prescribes ("Definition of hashStruct", "Definition of encodeData"), with numbers as 256-bit big-endian. |
| `OrderEncoding.PreimageInjective` | crates/model/src/order.rs:238-259 | Two orders have the same preimage if and only if they are equal up to writing a missing receiver as the zero address. |
| `OrderEncoding.AddressesReadBack` | crates/model/src/order.rs:238-259 | By position, the preimage has the type hash, then sell token, buy token and receiver (zero if missing), each behind twelve zero bytes. |
| `OrderEncoding.NumbersReadBack` | crates/model/src/order.rs:238-259 | The words at 128, 160, 192, 256 and 320 decode to sell amount, buy amount, deadline, fee and the partial-fill flag. |
| `OrderEncoding.HashesReadBack` | crates/model/src/order.rs:238-259 | The words at 224, 288, 352 and 384 are the app data and the hashes of kind, source and destination. |
| `OrderEncoding.FromParts` | crates/model/src/order.rs:746-752 | The slice writes put hash, owner and deadline next to each other. |
| `OrderEncoding.PartsInverse` | crates/model/src/order.rs:746-762 | Building a uid and taking it apart are inverse to each other in both directions. |

## Assumptions

- A failed database statement or transaction has no effect. Isolation between concurrent transactions is
  modelled where the source relies on it (several event writers, the leader lock) and not elsewhere.
- Hashes commit to what they are computed from: received blocks with one hash are one block.
- Log indices of trades are not negative, as on chain.
- All queries of one read of the solvable orders see one state of the database, as their isolation level says.

## Left out

- Winner selection, scores and reference scores: which bids win is an input of the protocol.
- The scaling of partially fillable orders behind the dust filter: `Env.dust` stands for it.
- Fee policies, quotes and app data of auction orders, and the conversion of native prices from floating point.
- Keccak, signatures and recovery of signers: only what is hashed is modelled.
- Driver requests, metrics, tracing, uploads and wall-clock timeouts: nondeterministic answers or nothing.
- The reorg handling of uid-keyed tables: upserts overwrite earlier blocks, so no replay theorem holds for them.
- Columns without a stamped row (`full_app_data`, interactions) in the incremental query: `details` never changes.
- Negative limits and offsets of the trades query, which the database rejects.
- OrderPipeline.FilterInvalidOrders: does not model that the invalid-signature list comes in the order in which checks complete, because only its members matter.
- OrderEvents.Log.GetLatest: does not model that the database may pick any of several events with equal timestamps; the last inserted one is picked.
- IncrementalOrders.SolvableOrdersAfter: does not model the quotes that are refreshed beside the orders, because nothing here reads them.
- AmmCache.Storage.AppendEvents: does not model the order of log messages and the time between storing and caching, during which readers see the old cache.
- `OrderQueries.FullOrder` has neither the `true_valid_to` nor the `executed_fee_token` column that both queries return; the refresh reads neither.
- Error exits of the incremental read (a block number that does not fit its type, an order that cannot be converted): the read fails and the last snapshot stays.

/**
 The in-memory set of solvable orders is filled once by the full query and from then on only
 refreshed with the orders the incremental query returns. This module relates the refreshed set
 to what the full query would return.
 */
module IncrementalOrders {
  import opened Common
  import opened Tables
  import opened OrderQueries

  type Orders = map<OrderUid, FullOrder>

  /** Every order the full query changes its mind about is fetched by the incremental query. */
  lemma DeltaComplete(db: Database, changes: seq<Change>, time: int, block: int, minValidTo: int, uid: OrderUid)
    requires forall c | c in changes :: After(c, time, block)
    ensures
      var before := SolvableOrders(db, minValidTo);
      var after := SolvableOrders(ApplyAll(db, changes), minValidTo);
      var fetched := OrdersSince(ApplyAll(db, changes), time, block);
      && (Lookup(before, uid) != Lookup(after, uid) ==> uid in fetched)
      && (uid in fetched && uid in after ==> fetched[uid] == after[uid])
  {
    var db' := ApplyAll(db, changes);
    ChangesAreSelected(db, changes, time, block, uid);
    OrdersStay(db, changes, uid);
    UpdatedUidsAreUpdated(db', block, uid);
    if uid in SolvableOrders(db', minValidTo) {
      RowsAgree(db'.orders[uid], HistoryOf(db', uid), minValidTo);
    }
  }

  lemma {:induction false} OrdersStay(db: Database, changes: seq<Change>, uid: OrderUid)
    ensures uid in db.orders ==> uid in ApplyAll(db, changes).orders
    decreases |changes|
  {
    if changes != [] {
      OrderStays(db, changes[0], uid);
      OrdersStay(Apply(db, changes[0]), changes[1..], uid);
    }
  }

  lemma OrderStays(db: Database, c: Change, uid: OrderUid)
    ensures uid in db.orders ==> uid in Apply(db, c).orders
  {
  }

  /** On solvable orders the two queries return the same row. */
  lemma RowsAgree(row: OrderRow, h: History, minValidTo: int)
    requires Solvable(row, h, minValidTo)
    ensures OpenRow(row, h) == SolvableRow(row, h)
  {
  }

  // ---------------------------------------------------------------------------- refreshing

  predicate Expired(o: FullOrder, minValidTo: int)
  {
    o.validTo < minValidTo || (o.ethflowData.Some? && o.ethflowData.value.1 < minValidTo)
  }

  predicate Fulfilled(o: FullOrder)
  {
    match o.kind
    case Sell => o.sumSell >= o.sellAmount
    case Buy => o.sumBuy >= o.buyAmount
  }

  predicate Retained(o: FullOrder, minValidTo: int)
  {
    && !Expired(o, minValidTo)
    && !o.invalidated
    && !(o.onchainUser.Some? && o.placementError.Some?)
    && !Fulfilled(o)
  }

  function RetainOpen(orders: Orders, minValidTo: int): Orders
  {
    map uid | uid in orders && Retained(orders[uid], minValidTo) :: orders[uid]
  }

  function Refresh(current: Orders, fetched: Orders, minValidTo: int): Orders
  {
    RetainOpen(current + fetched, minValidTo)
  }

  /** Every fetched order is put into the cache, in whatever order the hash map yields them. */
  method InsertFetched<K(==), V>(current: map<K, V>, next: map<K, V>) returns (merged: map<K, V>)
    ensures merged == current + next
  {
    merged := current;
    var todo := next.Keys;
    while todo != {}
      invariant todo <= next.Keys
      invariant merged.Keys == current.Keys + (next.Keys - todo)
      invariant forall k | k in merged :: merged[k] == if k in next && k !in todo then next[k] else current[k]
      decreases |todo|
    {
      var k :| k in todo;
      merged := merged[k := next[k]];
      todo := todo - {k};
    }
    assert merged == current + next;
  }

  /** The cached orders, and the checkpoint from which the next read goes on. */
  datatype Snapshot = Snapshot(orders: Orders, fetchedAt: int, block: int)

  /** One minute, in the microseconds of a timestamp. */
  const CHECKPOINT_BUFFER := 60 * 1_000_000

  /** The first read is the full query, every later one goes on from the checkpoint of the last. */
  ghost function ReadOrders(db: Database, cached: Option<Snapshot>, now: int, minValidTo: int): Snapshot
  {
    Snapshot(
      match cached
      case None => SolvableOrders(db, minValidTo)
      case Some(last) => Refresh(last.orders, OrdersSince(db, last.fetchedAt, last.block), minValidTo),
      now - CHECKPOINT_BUFFER,
      LatestSettlementBlock(db.settlements))
  }

  /** All queries of a read see one state of the database, whose answers are the arguments. */
  method SolvableOrdersAfter(ghost db: Database, current: Snapshot, fetched: Orders, latestBlock: int, startedAt: int,
                             minValidTo: int) returns (r: Snapshot)
    requires fetched == OrdersSince(db, current.fetchedAt, current.block)
    requires latestBlock == LatestSettlementBlock(db.settlements)
    ensures r.(fetchedAt := startedAt - CHECKPOINT_BUFFER) == ReadOrders(db, Some(current), startedAt, minValidTo)
    ensures r.fetchedAt == startedAt
  {
    var merged := InsertFetched(current.orders, fetched);
    var orders := map uid | uid in merged && Retained(merged[uid], minValidTo) :: merged[uid];
    r := Snapshot(orders, startedAt, latestBlock);
  }

  /** The read of an update: which query to use, and the checkpoint moved back by a minute. */
  method GetSolvableOrders(ghost db: Database, cached: Option<Snapshot>, answer: Orders, latestBlock: int, now: int,
                           minValidTo: int) returns (r: Snapshot)
    requires answer == match cached
                       case None => SolvableOrders(db, minValidTo)
                       case Some(last) => OrdersSince(db, last.fetchedAt, last.block)
    requires latestBlock == LatestSettlementBlock(db.settlements)
    ensures r == ReadOrders(db, cached, now, minValidTo)
  {
    if cached.Some? {
      r := SolvableOrdersAfter(db, cached.value, answer, latestBlock, now, minValidTo);
    } else {
      r := Snapshot(answer, now, latestBlock);
    }
    r := r.(fetchedAt := r.fetchedAt - CHECKPOINT_BUFFER);
  }

  /** Cached orders are never stale: each equals what the tables say now. */
  ghost predicate UpToDate(cache: Orders, db: Database)
  {
    forall uid | uid in cache ::
      uid in db.orders && cache[uid] == OpenRow(db.orders[uid], HistoryOf(db, uid))
  }

  /** No solvable order is missing, unless its own validity has run out. */
  ghost predicate Complete(cache: Orders, db: Database, minValidTo: int)
  {
    forall uid | uid in SolvableOrders(db, minValidTo) ::
      Expired(SolvableOrders(db, minValidTo)[uid], minValidTo) || uid in cache
  }

  ghost predicate AllRetained(cache: Orders, minValidTo: int)
  {
    forall uid | uid in cache :: Retained(cache[uid], minValidTo)
  }

  lemma InitialCache(db: Database, minValidTo: int)
    ensures UpToDate(SolvableOrders(db, minValidTo), db)
    ensures Complete(SolvableOrders(db, minValidTo), db, minValidTo)
  {
    forall uid | uid in SolvableOrders(db, minValidTo)
      ensures OpenRow(db.orders[uid], HistoryOf(db, uid)) == SolvableOrders(db, minValidTo)[uid]
    {
      RowsAgree(db.orders[uid], HistoryOf(db, uid), minValidTo);
    }
  }

  lemma OpenMeansUnfilled(row: OrderRow, h: History, minValidTo: int)
    ensures Retained(OpenRow(row, h), minValidTo) <==>
            && !Expired(OpenRow(row, h), minValidTo)
            && !Invalidated(row, h)
            && !PlacementFailed(h)
            && Unfilled(row, h)
  {
  }

  // ------------------------------------------------------------- what a refresh overlooks

  /** The full query returns the order, and neither of its own deadlines has passed. */
  ghost predicate Wanted(db: Database, minValidTo: int, uid: OrderUid)
  {
    uid in SolvableOrders(db, minValidTo) && !Expired(SolvableOrders(db, minValidTo)[uid], minValidTo)
  }

  /** The cache is neither stale nor missing anything, and what is no longer open is gone. */
  ghost predicate Healthy(db: Database, cache: Orders, minValidTo: int)
  {
    UpToDate(cache, db) && Complete(cache, db, minValidTo) && AllRetained(cache, minValidTo)
  }

  ghost predicate HealthyOn(db: Database, cache: Orders, minValidTo: int, uid: OrderUid)
  {
    && (uid in cache ==>
          && uid in db.orders && cache[uid] == OpenRow(db.orders[uid], HistoryOf(db, uid))
          && Retained(cache[uid], minValidTo))
    && (Wanted(db, minValidTo, uid) ==> uid in cache)
  }

  lemma HealthyEverywhere(db: Database, cache: Orders, minValidTo: int)
    ensures Healthy(db, cache, minValidTo) <==> forall uid :: HealthyOn(db, cache, minValidTo, uid)
  {
    if forall uid :: HealthyOn(db, cache, minValidTo, uid) {
      assert forall uid | uid in cache :: HealthyOn(db, cache, minValidTo, uid);
      forall uid | uid in SolvableOrders(db, minValidTo)
        ensures Expired(SolvableOrders(db, minValidTo)[uid], minValidTo) || uid in cache
      {
        assert HealthyOn(db, cache, minValidTo, uid);
      }
    }
  }

  /** The incremental read returns the order. */
  ghost predicate Noticed(db: Database, time: int, block: int, uid: OrderUid)
  {
    uid in db.orders && Selected(db, time, block, uid)
  }

  /** An order that would stay in the cache has the row it had, and any other has not become wanted. */
  ghost predicate Unaffected(db: Database, db': Database, cache: Orders, minValidTo: int, uid: OrderUid)
  {
    if uid in cache && Retained(cache[uid], minValidTo) then
      && uid in db.orders && uid in db'.orders
      && OpenRow(db'.orders[uid], HistoryOf(db', uid)) == OpenRow(db.orders[uid], HistoryOf(db, uid))
    else !Wanted(db', minValidTo, uid)
  }

  /** What was written between two reads is either picked up by the second, or does not matter. */
  ghost predicate NothingOverlooked(db: Database, db': Database, cache: Orders, time: int, block: int, minValidTo: int)
  {
    forall uid :: Noticed(db', time, block, uid) || Unaffected(db, db', cache, minValidTo, uid)
  }

  lemma FetchedIffNoticed(db: Database, time: int, block: int, uid: OrderUid)
    ensures Lookup(OrdersSince(db, time, block), uid) ==
            if Noticed(db, time, block, uid) then Some(OpenRow(db.orders[uid], HistoryOf(db, uid))) else None
  {
    UpdatedUidsAreUpdated(db, block, uid);
  }

  lemma WantedIsRetained(db: Database, minValidTo: int, uid: OrderUid)
    requires Wanted(db, minValidTo, uid)
    ensures uid in db.orders && Retained(OpenRow(db.orders[uid], HistoryOf(db, uid)), minValidTo)
  {
    RowsAgree(db.orders[uid], HistoryOf(db, uid), minValidTo);
    OpenMeansUnfilled(db.orders[uid], HistoryOf(db, uid), minValidTo);
  }

  lemma RefreshedAt(cache: Orders, fetched: Orders, minValidTo: int, uid: OrderUid)
    ensures Lookup(Refresh(cache, fetched, minValidTo), uid) ==
            var entry := if uid in fetched then Lookup(fetched, uid) else Lookup(cache, uid);
            if entry.Some? && Retained(entry.value, minValidTo) then entry else None
  {
  }

  lemma RefreshHealthyOnIff(db: Database, db': Database, cache: Orders, time: int, block: int, minValidTo: int,
                            uid: OrderUid)
    requires UpToDate(cache, db)
    ensures HealthyOn(db', Refresh(cache, OrdersSince(db', time, block), minValidTo), minValidTo, uid) <==>
            Noticed(db', time, block, uid) || Unaffected(db, db', cache, minValidTo, uid)
  {
    var fetched := OrdersSince(db', time, block);
    var entry := Lookup(Refresh(cache, fetched, minValidTo), uid);
    FetchedIffNoticed(db', time, block, uid);
    RefreshedAt(cache, fetched, minValidTo, uid);
    if Wanted(db', minValidTo, uid) {
      WantedIsRetained(db', minValidTo, uid);
    }
  }

  /**
   Whatever was written between two reads, with whatever stamps and reorgs: the refreshed cache is
   healthy if and only if every order is noticed by the incremental read or not affected.
   */
  lemma RefreshHealthyIff(db: Database, db': Database, cache: Orders, time: int, block: int, minValidTo: int)
    requires UpToDate(cache, db)
    ensures Healthy(db', Refresh(cache, OrdersSince(db', time, block), minValidTo), minValidTo) <==>
            NothingOverlooked(db, db', cache, time, block, minValidTo)
  {
    var refreshed := Refresh(cache, OrdersSince(db', time, block), minValidTo);
    HealthyEverywhere(db', refreshed, minValidTo);
    forall uid
      ensures HealthyOn(db', refreshed, minValidTo, uid) <==>
              Noticed(db', time, block, uid) || Unaffected(db, db', cache, minValidTo, uid)
    {
      RefreshHealthyOnIff(db, db', cache, time, block, minValidTo, uid);
    }
  }

  // ------------------------------------------------------------------------------ whole runs

  /** One wake-up: writes since the last read, then a read at time `now`. */
  datatype Round = Round(changes: seq<Change>, now: int, minValidTo: int)

  datatype World = World(db: Database, snapshot: Snapshot)

  ghost function FirstRead(db: Database, now: int, minValidTo: int): World
  {
    World(db, ReadOrders(db, None, now, minValidTo))
  }

  ghost function NextRead(w: World, r: Round): World
  {
    var db := ApplyAll(w.db, r.changes);
    World(db, ReadOrders(db, Some(w.snapshot), r.now, r.minValidTo))
  }

  ghost function WorldAfter(w: World, rounds: seq<Round>): World
  {
    if rounds == [] then w else NextRead(WorldAfter(w, rounds[..|rounds| - 1]), rounds[|rounds| - 1])
  }

  ghost predicate RoundOverlooksNothing(w: World, r: Round)
  {
    NothingOverlooked(w.db, ApplyAll(w.db, r.changes), w.snapshot.orders, w.snapshot.fetchedAt, w.snapshot.block,
                      r.minValidTo)
  }

  ghost predicate HealthyWorld(w: World, minValidTo: int)
  {
    Healthy(w.db, w.snapshot.orders, minValidTo)
  }

  /** The cache is healthy after every read of the run. */
  ghost predicate AlwaysHealthy(w: World, rounds: seq<Round>)
  {
    rounds == [] ||
    (AlwaysHealthy(w, rounds[..|rounds| - 1]) && HealthyWorld(WorldAfter(w, rounds), rounds[|rounds| - 1].minValidTo))
  }

  /** No read of the run overlooks anything written since the read before it. */
  ghost predicate NeverOverlooks(w: World, rounds: seq<Round>)
  {
    var n := |rounds| - 1;
    rounds == [] || (NeverOverlooks(w, rounds[..n]) && RoundOverlooksNothing(WorldAfter(w, rounds[..n]), rounds[n]))
  }

  lemma ReadHealthyIff(w: World, r: Round)
    requires UpToDate(w.snapshot.orders, w.db)
    ensures HealthyWorld(NextRead(w, r), r.minValidTo) <==> RoundOverlooksNothing(w, r)
  {
    RefreshHealthyIff(w.db, ApplyAll(w.db, r.changes), w.snapshot.orders, w.snapshot.fetchedAt, w.snapshot.block,
                      r.minValidTo);
  }

  lemma {:induction false} RunHealthyIff(w: World, rounds: seq<Round>)
    requires UpToDate(w.snapshot.orders, w.db)
    ensures AlwaysHealthy(w, rounds) <==> NeverOverlooks(w, rounds)
    ensures AlwaysHealthy(w, rounds) ==> UpToDate(WorldAfter(w, rounds).snapshot.orders, WorldAfter(w, rounds).db)
  {
    if rounds != [] {
      var init, last := rounds[..|rounds| - 1], rounds[|rounds| - 1];
      RunHealthyIff(w, init);
      if AlwaysHealthy(w, init) {
        ReadHealthyIff(WorldAfter(w, init), last);
      }
    }
  }

  /**
   Over any number of reads after the first one, with the checkpoints the code keeps and any writes
   in between: the cache is healthy after every read if and only if no read overlooks anything.
   */
  lemma CacheOverWholeRuns(db: Database, now: int, minValidTo: int, rounds: seq<Round>)
    ensures AlwaysHealthy(FirstRead(db, now, minValidTo), rounds) <==>
            NeverOverlooks(FirstRead(db, now, minValidTo), rounds)
  {
    InitialCache(db, minValidTo);
    RunHealthyIff(FirstRead(db, now, minValidTo), rounds);
  }

  // ------------------------------------------------------------ the minute before a read

  lemma CreationStays(db: Database, c: Change, uid: OrderUid)
    requires uid in db.orders
    ensures uid in Apply(db, c).orders && Apply(db, c).orders[uid].creation == db.orders[uid].creation
  {
  }

  lemma {:induction false} CreationsStay(db: Database, changes: seq<Change>, uid: OrderUid)
    requires uid in db.orders
    ensures uid in ApplyAll(db, changes).orders && ApplyAll(db, changes).orders[uid].creation == db.orders[uid].creation
    decreases |changes|
  {
    if changes != [] {
      CreationStays(db, changes[0], uid);
      CreationsStay(Apply(db, changes[0]), changes[1..], uid);
    }
  }

  /**
   An order whose creation time is less than 60 seconds before a read (timestamps are in microseconds)
   and that is stored after this read is returned by the next one, whatever else is written in between.
   */
  lemma StoredWithinTheMinute(db: Database, cached: Option<Snapshot>, now: int, minValidTo: int, before: seq<Change>,
                              uid: OrderUid, row: OrderRow, after: seq<Change>)
    requires uid !in ApplyAll(db, before).orders && now - row.creation < 60_000_000
    ensures
      var last := ReadOrders(db, cached, now, minValidTo);
      var db' := ApplyAll(Apply(ApplyAll(db, before), InsertOrder(uid, row)), after);
      uid in OrdersSince(db', last.fetchedAt, last.block)
  {
    CreationsStay(Apply(ApplyAll(db, before), InsertOrder(uid, row)), after, uid);
  }

  /** An order stored later than that is returned only if something else points to it. */
  lemma StoredAfterTheMinute(db: Database, cached: Option<Snapshot>, now: int, minValidTo: int, uid: OrderUid,
                             row: OrderRow)
    requires uid !in db.orders && now - row.creation >= 60_000_000 && row.cancellation.None?
    ensures
      var last := ReadOrders(db, cached, now, minValidTo);
      var db' := Apply(db, InsertOrder(uid, row));
      uid in OrdersSince(db', last.fetchedAt, last.block) <==> UpdatedAfter(db, last.block, uid)
  {
    var last := ReadOrders(db, cached, now, minValidTo);
    UpdatedUidsAreUpdated(Apply(db, InsertOrder(uid, row)), last.block, uid);
  }

  lemma CancellationMovesNoRow(db: Database, uid: OrderUid, time: int, block: int)
    ensures UpdatedAfter(Apply(db, CancelOrder(uid, time)), block, uid) <==> UpdatedAfter(db, block, uid)
  {
    var db' := Apply(db, CancelOrder(uid, time));
    assert db' == db.(orders := db'.orders);
  }

  lemma FetchedAfterCancelIff(db: Database, since: int, block: int, uid: OrderUid, time: int)
    requires uid in db.orders && db.orders[uid].cancellation.None? && db.orders[uid].creation <= since
    ensures uid in OrdersSince(Apply(db, CancelOrder(uid, time)), since, block) <==>
            time > since || UpdatedAfter(db, block, uid)
  {
    var db' := Apply(db, CancelOrder(uid, time));
    assert db'.orders[uid] == db.orders[uid].(cancellation := Some(time));
    UpdatedUidsAreUpdated(db', block, uid);
    CancellationMovesNoRow(db, uid, time, block);
  }

  /** A cancellation is noticed exactly if it is less than 60 seconds older than the read, or a related row is newer. */
  lemma CancelledWithinTheMinuteIff(db: Database, cached: Option<Snapshot>, now: int, minValidTo: int, uid: OrderUid,
                                    time: int)
    requires uid in db.orders && db.orders[uid].cancellation.None? && now - db.orders[uid].creation >= 60_000_000
    ensures
      var last := ReadOrders(db, cached, now, minValidTo);
      uid in OrdersSince(Apply(db, CancelOrder(uid, time)), last.fetchedAt, last.block) <==>
      now - time < 60_000_000 || UpdatedAfter(db, last.block, uid)
  {
    var last := ReadOrders(db, cached, now, minValidTo);
    FetchedAfterCancelIff(db, last.fetchedAt, last.block, uid, time);
  }

  // ----------------------------------------------------- writes stamped after the checkpoint

  lemma WantedBefore(db: Database, db': Database, minValidTo: int, minValidTo': int, uid: OrderUid)
    requires SameOrder(db, db', uid) && minValidTo <= minValidTo' && Wanted(db', minValidTo', uid)
    ensures Wanted(db, minValidTo, uid)
  {
  }

  lemma SameOrderUnaffected(db: Database, db': Database, cache: Orders, minValidTo: int, minValidTo': int,
                            uid: OrderUid)
    requires UpToDate(cache, db) && Complete(cache, db, minValidTo) && minValidTo <= minValidTo'
    requires SameOrder(db, db', uid)
    ensures Unaffected(db, db', cache, minValidTo', uid)
  {
    if Wanted(db', minValidTo', uid) {
      WantedIsRetained(db', minValidTo', uid);
      WantedBefore(db, db', minValidTo, minValidTo', uid);
    }
  }

  /** Nothing is overlooked if every write is stamped after the checkpoint of the read before it. */
  lemma StampedWritesAreNoticed(w: World, r: Round, minValidTo: int)
    requires UpToDate(w.snapshot.orders, w.db) && Complete(w.snapshot.orders, w.db, minValidTo)
    requires minValidTo <= r.minValidTo
    requires forall c | c in r.changes :: After(c, w.snapshot.fetchedAt, w.snapshot.block)
    ensures RoundOverlooksNothing(w, r)
  {
    var db', cache, time, block := ApplyAll(w.db, r.changes), w.snapshot.orders, w.snapshot.fetchedAt, w.snapshot.block;
    forall uid
      ensures Noticed(db', time, block, uid) || Unaffected(w.db, db', cache, r.minValidTo, uid)
    {
      ChangesAreSelected(w.db, r.changes, time, block, uid);
      OrdersStay(w.db, r.changes, uid);
      if SameOrder(w.db, db', uid) {
        SameOrderUnaffected(w.db, db', cache, minValidTo, r.minValidTo, uid);
      }
    }
  }

  function LastValidTo(rounds: seq<Round>, minValidTo: int): int
  {
    if rounds == [] then minValidTo else rounds[|rounds| - 1].minValidTo
  }

  /** Every write of the run comes after the checkpoint of the read before it, and validity moves forward. */
  ghost predicate Stamped(w: World, rounds: seq<Round>, minValidTo: int)
  {
    rounds == [] ||
    var init, last := rounds[..|rounds| - 1], rounds[|rounds| - 1];
    var checkpoint := WorldAfter(w, init).snapshot;
    && Stamped(w, init, minValidTo) && LastValidTo(init, minValidTo) <= last.minValidTo
    && forall c | c in last.changes :: After(c, checkpoint.fetchedAt, checkpoint.block)
  }

  /** Such a run is healthy throughout. */
  lemma {:induction false} StampedRunsStayHealthy(w: World, rounds: seq<Round>, minValidTo: int)
    requires UpToDate(w.snapshot.orders, w.db) && Complete(w.snapshot.orders, w.db, minValidTo)
    requires Stamped(w, rounds, minValidTo)
    ensures AlwaysHealthy(w, rounds)
    ensures
      var w' := WorldAfter(w, rounds);
      UpToDate(w'.snapshot.orders, w'.db) && Complete(w'.snapshot.orders, w'.db, LastValidTo(rounds, minValidTo))
  {
    if rounds != [] {
      var init, last := rounds[..|rounds| - 1], rounds[|rounds| - 1];
      StampedRunsStayHealthy(w, init, minValidTo);
      StampedWritesAreNoticed(WorldAfter(w, init), last, LastValidTo(init, minValidTo));
      ReadHealthyIff(WorldAfter(w, init), last);
    }
  }

  // ------------------------------------------------------------------------ late writes

  /** The fee of an order is stored after a read whose checkpoint is the block of its settlement. */
  lemma LateExecutionIsStale(w: World, uid: OrderUid, auction: AuctionId, e: Execution, now: int, minValidTo: int)
    requires UpToDate(w.snapshot.orders, w.db)
    requires uid in w.snapshot.orders && Retained(w.snapshot.orders[uid], minValidTo)
    requires !Selected(w.db, w.snapshot.fetchedAt, w.snapshot.block, uid)
    requires e.block <= w.snapshot.block && ExecutionKey(uid, auction) !in w.db.executions && e.fee != 0
    ensures
      var w' := NextRead(w, Round([UpsertExecution(uid, auction, e)], now, minValidTo));
      uid in w'.snapshot.orders && !UpToDate(w'.snapshot.orders, w'.db)
  {
    var c := UpsertExecution(uid, auction, e);
    ExecutionUnselected(w.db, uid, auction, e, w.snapshot.fetchedAt, w.snapshot.block);
    ExecutionAddsFee(w.db, uid, auction, e);
    FeeOverlooked(w.db, Apply(w.db, c), w.snapshot.orders, w.snapshot.fetchedAt, w.snapshot.block, minValidTo, uid);
    OneWrite(w, c, now, minValidTo);
  }

  lemma FeeOverlooked(db: Database, db': Database, cache: Orders, time: int, block: int, minValidTo: int, uid: OrderUid)
    requires UpToDate(cache, db) && uid in cache && Retained(cache[uid], minValidTo)
    requires uid in db'.orders && !Selected(db', time, block, uid)
    requires ExecutedFee(HistoryOf(db', uid)) != ExecutedFee(HistoryOf(db, uid))
    ensures uid in Refresh(cache, OrdersSince(db', time, block), minValidTo)
    ensures !UpToDate(Refresh(cache, OrdersSince(db', time, block), minValidTo), db')
  {
    UnnoticedStays(db', cache, time, block, minValidTo, uid);
    StaleFee(db, db', cache, uid);
  }

  lemma OneWrite(w: World, c: Change, now: int, minValidTo: int)
    ensures
      var w', db' := NextRead(w, Round([c], now, minValidTo)), Apply(w.db, c);
      && w'.db == db'
      && w'.snapshot.orders ==
         Refresh(w.snapshot.orders, OrdersSince(db', w.snapshot.fetchedAt, w.snapshot.block), minValidTo)
  {
    assert [c][1..] == [] && ApplyAll(w.db, [c]) == Apply(w.db, c);
  }

  lemma UnnoticedStays(db: Database, cache: Orders, time: int, block: int, minValidTo: int, uid: OrderUid)
    requires !Noticed(db, time, block, uid) && uid in cache && Retained(cache[uid], minValidTo)
    ensures Lookup(Refresh(cache, OrdersSince(db, time, block), minValidTo), uid) == Some(cache[uid])
  {
    FetchedIffNoticed(db, time, block, uid);
    RefreshedAt(cache, OrdersSince(db, time, block), minValidTo, uid);
  }

  lemma StaleFee(db: Database, db': Database, cache: Orders, uid: OrderUid)
    requires UpToDate(cache, db) && uid in cache && uid in db'.orders
    requires ExecutedFee(HistoryOf(db', uid)) != ExecutedFee(HistoryOf(db, uid))
    ensures cache[uid] != OpenRow(db'.orders[uid], HistoryOf(db', uid))
  {
    assert cache[uid].executedFee == ExecutedFee(HistoryOf(db, uid));
  }

  lemma ExecutionUnselected(db: Database, uid: OrderUid, auction: AuctionId, e: Execution, time: int, block: int)
    requires !Selected(db, time, block, uid) && e.block <= block
    ensures !Selected(Apply(db, UpsertExecution(uid, auction, e)), time, block, uid)
  {
  }

  lemma ExecutionAddsFee(db: Database, uid: OrderUid, auction: AuctionId, e: Execution)
    requires ExecutionKey(uid, auction) !in db.executions
    ensures ExecutedFee(HistoryOf(Apply(db, UpsertExecution(uid, auction, e)), uid)) ==
            ExecutedFee(HistoryOf(db, uid)) + e.fee
  {
    var k, before := ExecutionKey(uid, auction), ExecutionsOf(db.executions, uid);
    NewExecution(db.executions, k, e);
    SumInsert(ExecutionFees(before), k, e.fee);
  }

  lemma NewExecution(executions: map<ExecutionKey, Execution>, k: ExecutionKey, e: Execution)
    requires k !in executions
    ensures
      var before, after := ExecutionsOf(executions, k.uid), ExecutionsOf(executions[k := e], k.uid);
      k !in before && ExecutionFees(after) == ExecutionFees(before)[k := e.fee]
  {
    var before := ExecutionsOf(executions, k.uid);
    assert ExecutionsOf(executions[k := e], k.uid) == before[k := e];
    assert ExecutionFees(before[k := e]) == ExecutionFees(before)[k := e.fee];
  }

  /** A reorg takes back trades of an order and leaves no newer row of it: the old fill amounts stay. */
  lemma RevertedTradeIsStale(w: World, uid: OrderUid, from: int, now: int, minValidTo: int)
    requires UpToDate(w.snapshot.orders, w.db)
    requires uid in w.snapshot.orders && Retained(w.snapshot.orders[uid], minValidTo)
    requires
      var db' := Apply(w.db, RevertSettlementEvents(from));
      && !Selected(db', w.snapshot.fetchedAt, w.snapshot.block, uid)
      && SumSell(HistoryOf(db', uid)) != SumSell(HistoryOf(w.db, uid))
    ensures
      var w' := NextRead(w, Round([RevertSettlementEvents(from)], now, minValidTo));
      uid in w'.snapshot.orders && !UpToDate(w'.snapshot.orders, w'.db)
  {
    var c := RevertSettlementEvents(from);
    OneWrite(w, c, now, minValidTo);
    UnnoticedStays(Apply(w.db, c), w.snapshot.orders, w.snapshot.fetchedAt, w.snapshot.block, minValidTo, uid);
    assert w.snapshot.orders[uid].sumSell == SumSell(HistoryOf(w.db, uid));
  }

  /** An ethflow order whose indexer lags behind the settlement indexer is never picked up. */
  lemma LatePlacementIsMissed(w: World, c: Change, now: int, minValidTo: int)
    requires c.PlaceEthflowOrder? && c.uid !in w.db.orders && c.uid !in w.snapshot.orders
    requires HistoryOf(w.db, c.uid) == HistoryOf(EmptyDatabase, c.uid)
    requires c.placement.error.None? && c.row.cancellation.None?
    requires minValidTo <= c.userValidTo && minValidTo <= c.row.validTo
    requires c.row.kind == Sell && c.row.sellAmount > 0
    requires c.placement.at.block <= w.snapshot.block && c.row.creation <= w.snapshot.fetchedAt
    ensures
      var w' := NextRead(w, Round([c], now, minValidTo));
      Wanted(w'.db, minValidTo, c.uid) && c.uid !in w'.snapshot.orders
  {
    var db' := Apply(w.db, c);
    OneWrite(w, c, now, minValidTo);
    PlacedIsWanted(w.db, c, minValidTo);
    PlacedIsUnselected(w.db, c, w.snapshot.fetchedAt, w.snapshot.block);
    FetchedIffNoticed(db', w.snapshot.fetchedAt, w.snapshot.block, c.uid);
    RefreshedAt(w.snapshot.orders, OrdersSince(db', w.snapshot.fetchedAt, w.snapshot.block), minValidTo, c.uid);
  }

  lemma PlacedIsWanted(db: Database, c: Change, minValidTo: int)
    requires c.PlaceEthflowOrder? && c.uid !in db.orders && HistoryOf(db, c.uid) == HistoryOf(EmptyDatabase, c.uid)
    requires c.placement.error.None? && c.row.cancellation.None?
    requires minValidTo <= c.userValidTo && minValidTo <= c.row.validTo
    requires c.row.kind == Sell && c.row.sellAmount > 0
    ensures Wanted(Apply(db, c), minValidTo, c.uid)
  {
    var h := HistoryOf(Apply(db, c), c.uid);
    assert h.trades == map[] && Sells(h.trades) == map[];
  }

  lemma PlacedIsUnselected(db: Database, c: Change, time: int, block: int)
    requires c.PlaceEthflowOrder? && c.uid !in db.orders && HistoryOf(db, c.uid) == HistoryOf(EmptyDatabase, c.uid)
    requires c.placement.at.block <= block && c.row.creation <= time && c.row.cancellation.None?
    ensures !Selected(Apply(db, c), time, block, c.uid)
  {
    NoHistoryNoUpdates(db, c.uid, block);
    PlacementUnselected(db, c, time, block);
  }

  lemma PlacementUnselected(db: Database, c: Change, time: int, block: int)
    requires c.PlaceEthflowOrder? && c.uid !in db.orders && !UpdatedAfter(db, block, c.uid)
    requires c.placement.at.block <= block && c.row.creation <= time && c.row.cancellation.None?
    ensures !Selected(Apply(db, c), time, block, c.uid)
  {
  }

  lemma NoHistoryNoUpdates(db: Database, uid: OrderUid, block: int)
    requires HistoryOf(db, uid) == HistoryOf(EmptyDatabase, uid)
    ensures !UpdatedAfter(db, block, uid)
  {
    assert TradesOf(db.trades, uid) == map[] && PresignaturesOf(db.presignatures, uid) == map[];
    assert InvalidationsOf(db.invalidations, uid) == {} && ExecutionsOf(db.executions, uid) == map[];
    forall i | i in db.trades
      ensures db.trades[i].uid != uid
    {
      assert i !in TradesOf(db.trades, uid);
    }
    forall i | i in db.presignatures
      ensures db.presignatures[i].uid != uid
    {
      assert i !in PresignaturesOf(db.presignatures, uid);
    }
    forall i | i in db.invalidations
      ensures db.invalidations[i] != uid
    {
      assert i !in InvalidationsOf(db.invalidations, uid);
    }
    forall k | k in db.executions
      ensures k.uid != uid
    {
      assert k !in ExecutionsOf(db.executions, uid);
    }
    assert Lookup(db.placements, uid).None? && Lookup(db.refunds, uid).None?;
    assert Lookup(db.onchainInvalidations, uid).None?;
  }

  /** Two reads, with only a settlement stored between them. */
  ghost function AfterSettlement(db: Database, at: Index, now: int, now': int, minValidTo: int): World
  {
    NextRead(FirstRead(db, now, minValidTo), Round([InsertSettlement(at)], now', minValidTo))
  }

  lemma SettlementMovesCheckpoint(db: Database, at: Index, now: int, now': int, minValidTo: int)
    requires db.settlements == {}
    ensures
      var w := AfterSettlement(db, at, now, now', minValidTo);
      && w.db == db.(settlements := {at})
      && w.snapshot.block == at.block && w.snapshot.fetchedAt == now' - CHECKPOINT_BUFFER
      && HealthyWorld(w, minValidTo)
  {
    var w, r := FirstRead(db, now, minValidTo), Round([InsertSettlement(at)], now', minValidTo);
    InitialCache(db, minValidTo);
    StampedWritesAreNoticed(w, r, minValidTo);
    ReadHealthyIff(w, r);
    OneWrite(w, InsertSettlement(at), now', minValidTo);
    assert db.settlements + {at} == {at};
  }

  /** An order in an otherwise empty database that every read returns. */
  predicate IsFresh(row: OrderRow, minValidTo: int)
  {
    && row.kind == Sell && row.sellAmount > 0 && row.cancellation.None?
    && minValidTo <= row.validTo && minValidTo <= row.trueValidTo
  }

  /** One order, partly filled by one trade of one settlement. */
  function PartlyFilled(uid: OrderUid, row: OrderRow, t: Index, trade: Trade, at: Index): Database
  {
    EmptyDatabase.(orders := map[uid := row], trades := map[t := trade], settlements := {at})
  }

  lemma OneTrade(t: Index, trade: Trade)
    ensures Sum(Sells(map[t := trade])) == trade.sell
  {
    var none: map<Index, int> := map[];
    assert Sells(map[t := trade]) == none[t := trade.sell];
    SumInsert(none, t, trade.sell);
  }

  lemma PartlyFilledHistory(uid: OrderUid, row: OrderRow, t: Index, trade: Trade, at: Index)
    requires trade.uid == uid
    ensures HistoryOf(PartlyFilled(uid, row, t, trade, at), uid) ==
            HistoryOf(EmptyDatabase, uid).(trades := map[t := trade])
  {
  }

  lemma PartlyFilledIsWanted(uid: OrderUid, row: OrderRow, t: Index, trade: Trade, at: Index, minValidTo: int)
    requires IsFresh(row, minValidTo) && trade.uid == uid && trade.sell < row.sellAmount
    ensures Wanted(PartlyFilled(uid, row, t, trade, at), minValidTo, uid)
    ensures SumSell(HistoryOf(PartlyFilled(uid, row, t, trade, at), uid)) == trade.sell
  {
    PartlyFilledHistory(uid, row, t, trade, at);
    OneTrade(t, trade);
  }

  lemma PartlyFilledUnselected(uid: OrderUid, row: OrderRow, t: Index, trade: Trade, at: Index, time: int)
    requires row.creation <= time && row.cancellation.None? && t.block <= at.block
    ensures !Selected(PartlyFilled(uid, row, t, trade, at), time, at.block, uid)
  {
  }

  /** The second of two reads, with a trade and its settlement stored in between as one transaction. */
  ghost function AfterFill(uid: OrderUid, row: OrderRow, t: Index, trade: Trade, at: Index, now: int, now': int, m: int)
    : World
  {
    NextRead(FirstRead(EmptyDatabase.(orders := map[uid := row]), now, m),
             Round([InsertTrade(t, trade), InsertSettlement(at)], now', m))
  }

  lemma FillMovesCheckpoint(uid: OrderUid, row: OrderRow, t: Index, trade: Trade, at: Index,
                            now: int, now': int, m: int)
    requires t.block > 0
    ensures
      var w := AfterFill(uid, row, t, trade, at, now, now', m);
      && w.db == PartlyFilled(uid, row, t, trade, at)
      && w.snapshot.block == at.block && w.snapshot.fetchedAt == now' - CHECKPOINT_BUFFER
      && HealthyWorld(w, m)
  {
    var db := EmptyDatabase.(orders := map[uid := row]);
    var r := Round([InsertTrade(t, trade), InsertSettlement(at)], now', m);
    FillStored(uid, row, t, trade, at);
    StampedReadIsHealthy(db, r, now);
  }

  lemma FillStored(uid: OrderUid, row: OrderRow, t: Index, trade: Trade, at: Index)
    ensures ApplyAll(EmptyDatabase.(orders := map[uid := row]), [InsertTrade(t, trade), InsertSettlement(at)]) ==
            PartlyFilled(uid, row, t, trade, at)
  {
    var db, c, d := EmptyDatabase.(orders := map[uid := row]), InsertTrade(t, trade), InsertSettlement(at);
    assert [c, d][1..] == [d] && [d][1..] == [];
    assert ApplyAll(Apply(db, c), [d]) == Apply(Apply(db, c), d);
    assert db.settlements + {at} == {at};
  }

  lemma StampedReadIsHealthy(db: Database, r: Round, now: int)
    requires db.settlements == {}
    requires forall c | c in r.changes :: After(c, now - CHECKPOINT_BUFFER, 0)
    ensures HealthyWorld(NextRead(FirstRead(db, now, r.minValidTo), r), r.minValidTo)
  {
    var w := FirstRead(db, now, r.minValidTo);
    InitialCache(db, r.minValidTo);
    StampedWritesAreNoticed(w, r, r.minValidTo);
    ReadHealthyIff(w, r);
  }

  /**
   A run of three reads that goes wrong: a trade and its settlement are stored before the second read
   and the fee that belongs to them, in the same block, after it. The third read keeps the order without
   its fee.
   */
  lemma FeeStoredAfterRead(uid: OrderUid, row: OrderRow, t: Index, trade: Trade, at: Index, fee: int,
                           now: int, now': int, now'': int, m: int)
    requires IsFresh(row, m) && trade.uid == uid && trade.sell < row.sellAmount && fee != 0
    requires 0 < t.block == at.block && row.creation <= now' - CHECKPOINT_BUFFER
    ensures
      var w := AfterFill(uid, row, t, trade, at, now, now', m);
      var w' := NextRead(w, Round([UpsertExecution(uid, 1, Execution(at.block, fee))], now'', m));
      HealthyWorld(w, m) && uid in w'.snapshot.orders && !UpToDate(w'.snapshot.orders, w'.db)
  {
    var w := AfterFill(uid, row, t, trade, at, now, now', m);
    FillMovesCheckpoint(uid, row, t, trade, at, now, now', m);
    PartlyFilledIsWanted(uid, row, t, trade, at, m);
    PartlyFilledUnselected(uid, row, t, trade, at, w.snapshot.fetchedAt);
    LateExecutionIsStale(w, uid, 1, Execution(at.block, fee), now'', m);
  }

  /** A run of two reads: a reorg between them takes back a fill that the first one has read. */
  lemma FillRevertedAfterRead(uid: OrderUid, row: OrderRow, t: Index, trade: Trade, at: Index,
                              now: int, now': int, m: int)
    requires IsFresh(row, m) && trade.uid == uid && 0 != trade.sell < row.sellAmount
    requires t.block == at.block && row.creation <= now - CHECKPOINT_BUFFER
    ensures
      var w := FirstRead(PartlyFilled(uid, row, t, trade, at), now, m);
      var w' := NextRead(w, Round([RevertSettlementEvents(at.block)], now', m));
      uid in w'.snapshot.orders && !UpToDate(w'.snapshot.orders, w'.db)
  {
    var db := PartlyFilled(uid, row, t, trade, at);
    var w := FirstRead(db, now, m);
    InitialCache(db, m);
    PartlyFilledIsWanted(uid, row, t, trade, at, m);
    WantedIsRetained(db, m, uid);
    RevertedFill(uid, row, t, trade, at, w.snapshot.fetchedAt);
    RevertedTradeIsStale(w, uid, at.block, now', m);
  }

  lemma RevertedFill(uid: OrderUid, row: OrderRow, t: Index, trade: Trade, at: Index, time: int)
    requires t.block == at.block && row.creation <= time && row.cancellation.None?
    ensures
      var db := Apply(PartlyFilled(uid, row, t, trade, at), RevertSettlementEvents(at.block));
      !Selected(db, time, at.block, uid) && SumSell(HistoryOf(db, uid)) == 0
  {
    var db := Apply(PartlyFilled(uid, row, t, trade, at), RevertSettlementEvents(at.block));
    assert db.trades == map[];
    assert Sells(HistoryOf(db, uid).trades) == map[];
  }

  /** Another one: an order placed in a block before that of a settlement is indexed after it, and missed. */
  lemma PlacementIndexedAfterSettlement(c: Change, at: Index, now: int, now': int, now'': int, m: int)
    requires c.PlaceEthflowOrder? && IsFresh(c.row, m) && c.placement.error.None? && m <= c.userValidTo
    requires c.placement.at.block <= at.block && c.row.creation <= now' - CHECKPOINT_BUFFER
    ensures
      var w' := NextRead(AfterSettlement(EmptyDatabase, at, now, now', m), Round([c], now'', m));
      Wanted(w'.db, m, c.uid) && c.uid !in w'.snapshot.orders
  {
    SettlementMovesCheckpoint(EmptyDatabase, at, now, now', m);
    LatePlacementIsMissed(AfterSettlement(EmptyDatabase, at, now, now', m), c, now'', m);
  }

  // -------------------------------------------------- when the refresh equals the full query

  /** Neither cancelled, invalidated, wrongly placed nor filled. */
  ghost predicate StillOpen(row: OrderRow, h: History)
  {
    !Invalidated(row, h) && !PlacementFailed(h) && Unfilled(row, h)
  }

  /** The full query's idea of validity: the stored deadline, and no refund. */
  predicate Timely(row: OrderRow, h: History, minValidTo: int)
  {
    row.trueValidTo >= minValidTo && h.refund.None?
  }

  /** The refresh's idea of validity: the signed deadline and, for ethflow orders, the user's. */
  predicate Unexpired(row: OrderRow, h: History, minValidTo: int)
  {
    row.validTo >= minValidTo && (h.ethflowValidTo.Some? ==> h.ethflowValidTo.value >= minValidTo)
  }

  lemma OpenMembers(db: Database, minValidTo: int, uid: OrderUid)
    requires uid in db.orders
    ensures Retained(OpenRow(db.orders[uid], HistoryOf(db, uid)), minValidTo) <==>
            && StillOpen(db.orders[uid], HistoryOf(db, uid))
            && Unexpired(db.orders[uid], HistoryOf(db, uid), minValidTo)
  {
    OpenMeansUnfilled(db.orders[uid], HistoryOf(db, uid), minValidTo);
  }

  lemma SolvableMembers(db: Database, minValidTo: int, uid: OrderUid)
    ensures uid in SolvableOrders(db, minValidTo) <==>
            && uid in db.orders
            && StillOpen(db.orders[uid], HistoryOf(db, uid))
            && Timely(db.orders[uid], HistoryOf(db, uid), minValidTo)
  {
  }

  /**
   On a noticed order the two ideas of validity agree. An unnoticed one that stays in the cache has its
   old row and is timely, and one that does not stay is closed or not timely.
   */
  ghost predicate ExactOn(db: Database, db': Database, cache: Orders, time: int, block: int, minValidTo: int,
                          uid: OrderUid)
  {
    if Noticed(db', time, block, uid) then
      var row, h := db'.orders[uid], HistoryOf(db', uid);
      StillOpen(row, h) ==> (Timely(row, h, minValidTo) <==> Unexpired(row, h, minValidTo))
    else if uid in cache && Retained(cache[uid], minValidTo) then
      && uid in db.orders && uid in db'.orders && Timely(db'.orders[uid], HistoryOf(db', uid), minValidTo)
      && OpenRow(db'.orders[uid], HistoryOf(db', uid)) == OpenRow(db.orders[uid], HistoryOf(db, uid))
    else
      uid in db'.orders && StillOpen(db'.orders[uid], HistoryOf(db', uid)) ==>
        !Timely(db'.orders[uid], HistoryOf(db', uid), minValidTo)
  }

  lemma RefreshExactOnIff(db: Database, db': Database, cache: Orders, time: int, block: int, minValidTo: int,
                          uid: OrderUid)
    requires UpToDate(cache, db)
    ensures Lookup(Refresh(cache, OrdersSince(db', time, block), minValidTo), uid) ==
              Lookup(SolvableOrders(db', minValidTo), uid) <==>
            ExactOn(db, db', cache, time, block, minValidTo, uid)
  {
    FetchedIffNoticed(db', time, block, uid);
    RefreshedAt(cache, OrdersSince(db', time, block), minValidTo, uid);
    SolvableMembers(db', minValidTo, uid);
    if uid in db'.orders {
      OpenMembers(db', minValidTo, uid);
    }
    if uid in SolvableOrders(db', minValidTo) {
      RowsAgree(db'.orders[uid], HistoryOf(db', uid), minValidTo);
    }
  }

  lemma EqualByLookup(a: Orders, b: Orders)
    ensures a == b <==> forall uid :: Lookup(a, uid) == Lookup(b, uid)
  {
    if forall uid :: Lookup(a, uid) == Lookup(b, uid) {
      assert forall uid | uid in a :: Lookup(b, uid) == Some(a[uid]);
      assert forall uid | uid in b :: Lookup(a, uid) == Some(b[uid]);
      assert a == b;
    }
  }

  /** A refresh is the full query's answer if and only if it is exact on every order, whatever was written. */
  lemma RefreshEqualsFullQueryIff(db: Database, db': Database, cache: Orders, time: int, block: int, minValidTo: int)
    requires UpToDate(cache, db)
    ensures Refresh(cache, OrdersSince(db', time, block), minValidTo) == SolvableOrders(db', minValidTo) <==>
            forall uid :: ExactOn(db, db', cache, time, block, minValidTo, uid)
  {
    var refreshed := Refresh(cache, OrdersSince(db', time, block), minValidTo);
    EqualByLookup(refreshed, SolvableOrders(db', minValidTo));
    forall uid
      ensures Lookup(refreshed, uid) == Lookup(SolvableOrders(db', minValidTo), uid) <==>
              ExactOn(db, db', cache, time, block, minValidTo, uid)
    {
      RefreshExactOnIff(db, db', cache, time, block, minValidTo, uid);
    }
  }

  /** A cached order has its stored deadline ahead and no refund. */
  ghost predicate CachedIsTimely(db: Database, cache: Orders, minValidTo: int, uid: OrderUid)
  {
    uid in cache && uid in db.orders ==> Timely(db.orders[uid], HistoryOf(db, uid), minValidTo)
  }

  /** An open order for which this holds is not expired by its own deadlines either. */
  ghost predicate TimelyIsUnexpired(db: Database, minValidTo: int, uid: OrderUid)
  {
    uid in db.orders ==>
      var row, h := db.orders[uid], HistoryOf(db, uid);
      StillOpen(row, h) && Timely(row, h, minValidTo) ==> Unexpired(row, h, minValidTo)
  }

  lemma HealthyExactOnIff(db: Database, cache: Orders, minValidTo: int, uid: OrderUid)
    requires HealthyOn(db, cache, minValidTo, uid)
    ensures Lookup(cache, uid) == Lookup(SolvableOrders(db, minValidTo), uid) <==>
            CachedIsTimely(db, cache, minValidTo, uid) && TimelyIsUnexpired(db, minValidTo, uid)
  {
    SolvableMembers(db, minValidTo, uid);
    if uid in db.orders {
      OpenMembers(db, minValidTo, uid);
    }
    if uid in SolvableOrders(db, minValidTo) {
      RowsAgree(db.orders[uid], HistoryOf(db, uid), minValidTo);
    }
  }

  /**
   A healthy cache is the full query's answer if and only if every cached order is timely, by its
   stored deadline and without a refund, and no open timely order is expired by its own deadlines.
   */
  lemma HealthyEqualsFullQueryIff(db: Database, cache: Orders, minValidTo: int)
    requires Healthy(db, cache, minValidTo)
    ensures cache == SolvableOrders(db, minValidTo) <==>
            forall uid :: CachedIsTimely(db, cache, minValidTo, uid) && TimelyIsUnexpired(db, minValidTo, uid)
  {
    HealthyEverywhere(db, cache, minValidTo);
    EqualByLookup(cache, SolvableOrders(db, minValidTo));
    forall uid
      ensures Lookup(cache, uid) == Lookup(SolvableOrders(db, minValidTo), uid) <==>
              CachedIsTimely(db, cache, minValidTo, uid) && TimelyIsUnexpired(db, minValidTo, uid)
    {
      HealthyExactOnIff(db, cache, minValidTo, uid);
    }
  }

  // ------------------------------------------------------ how the two validities come apart

  /**
   A new ethflow order keeps the signed deadline as its stored one: its row is inserted after the
   statement that was meant to lower it. Only a repeated placement lowers it.
   */
  lemma EthflowDeadlineStoredIff(db: Database, uid: OrderUid, userValidTo: int, p: Placement, row: OrderRow)
    requires row.validTo != userValidTo
    ensures
      var db' := Apply(db, PlaceEthflowOrder(uid, userValidTo, p, row));
      db'.orders[uid].trueValidTo == userValidTo <==> uid in db.orders
  {
  }

  /** So the full query returns an order whose user deadline has passed, and the refresh does not. */
  lemma ExpiredEthflowOrderDiverges(uid: OrderUid, userValidTo: int, sender: Address, at: Index, row: OrderRow,
                                    time: int, block: int, minValidTo: int)
    requires at.block > block && userValidTo < minValidTo <= row.validTo
    requires row.kind == Sell && row.sellAmount > 0 && row.cancellation.None?
    ensures
      var placement := PlaceEthflowOrder(uid, userValidTo, Placement(sender, None, at), row);
      var db := Apply(EmptyDatabase, placement);
      && After(placement, time, block)
      && uid in SolvableOrders(db, minValidTo)
      && uid !in Refresh(map[], OrdersSince(db, time, block), minValidTo)
  {
    var placement := PlaceEthflowOrder(uid, userValidTo, Placement(sender, None, at), row);
    var db := Apply(EmptyDatabase, placement);
    var h := HistoryOf(db, uid);
    assert Sells(h.trades) == map[];
    assert Solvable(db.orders[uid], h, minValidTo);
  }

  lemma RefundKeepsOpen(row: OrderRow, h: History, refund: Refund)
    ensures StillOpen(row, h.(refund := Some(refund))) == StillOpen(row, h)
  {
  }

  lemma RefundHistory(db: Database, uid: OrderUid, refund: Refund)
    ensures HistoryOf(Apply(db, UpsertRefund(uid, refund)), uid) == HistoryOf(db, uid).(refund := Some(refund))
  {
  }

  /** The other way round: a refund before the deadline removes an order only from the full query. */
  lemma RefundedOrderDiverges(db: Database, cache: Orders, uid: OrderUid, refund: Refund,
                              time: int, block: int, minValidTo: int)
    requires refund.block > block
    requires uid in SolvableOrders(db, minValidTo)
    requires Unexpired(db.orders[uid], HistoryOf(db, uid), minValidTo)
    ensures
      var db' := Apply(db, UpsertRefund(uid, refund));
      && uid !in SolvableOrders(db', minValidTo)
      && uid in Refresh(cache, OrdersSince(db', time, block), minValidTo)
  {
    var db' := Apply(db, UpsertRefund(uid, refund));
    RefundHistory(db, uid, refund);
    SolvableMembers(db, minValidTo, uid);
    ClosedIsUnsolvable(db, UpsertRefund(uid, refund), uid, minValidTo);
    RefundKeepsRow(db.orders[uid], HistoryOf(db, uid), refund, minValidTo);
    assert Noticed(db', time, block, uid);
    FetchedIffNoticed(db', time, block, uid);
    RefreshedAt(cache, OrdersSince(db', time, block), minValidTo, uid);
  }

  lemma RefundKeepsRow(row: OrderRow, h: History, refund: Refund, minValidTo: int)
    requires StillOpen(row, h) && Unexpired(row, h, minValidTo)
    ensures Retained(OpenRow(row, h.(refund := Some(refund))), minValidTo)
  {
    RefundKeepsOpen(row, h, refund);
    OpenMeansUnfilled(row, h.(refund := Some(refund)), minValidTo);
  }
}

/**
 The order book tables and the queries over them: the full `solvable_orders` query, the
 incremental pair `updated_order_uids_after` / `open_orders_by_time_or_uids`, and the writes
 that change the tables between two reads.
 */
module OrderQueries {
  import opened Common
  import opened Tables

  datatype SigningScheme = Eip712 | EthSign | Eip1271 | PreSign

  /** One row of `orders`; `details` stands for the columns that are never rewritten or read here. */
  datatype OrderRow = OrderRow(
    creation: int,
    cancellation: Option<int>,
    validTo: int,
    trueValidTo: int,
    kind: OrderKind,
    sellAmount: int,
    buyAmount: int,
    scheme: SigningScheme,
    details: nat)

  datatype Trade = Trade(uid: OrderUid, sell: int, buy: int, fee: int)
  datatype Presignature = Presignature(uid: OrderUid, signed: bool)
  datatype Placement = Placement(sender: Address, error: Option<nat>, at: Index)
  datatype Refund = Refund(block: int, tx: Hash)
  datatype ExecutionKey = ExecutionKey(uid: OrderUid, auction: AuctionId)
  datatype Execution = Execution(block: int, fee: int)

  datatype Database = Database(
    orders: map<OrderUid, OrderRow>,
    trades: map<Index, Trade>,
    invalidations: map<Index, OrderUid>,
    onchainInvalidations: map<OrderUid, Index>,
    placements: map<OrderUid, Placement>,
    refunds: map<OrderUid, Refund>,
    presignatures: map<Index, Presignature>,
    executions: map<ExecutionKey, Execution>,
    ethflowOrders: map<OrderUid, int>,
    settlements: set<Index>)

  const EmptyDatabase :=
    Database(map[], map[], map[], map[], map[], map[], map[], map[], map[], {})

  // ------------------------------------------------- what the queries look up for one order

  /** All rows of the other tables that belong to one order. */
  datatype History = History(
    trades: map<Index, Trade>,
    invalidations: set<Index>,
    onchainInvalidation: Option<Index>,
    placement: Option<Placement>,
    refund: Option<Refund>,
    presignatures: map<Index, Presignature>,
    executions: map<ExecutionKey, Execution>,
    ethflowValidTo: Option<int>)

  function Lookup<K, V>(table: map<K, V>, key: K): Option<V>
  {
    if key in table then Some(table[key]) else None
  }

  function TradesOf(trades: map<Index, Trade>, uid: OrderUid): map<Index, Trade>
  {
    map i | i in trades && trades[i].uid == uid :: trades[i]
  }

  function InvalidationsOf(invalidations: map<Index, OrderUid>, uid: OrderUid): set<Index>
  {
    set i | i in invalidations && invalidations[i] == uid
  }

  function PresignaturesOf(events: map<Index, Presignature>, uid: OrderUid): map<Index, Presignature>
  {
    map i | i in events && events[i].uid == uid :: events[i]
  }

  function ExecutionsOf(executions: map<ExecutionKey, Execution>, uid: OrderUid): map<ExecutionKey, Execution>
  {
    map k | k in executions && k.uid == uid :: executions[k]
  }

  function HistoryOf(db: Database, uid: OrderUid): History
  {
    History(
      TradesOf(db.trades, uid),
      InvalidationsOf(db.invalidations, uid),
      Lookup(db.onchainInvalidations, uid),
      Lookup(db.placements, uid),
      Lookup(db.refunds, uid),
      PresignaturesOf(db.presignatures, uid),
      ExecutionsOf(db.executions, uid),
      Lookup(db.ethflowOrders, uid))
  }

  function Sells(trades: map<Index, Trade>): map<Index, int> { map i | i in trades :: trades[i].sell }
  function Buys(trades: map<Index, Trade>): map<Index, int> { map i | i in trades :: trades[i].buy }
  function Fees(trades: map<Index, Trade>): map<Index, int> { map i | i in trades :: trades[i].fee }

  ghost function SumSell(h: History): int { Sum(Sells(h.trades)) }
  ghost function SumBuy(h: History): int { Sum(Buys(h.trades)) }
  ghost function SumFee(h: History): int { Sum(Fees(h.trades)) }
  function ExecutionFees(executions: map<ExecutionKey, Execution>): map<ExecutionKey, int>
  {
    map k | k in executions :: executions[k].fee
  }

  ghost function ExecutedFee(h: History): int { Sum(ExecutionFees(h.executions)) }

  predicate Later(a: Index, b: Index)
  {
    a.block > b.block || (a.block == b.block && a.log > b.log)
  }

  /** ORDER BY block_number DESC, log_index DESC LIMIT 1. */
  ghost function Latest(events: set<Index>): (last: Index)
    requires events != {}
    ensures last in events
    ensures forall e | e in events && e != last :: Later(last, e)
  {
    var e :| e in events;
    if events == {e} then e
    else
      assert forall x | x in events && x != e :: x in events - {e};
      var other := Latest(events - {e});
      if Later(e, other) then e else other
  }

  ghost predicate PresignaturePending(row: OrderRow, h: History)
  {
    && row.scheme == PreSign
    && (h.presignatures.Keys == {} || !h.presignatures[Latest(h.presignatures.Keys)].signed)
  }

  ghost predicate Unfilled(row: OrderRow, h: History)
  {
    match row.kind
    case Sell => SumSell(h) < row.sellAmount
    case Buy => SumBuy(h) < row.buyAmount
  }

  predicate Invalidated(row: OrderRow, h: History)
  {
    row.cancellation.Some? || h.invalidations != {} || h.onchainInvalidation.Some?
  }

  predicate PlacementFailed(h: History)
  {
    h.placement.Some? && h.placement.value.error.Some?
  }

  // ---------------------------------------------------------------------------- the queries

  /** What both queries return for an order. */
  datatype FullOrder = FullOrder(
    creation: int,
    validTo: int,
    kind: OrderKind,
    sellAmount: int,
    buyAmount: int,
    scheme: SigningScheme,
    details: nat,
    sumSell: int,
    sumBuy: int,
    sumFee: int,
    executedFee: int,
    invalidated: bool,
    presignaturePending: bool,
    ethflowData: Option<(Option<Hash>, int)>,
    onchainUser: Option<Address>,
    placementError: Option<nat>)

  function EthflowData(h: History): Option<(Option<Hash>, int)>
  {
    if h.ethflowValidTo.None? then None
    else Some((if h.refund.Some? then Some(h.refund.value.tx) else None, h.ethflowValidTo.value))
  }

  ghost predicate Solvable(row: OrderRow, h: History, minValidTo: int)
  {
    && row.cancellation.None?
    && row.trueValidTo >= minValidTo
    && h.invalidations == {}
    && h.onchainInvalidation.None?
    && !PlacementFailed(h)
    && h.refund.None?
    && Unfilled(row, h)
  }

  /** A row of the full query, which fills in `invalidated` and the placement error as constants. */
  ghost function SolvableRow(row: OrderRow, h: History): FullOrder
  {
    FullOrder(row.creation, row.validTo, row.kind, row.sellAmount, row.buyAmount, row.scheme, row.details,
              SumSell(h), SumBuy(h), SumFee(h), ExecutedFee(h),
              false, PresignaturePending(row, h), EthflowData(h),
              if h.placement.Some? then Some(h.placement.value.sender) else None,
              None)
  }

  /** A row of the incremental query, which looks both of them up. */
  ghost function OpenRow(row: OrderRow, h: History): FullOrder
  {
    FullOrder(row.creation, row.validTo, row.kind, row.sellAmount, row.buyAmount, row.scheme, row.details,
              SumSell(h), SumBuy(h), SumFee(h), ExecutedFee(h),
              Invalidated(row, h), PresignaturePending(row, h), EthflowData(h),
              if h.placement.Some? then Some(h.placement.value.sender) else None,
              if h.placement.Some? then h.placement.value.error else None)
  }

  ghost function SolvableOrders(db: Database, minValidTo: int): map<OrderUid, FullOrder>
  {
    map uid | uid in db.orders && Solvable(db.orders[uid], HistoryOf(db, uid), minValidTo)
      :: SolvableRow(db.orders[uid], HistoryOf(db, uid))
  }

  function UpdatedUidsAfter(db: Database, block: int): set<OrderUid>
  {
    (set i | i in db.trades && i.block > block :: db.trades[i].uid)
    + (set k | k in db.executions && db.executions[k].block > block :: k.uid)
    + (set i | i in db.invalidations && i.block > block :: db.invalidations[i])
    + (set u | u in db.onchainInvalidations && db.onchainInvalidations[u].block > block)
    + (set u | u in db.placements && db.placements[u].at.block > block)
    + (set u | u in db.refunds && db.refunds[u].block > block)
    + (set i | i in db.presignatures && i.block > block :: db.presignatures[i].uid)
  }

  predicate CreatedOrCancelledAfter(row: OrderRow, time: int)
  {
    row.creation > time || (row.cancellation.Some? && row.cancellation.value > time)
  }

  ghost function OpenOrdersByTimeOrUids(db: Database, uids: set<OrderUid>, time: int): map<OrderUid, FullOrder>
  {
    map uid | uid in db.orders && (CreatedOrCancelledAfter(db.orders[uid], time) || uid in uids)
      :: OpenRow(db.orders[uid], HistoryOf(db, uid))
  }

  /** The incremental read as a whole: first the changed uids, then the orders. */
  ghost function OrdersSince(db: Database, time: int, block: int): map<OrderUid, FullOrder>
  {
    OpenOrdersByTimeOrUids(db, UpdatedUidsAfter(db, block), time)
  }

  /** The largest block number with a settlement, or zero. */
  ghost function LatestSettlementBlock(settlements: set<Index>): (block: int)
    ensures settlements == {} ==> block == 0
    ensures settlements != {} ==> exists i :: i in settlements && i.block == block
    ensures forall i | i in settlements :: i.block <= block
    decreases |settlements|
  {
    if settlements == {} then 0
    else
      var i :| i in settlements;
      if settlements == {i} then i.block
      else
        assert forall j | j in settlements && j != i :: j in settlements - {i};
        var other := LatestSettlementBlock(settlements - {i});
        if i.block > other then i.block else other
  }

  // ------------------------------------------------------------------------------ the writes

  /** Statements that run between two reads. */
  datatype Change =
    | InsertOrder(uid: OrderUid, row: OrderRow)
    | CancelOrder(uid: OrderUid, time: int)
    | InsertTrade(at: Index, trade: Trade)
    | InsertInvalidation(at: Index, uid: OrderUid)
    | InsertPresignature(at: Index, presignature: Presignature)
    | UpsertOnchainInvalidation(uid: OrderUid, at: Index)
    | UpsertPlacement(uid: OrderUid, placement: Placement)
    | UpsertRefund(uid: OrderUid, refund: Refund)
    | UpsertExecution(uid: OrderUid, auction: AuctionId, execution: Execution)
    | PlaceEthflowOrder(uid: OrderUid, userValidTo: int, placement: Placement, row: OrderRow)
    | InsertSettlement(at: Index)
    | RevertSettlementEvents(from: int)
    | RevertOnchainOrderEvents(from: int)
    | RevertRefunds(from: int, to: int)

  /** `true_valid_to` is bound to `valid_to` whenever an order row is inserted. */
  function InsertOrderRow(orders: map<OrderUid, OrderRow>, uid: OrderUid, row: OrderRow): map<OrderUid, OrderRow>
  {
    InsertIfAbsent(orders, uid, row.(trueValidTo := row.validTo))
  }

  function CancelOrderRow(orders: map<OrderUid, OrderRow>, uid: OrderUid, time: int): map<OrderUid, OrderRow>
  {
    if uid in orders && orders[uid].cancellation.None? then
      orders[uid := orders[uid].(cancellation := Some(time))]
    else orders
  }

  /** UPDATE orders SET true_valid_to: touches nothing when the order is not stored yet. */
  function SetTrueValidTo(orders: map<OrderUid, OrderRow>, uid: OrderUid, validTo: int): map<OrderUid, OrderRow>
  {
    if uid in orders then orders[uid := orders[uid].(trueValidTo := validTo)] else orders
  }

  function Apply(db: Database, c: Change): Database
  {
    match c
    case InsertOrder(uid, row) => db.(orders := InsertOrderRow(db.orders, uid, row))
    case CancelOrder(uid, time) => db.(orders := CancelOrderRow(db.orders, uid, time))
    case InsertTrade(at, trade) => db.(trades := InsertIfAbsent(db.trades, at, trade))
    case InsertInvalidation(at, uid) => db.(invalidations := InsertIfAbsent(db.invalidations, at, uid))
    case InsertPresignature(at, p) => db.(presignatures := InsertIfAbsent(db.presignatures, at, p))
    case UpsertOnchainInvalidation(uid, at) => db.(onchainInvalidations := db.onchainInvalidations[uid := at])
    case UpsertPlacement(uid, p) => db.(placements := db.placements[uid := p])
    case UpsertRefund(uid, r) => db.(refunds := db.refunds[uid := r])
    case UpsertExecution(uid, auction, e) => db.(executions := db.executions[ExecutionKey(uid, auction) := e])
    case PlaceEthflowOrder(uid, userValidTo, p, row) =>
      // the indexer stores the ethflow data first and the order row last
      db.(ethflowOrders := db.ethflowOrders[uid := userValidTo],
          placements := db.placements[uid := p],
          orders := InsertOrderRow(SetTrueValidTo(db.orders, uid, userValidTo), uid, row))
    case InsertSettlement(at) => db.(settlements := db.settlements + {at})
    case RevertSettlementEvents(from) =>
      db.(trades := map i | i in db.trades && i.block < from :: db.trades[i],
          invalidations := map i | i in db.invalidations && i.block < from :: db.invalidations[i],
          presignatures := map i | i in db.presignatures && i.block < from :: db.presignatures[i],
          executions := map k | k in db.executions && db.executions[k].block < from :: db.executions[k],
          settlements := set i | i in db.settlements && i.block < from)
    case RevertOnchainOrderEvents(from) =>
      // placements are only marked, and neither query looks at the mark
      db.(onchainInvalidations :=
            map u | u in db.onchainInvalidations && db.onchainInvalidations[u].block < from
              :: db.onchainInvalidations[u])
    case RevertRefunds(from, to) =>
      db.(refunds := map u | u in db.refunds && !(from <= db.refunds[u].block <= to) :: db.refunds[u])
  }

  function ApplyAll(db: Database, changes: seq<Change>): Database
    decreases |changes|
  {
    if changes == [] then db else ApplyAll(Apply(db, changes[0]), changes[1..])
  }

  /** Whether a change can be about an order. */
  predicate Concerns(c: Change, uid: OrderUid)
  {
    match c
    case InsertTrade(_, trade) => trade.uid == uid
    case InsertPresignature(_, p) => p.uid == uid
    case InsertSettlement(_) => false
    case RevertSettlementEvents(_) => true
    case RevertOnchainOrderEvents(_) => true
    case RevertRefunds(_, _) => true
    case _ => c.uid == uid
  }

  /** The change carries a stamp past the checkpoint of the previous read. */
  predicate After(c: Change, time: int, block: int)
  {
    match c
    case InsertOrder(_, row) => row.creation > time
    case CancelOrder(_, t) => t > time
    case InsertTrade(at, _) => at.block > block
    case InsertInvalidation(at, _) => at.block > block
    case InsertPresignature(at, _) => at.block > block
    case UpsertOnchainInvalidation(_, at) => at.block > block
    case UpsertPlacement(_, p) => p.at.block > block
    case UpsertRefund(_, r) => r.block > block
    case UpsertExecution(_, _, e) => e.block > block
    case PlaceEthflowOrder(_, _, p, _) => p.at.block > block
    case InsertSettlement(_) => true
    case RevertSettlementEvents(_) => false
    case RevertOnchainOrderEvents(_) => false
    case RevertRefunds(_, _) => false
  }

  // ------------------------------------------------------------- completeness of the deltas

  predicate SameOrder(db: Database, db': Database, uid: OrderUid)
  {
    && (uid in db.orders <==> uid in db'.orders)
    && (uid in db.orders ==> db.orders[uid] == db'.orders[uid])
    && HistoryOf(db, uid) == HistoryOf(db', uid)
  }

  /** The uid has a row past the block in one of the seven tables. */
  ghost predicate UpdatedAfter(db: Database, block: int, uid: OrderUid)
  {
    || (exists i :: i in db.trades && i.block > block && db.trades[i].uid == uid)
    || (exists k :: k in db.executions && db.executions[k].block > block && k.uid == uid)
    || (exists i :: i in db.invalidations && i.block > block && db.invalidations[i] == uid)
    || (uid in db.onchainInvalidations && db.onchainInvalidations[uid].block > block)
    || (uid in db.placements && db.placements[uid].at.block > block)
    || (uid in db.refunds && db.refunds[uid].block > block)
    || (exists i :: i in db.presignatures && i.block > block && db.presignatures[i].uid == uid)
  }

  lemma UpdatedUidsAreUpdated(db: Database, block: int, uid: OrderUid)
    ensures uid in UpdatedUidsAfter(db, block) <==> UpdatedAfter(db, block, uid)
  {
  }

  /** The order is picked up by the next incremental read, if it is stored at all. */
  ghost predicate Selected(db: Database, time: int, block: int, uid: OrderUid)
  {
    || UpdatedAfter(db, block, uid)
    || (uid in db.orders && CreatedOrCancelledAfter(db.orders[uid], time))
  }

  /** Rows are never dropped, and an overwritten row gets a newer stamp. */
  predicate Grows(db: Database, db': Database, block: int)
  {
    && (forall i | i in db.trades :: i in db'.trades && db'.trades[i] == db.trades[i])
    && (forall i | i in db.invalidations :: i in db'.invalidations && db'.invalidations[i] == db.invalidations[i])
    && (forall i | i in db.presignatures :: i in db'.presignatures && db'.presignatures[i] == db.presignatures[i])
    && (forall k | k in db.executions ::
          k in db'.executions && (db'.executions[k] == db.executions[k] || db'.executions[k].block > block))
    && (forall u | u in db.onchainInvalidations ::
          u in db'.onchainInvalidations
          && (db'.onchainInvalidations[u] == db.onchainInvalidations[u] || db'.onchainInvalidations[u].block > block))
    && (forall u | u in db.placements ::
          u in db'.placements && (db'.placements[u] == db.placements[u] || db'.placements[u].at.block > block))
    && (forall u | u in db.refunds ::
          u in db'.refunds && (db'.refunds[u] == db.refunds[u] || db'.refunds[u].block > block))
  }

  lemma ChangeGrows(db: Database, c: Change, time: int, block: int)
    requires After(c, time, block)
    ensures Grows(db, Apply(db, c), block)
  {
  }

  lemma GrowthKeepsUpdates(db: Database, db': Database, block: int, uid: OrderUid)
    requires Grows(db, db', block) && UpdatedAfter(db, block, uid)
    ensures UpdatedAfter(db', block, uid)
  {
  }

  lemma ChangeKeepsSelection(db: Database, c: Change, time: int, block: int, uid: OrderUid)
    requires After(c, time, block) && Selected(db, time, block, uid)
    ensures Selected(Apply(db, c), time, block, uid)
  {
    if UpdatedAfter(db, block, uid) {
      ChangeGrows(db, c, time, block);
      GrowthKeepsUpdates(db, Apply(db, c), block, uid);
    }
  }

  lemma OtherTrades(trades: map<Index, Trade>, at: Index, trade: Trade, uid: OrderUid)
    requires trade.uid != uid
    ensures TradesOf(InsertIfAbsent(trades, at, trade), uid) == TradesOf(trades, uid)
  {
  }

  lemma OtherInvalidations(invalidations: map<Index, OrderUid>, at: Index, other: OrderUid, uid: OrderUid)
    requires other != uid
    ensures InvalidationsOf(InsertIfAbsent(invalidations, at, other), uid) == InvalidationsOf(invalidations, uid)
  {
  }

  lemma OtherPresignatures(events: map<Index, Presignature>, at: Index, p: Presignature, uid: OrderUid)
    requires p.uid != uid
    ensures PresignaturesOf(InsertIfAbsent(events, at, p), uid) == PresignaturesOf(events, uid)
  {
  }

  lemma OtherExecutions(executions: map<ExecutionKey, Execution>, k: ExecutionKey, e: Execution, uid: OrderUid)
    requires k.uid != uid
    ensures ExecutionsOf(executions[k := e], uid) == ExecutionsOf(executions, uid)
  {
  }

  /** Changes of tables in which an order can have several rows. */
  predicate AddsRow(c: Change)
  {
    c.InsertTrade? || c.InsertInvalidation? || c.InsertPresignature? || c.UpsertExecution?
  }

  lemma OtherRowsUntouched(db: Database, c: Change, uid: OrderUid)
    requires !Concerns(c, uid) && AddsRow(c)
    ensures SameOrder(db, Apply(db, c), uid)
  {
    match c
    case InsertTrade(at, trade) => OtherTrades(db.trades, at, trade, uid);
    case InsertInvalidation(at, other) => OtherInvalidations(db.invalidations, at, other, uid);
    case InsertPresignature(at, p) => OtherPresignatures(db.presignatures, at, p, uid);
    case UpsertExecution(other, auction, e) => OtherExecutions(db.executions, ExecutionKey(other, auction), e, uid);
  }

  lemma OtherUidsUntouched(db: Database, c: Change, uid: OrderUid)
    requires !Concerns(c, uid) && !AddsRow(c)
    ensures SameOrder(db, Apply(db, c), uid)
  {
  }

  lemma OtherOrdersUntouched(db: Database, c: Change, uid: OrderUid)
    requires !Concerns(c, uid)
    ensures SameOrder(db, Apply(db, c), uid)
  {
    if AddsRow(c) {
      OtherRowsUntouched(db, c, uid);
    } else {
      OtherUidsUntouched(db, c, uid);
    }
  }

  lemma ChangeIsSelected(db: Database, c: Change, time: int, block: int, uid: OrderUid)
    requires After(c, time, block)
    ensures SameOrder(db, Apply(db, c), uid) || Selected(Apply(db, c), time, block, uid)
  {
    var db' := Apply(db, c);
    if !Concerns(c, uid) {
      OtherOrdersUntouched(db, c, uid);
    } else if db' != db {
      match c
      case InsertTrade(at, trade) => assert at in db'.trades && db'.trades[at].uid == uid;
      case InsertInvalidation(at, _) => assert at in db'.invalidations && db'.invalidations[at] == uid;
      case InsertPresignature(at, _) => assert at in db'.presignatures && db'.presignatures[at].uid == uid;
      case UpsertExecution(_, auction, _) => assert ExecutionKey(uid, auction) in db'.executions;
      case _ =>
    }
  }

  lemma {:induction false} ChangesAreSelected(db: Database, changes: seq<Change>, time: int, block: int, uid: OrderUid)
    requires forall c | c in changes :: After(c, time, block)
    ensures SameOrder(db, ApplyAll(db, changes), uid) || Selected(ApplyAll(db, changes), time, block, uid)
    ensures Selected(db, time, block, uid) ==> Selected(ApplyAll(db, changes), time, block, uid)
    decreases |changes|
  {
    if changes != [] {
      assert changes[0] in changes;
      ChangeIsSelected(db, changes[0], time, block, uid);
      if Selected(db, time, block, uid) { ChangeKeepsSelection(db, changes[0], time, block, uid); }
      ChangesAreSelected(Apply(db, changes[0]), changes[1..], time, block, uid);
    }
  }

  /** The fill sums are the sums over the order's trades: a new trade adds its amounts. */
  lemma NewTradeAddsUp(db: Database, at: Index, trade: Trade)
    requires at !in db.trades
    ensures
      var h, h' := HistoryOf(db, trade.uid), HistoryOf(Apply(db, InsertTrade(at, trade)), trade.uid);
      && SumSell(h') == SumSell(h) + trade.sell
      && SumBuy(h') == SumBuy(h) + trade.buy
      && SumFee(h') == SumFee(h) + trade.fee
  {
    var h, h' := HistoryOf(db, trade.uid), HistoryOf(Apply(db, InsertTrade(at, trade)), trade.uid);
    assert h'.trades == h.trades[at := trade];
    NewRowAddsUp(h.trades, at, trade);
  }

  lemma NewRowAddsUp(trades: map<Index, Trade>, at: Index, trade: Trade)
    requires at !in trades
    ensures Sum(Sells(trades[at := trade])) == Sum(Sells(trades)) + trade.sell
    ensures Sum(Buys(trades[at := trade])) == Sum(Buys(trades)) + trade.buy
    ensures Sum(Fees(trades[at := trade])) == Sum(Fees(trades)) + trade.fee
  {
    SumInsert(Sells(trades), at, trade.sell);
    assert Sells(trades[at := trade]) == Sells(trades)[at := trade.sell];
    SumInsert(Buys(trades), at, trade.buy);
    assert Buys(trades[at := trade]) == Buys(trades)[at := trade.buy];
    SumInsert(Fees(trades), at, trade.fee);
    assert Fees(trades[at := trade]) == Fees(trades)[at := trade.fee];
  }

  // ------------------------------------------------------------------ orders that are closed

  /** Writes that take an order out of the full query. */
  predicate Closes(db: Database, c: Change, uid: OrderUid)
  {
    match c
    case CancelOrder(u, _) => u == uid && uid in db.orders
    case UpsertOnchainInvalidation(u, _) => u == uid
    case UpsertPlacement(u, p) => u == uid && p.error.Some?
    case UpsertRefund(u, _) => u == uid
    case _ => false
  }

  /** After such a write no read returns the order, whatever its validity. */
  lemma ClosedIsUnsolvable(db: Database, c: Change, uid: OrderUid, minValidTo: int)
    requires Closes(db, c, uid)
    ensures uid !in SolvableOrders(Apply(db, c), minValidTo)
  {
  }

  lemma CancelledStays(db: Database, c: Change, uid: OrderUid)
    requires uid in db.orders && db.orders[uid].cancellation.Some?
    ensures uid in Apply(db, c).orders && Apply(db, c).orders[uid].cancellation == db.orders[uid].cancellation
  {
  }

  /** A cancellation is final: no later write, reorgs included, brings the order back or moves its time. */
  lemma {:induction false} CancelledForGood(db: Database, changes: seq<Change>, uid: OrderUid, minValidTo: int)
    requires uid in db.orders && db.orders[uid].cancellation.Some?
    ensures
      var db' := ApplyAll(db, changes);
      && uid in db'.orders && db'.orders[uid].cancellation == db.orders[uid].cancellation
      && uid !in SolvableOrders(db', minValidTo)
    decreases |changes|
  {
    if changes != [] {
      CancelledStays(db, changes[0], uid);
      CancelledForGood(Apply(db, changes[0]), changes[1..], uid, minValidTo);
    }
  }

  // ----------------------------------------------------------------------- taking events back

  /** All events of settlements are before the block. */
  predicate EventsBefore(db: Database, from: int)
  {
    && (forall i | i in db.trades :: i.block < from)
    && (forall i | i in db.invalidations :: i.block < from)
    && (forall i | i in db.presignatures :: i.block < from)
    && (forall k | k in db.executions :: db.executions[k].block < from)
    && (forall i | i in db.settlements :: i.block < from)
  }

  /** A new row of the settlement indexer at or after the block. */
  predicate IsNewEvent(db: Database, c: Change, from: int)
  {
    match c
    case InsertTrade(at, _) => at.block >= from
    case InsertInvalidation(at, _) => at.block >= from
    case InsertPresignature(at, _) => at.block >= from
    case UpsertExecution(uid, auction, e) => e.block >= from && ExecutionKey(uid, auction) !in db.executions
    case InsertSettlement(at) => at.block >= from
    case _ => false
  }

  /** Both have the same rows before the block, and only the second may have later events. */
  ghost predicate AddsEvents(db: Database, db': Database, from: int)
  {
    && db' == db.(trades := db'.trades, invalidations := db'.invalidations, presignatures := db'.presignatures,
                  executions := db'.executions, settlements := db'.settlements)
    && AddsRows(db.trades, db'.trades, from) && AddsRows(db.invalidations, db'.invalidations, from)
    && AddsRows(db.presignatures, db'.presignatures, from)
    && (forall k | k in db.executions :: k in db'.executions && db'.executions[k] == db.executions[k])
    && (forall k | k in db'.executions && k !in db.executions :: db'.executions[k].block >= from)
    && (forall i | i in db.settlements :: i in db'.settlements)
    && (forall i | i in db'.settlements && i !in db.settlements :: i.block >= from)
  }

  ghost predicate AddsRows<V>(rows: map<Index, V>, rows': map<Index, V>, from: int)
  {
    && (forall i | i in rows :: i in rows' && rows'[i] == rows[i])
    && (forall i | i in rows' && i !in rows :: i.block >= from)
  }

  lemma {:induction false} NewEventsAdd(db: Database, now: Database, changes: seq<Change>, from: int)
    requires AddsEvents(db, now, from) && AreNewEvents(now, changes, from)
    ensures AddsEvents(db, ApplyAll(now, changes), from)
    decreases |changes|
  {
    if changes != [] {
      NewEventAdds(db, now, changes[0], from);
      NewEventsAdd(db, Apply(now, changes[0]), changes[1..], from);
    }
  }

  lemma NewEventAdds(db: Database, now: Database, c: Change, from: int)
    requires AddsEvents(db, now, from) && IsNewEvent(now, c, from)
    ensures AddsEvents(db, Apply(now, c), from)
  {
  }

  predicate AreNewEvents(db: Database, changes: seq<Change>, from: int)
    decreases |changes|
  {
    changes == [] || (IsNewEvent(db, changes[0], from) && AreNewEvents(Apply(db, changes[0]), changes[1..], from))
  }

  lemma RowsTakenBack<V>(rows: map<Index, V>, rows': map<Index, V>, from: int)
    requires AddsRows(rows, rows', from) && forall i | i in rows :: i.block < from
    ensures (map i | i in rows' && i.block < from :: rows'[i]) == rows
  {
  }

  lemma AddedTakenBack(db: Database, db': Database, from: int)
    requires EventsBefore(db, from) && AddsEvents(db, db', from)
    ensures Apply(db', RevertSettlementEvents(from)) == db
  {
    var back := Apply(db', RevertSettlementEvents(from));
    RowsTakenBack(db.trades, db'.trades, from);
    RowsTakenBack(db.invalidations, db'.invalidations, from);
    RowsTakenBack(db.presignatures, db'.presignatures, from);
    assert back.executions == db.executions;
    assert back.settlements == db.settlements;
  }

  /** A reorg undoes exactly the events of its blocks: what was stored before them is left, and nothing else. */
  lemma RevertUndoesEvents(db: Database, changes: seq<Change>, from: int)
    requires EventsBefore(db, from) && AreNewEvents(db, changes, from)
    ensures Apply(ApplyAll(db, changes), RevertSettlementEvents(from)) == db
  {
    NewEventsAdd(db, db, changes, from);
    AddedTakenBack(db, ApplyAll(db, changes), from);
  }

  /** A new on-chain invalidation is undone by a reorg of its block, and an older one is not. */
  lemma RevertUndoesInvalidationIff(db: Database, uid: OrderUid, at: Index, from: int)
    requires uid !in db.onchainInvalidations
    requires forall u | u in db.onchainInvalidations :: db.onchainInvalidations[u].block < from
    ensures Apply(Apply(db, UpsertOnchainInvalidation(uid, at)), RevertOnchainOrderEvents(from)) == db <==>
            at.block >= from
  {
    var back := Apply(Apply(db, UpsertOnchainInvalidation(uid, at)), RevertOnchainOrderEvents(from));
    if at.block >= from {
      assert back.onchainInvalidations == db.onchainInvalidations;
    } else {
      assert uid in back.onchainInvalidations;
    }
  }

  /** A new refund is undone exactly if its block is in the range, ends included. */
  lemma RevertUndoesRefundIff(db: Database, uid: OrderUid, refund: Refund, from: int, to: int)
    requires uid !in db.refunds
    requires forall u | u in db.refunds :: db.refunds[u].block < from || db.refunds[u].block > to
    ensures Apply(Apply(db, UpsertRefund(uid, refund)), RevertRefunds(from, to)) == db <==>
            refund.block >= from && refund.block <= to
  {
    var back := Apply(Apply(db, UpsertRefund(uid, refund)), RevertRefunds(from, to));
    if from <= refund.block <= to {
      assert back.refunds == db.refunds;
    } else {
      assert uid in back.refunds;
    }
  }

  // ------------------------------------------------------------- waiting for a signature

  /** Both queries return the order, if they return it at all, with the flag as given. */
  ghost predicate FlagIs(db: Database, uid: OrderUid, pending: bool)
  {
    && (forall minValidTo | uid in SolvableOrders(db, minValidTo) ::
          SolvableOrders(db, minValidTo)[uid].presignaturePending == pending)
    && (forall uids, time | uid in OpenOrdersByTimeOrUids(db, uids, time) ::
          OpenOrdersByTimeOrUids(db, uids, time)[uid].presignaturePending == pending)
  }

  predicate IsEventOf(db: Database, at: Index, uid: OrderUid)
  {
    at in db.presignatures && db.presignatures[at].uid == uid
  }

  /** No event of the order is in a later block, or later in the same block. */
  ghost predicate IsLastEvent(db: Database, at: Index, uid: OrderUid)
  {
    && IsEventOf(db, at, uid)
    && forall i | IsEventOf(db, i, uid) :: i.block < at.block || (i.block == at.block && i.log <= at.log)
  }

  lemma FlagIsPending(db: Database, uid: OrderUid)
    requires uid in db.orders
    ensures FlagIs(db, uid, PresignaturePending(db.orders[uid], HistoryOf(db, uid)))
  {
  }

  /** The last event of a pre-signed order decides: it is pending unless that event signed it. */
  lemma LastEventDecides(db: Database, at: Index, uid: OrderUid)
    requires uid in db.orders && db.orders[uid].scheme == PreSign && IsLastEvent(db, at, uid)
    ensures FlagIs(db, uid, !db.presignatures[at].signed)
  {
    var events := PresignaturesOf(db.presignatures, uid);
    var last := Latest(events.Keys);
    assert at in events && IsEventOf(db, last, uid);
    assert last == at;
    FlagIsPending(db, uid);
  }

  /** Without an event it is pending. */
  lemma NoEventIsPending(db: Database, uid: OrderUid)
    requires uid in db.orders && db.orders[uid].scheme == PreSign && forall i :: !IsEventOf(db, i, uid)
    ensures FlagIs(db, uid, true)
  {
    var events := PresignaturesOf(db.presignatures, uid);
    assert forall i | i in events :: IsEventOf(db, i, uid);
    assert events.Keys == {};
    FlagIsPending(db, uid);
  }

  /** Orders of another scheme never wait for a pre-signature. */
  lemma OtherSchemesNeverPend(db: Database, uid: OrderUid)
    requires uid in db.orders && db.orders[uid].scheme != PreSign
    ensures FlagIs(db, uid, false)
  {
    FlagIsPending(db, uid);
  }

  /** A new event after all others of its order sets the flag: signing clears it, withdrawing sets it again. */
  lemma NewEventDecides(db: Database, at: Index, uid: OrderUid, signed: bool)
    requires uid in db.orders && db.orders[uid].scheme == PreSign && at !in db.presignatures
    requires forall i | IsEventOf(db, i, uid) :: i.block < at.block || (i.block == at.block && i.log < at.log)
    ensures FlagIs(Apply(db, InsertPresignature(at, Presignature(uid, signed))), uid, !signed)
  {
    var db' := Apply(db, InsertPresignature(at, Presignature(uid, signed)));
    assert IsEventOf(db', at, uid);
    assert forall i | IsEventOf(db', i, uid) && i != at :: IsEventOf(db, i, uid);
    LastEventDecides(db', at, uid);
  }

  /** An event that arrives after a later one leaves the flag as it was. */
  lemma LateEventIsIgnored(db: Database, at: Index, p: Presignature, last: Index)
    requires p.uid in db.orders && db.orders[p.uid].scheme == PreSign && IsLastEvent(db, last, p.uid)
    requires at.block < last.block || (at.block == last.block && at.log <= last.log)
    ensures FlagIs(db, p.uid, !db.presignatures[last].signed)
    ensures FlagIs(Apply(db, InsertPresignature(at, p)), p.uid, !db.presignatures[last].signed)
  {
    var db' := Apply(db, InsertPresignature(at, p));
    LastEventDecides(db, last, p.uid);
    assert IsEventOf(db', last, p.uid);
    assert forall i | IsEventOf(db', i, p.uid) && i != at :: IsEventOf(db, i, p.uid);
    LastEventDecides(db', last, p.uid);
  }

  /** A reorg brings back the flag of the last event before it. */
  lemma RevertRestoresFlag(db: Database, from: int, last: Index, uid: OrderUid)
    requires uid in db.orders && db.orders[uid].scheme == PreSign && IsEventOf(db, last, uid) && last.block < from
    requires forall i | IsEventOf(db, i, uid) && i.block < from ::
               i.block < last.block || (i.block == last.block && i.log <= last.log)
    ensures FlagIs(Apply(db, RevertSettlementEvents(from)), uid, !db.presignatures[last].signed)
  {
    var db' := Apply(db, RevertSettlementEvents(from));
    assert IsEventOf(db', last, uid);
    assert forall i | IsEventOf(db', i, uid) :: IsEventOf(db, i, uid) && i.block < from;
    LastEventDecides(db', last, uid);
  }

  /** If there is none, the order waits again. */
  lemma RevertToNoEvent(db: Database, from: int, uid: OrderUid)
    requires uid in db.orders && db.orders[uid].scheme == PreSign
    requires forall i | IsEventOf(db, i, uid) :: i.block >= from
    ensures FlagIs(Apply(db, RevertSettlementEvents(from)), uid, true)
  {
    var db' := Apply(db, RevertSettlementEvents(from));
    assert forall i | IsEventOf(db', i, uid) :: IsEventOf(db, i, uid) && i.block < from;
    NoEventIsPending(db', uid);
  }

  /** So the full query returns an order that waits for its pre-signature. */
  lemma PendingIsReturned(db: Database, uid: OrderUid, minValidTo: int)
    requires uid in db.orders && Solvable(db.orders[uid], HistoryOf(db, uid), minValidTo)
    requires db.orders[uid].scheme == PreSign
    requires forall at | IsLastEvent(db, at, uid) :: !db.presignatures[at].signed
    ensures uid in SolvableOrders(db, minValidTo) && SolvableOrders(db, minValidTo)[uid].presignaturePending
  {
    var events := PresignaturesOf(db.presignatures, uid);
    if events.Keys != {} {
      var last := Latest(events.Keys);
      forall i | IsEventOf(db, i, uid)
        ensures i.block < last.block || (i.block == last.block && i.log <= last.log)
      {
        assert i in events;
      }
      assert IsLastEvent(db, last, uid);
    }
  }
}

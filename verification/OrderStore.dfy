/**
 The write statements of the order book in the form the code runs them, one table update after the
 other, each tied to the `Change` it stands for; and the indexing of a batch of ethflow
 placements, which runs several passes over the tables yet amounts to placing the orders one by one.
 */
module OrderStore {
  import opened Common
  import opened OrderQueries

  datatype EthflowEvent = EthflowEvent(uid: OrderUid, userValidTo: int, placement: Placement, row: OrderRow)

  function AsChanges(events: seq<EthflowEvent>): (changes: seq<Change>)
    ensures |changes| == |events|
  {
    if events == [] then []
    else
      var e := events[0];
      [PlaceEthflowOrder(e.uid, e.userValidTo, e.placement, e.row)] + AsChanges(events[1..])
  }

  class Store {
    var orders: map<OrderUid, OrderRow>
    var onchainInvalidations: map<OrderUid, Index>
    var placements: map<OrderUid, Placement>
    var refunds: map<OrderUid, Refund>
    var ethflowOrders: map<OrderUid, int>
    var trades: map<Index, Trade>
    var invalidations: map<Index, OrderUid>
    var presignatures: map<Index, Presignature>
    var executions: map<ExecutionKey, Execution>
    var settlements: set<Index>

    function Snapshot(): Database
      reads this
    {
      Database(orders, trades, invalidations, onchainInvalidations, placements, refunds,
               presignatures, executions, ethflowOrders, settlements)
    }

    method InsertOrderAndIgnoreConflicts(uid: OrderUid, row: OrderRow) returns (inserted: bool)
      modifies this`orders
      ensures Snapshot() == Apply(old(Snapshot()), InsertOrder(uid, row))
      ensures inserted == (uid !in old(orders))
    {
      inserted := uid !in orders;
      if inserted {
        // true_valid_to takes the value of valid_to
        orders := orders[uid := row.(trueValidTo := row.validTo)];
      }
    }

    method CancelOrder(uid: OrderUid, time: int)
      modifies this`orders
      ensures Snapshot() == Apply(old(Snapshot()), Change.CancelOrder(uid, time))
    {
      if uid in orders && orders[uid].cancellation.None? {
        orders := orders[uid := orders[uid].(cancellation := Some(time))];
      }
    }

    method InsertOnchainInvalidation(uid: OrderUid, at: Index)
      modifies this`onchainInvalidations
      ensures Snapshot() == Apply(old(Snapshot()), UpsertOnchainInvalidation(uid, at))
    {
      onchainInvalidations := onchainInvalidations[uid := at];
    }

    method InsertOnchainOrder(uid: OrderUid, placement: Placement)
      modifies this`placements
      ensures Snapshot() == Apply(old(Snapshot()), UpsertPlacement(uid, placement))
    {
      placements := placements[uid := placement];
    }

    method InsertRefundTxHash(uid: OrderUid, refund: Refund)
      modifies this`refunds
      ensures Snapshot() == Apply(old(Snapshot()), UpsertRefund(uid, refund))
    {
      refunds := refunds[uid := refund];
    }

    method InsertOrOverwriteEthflowOrder(uid: OrderUid, validTo: int)
      modifies this`ethflowOrders, this`orders
      ensures ethflowOrders == old(ethflowOrders)[uid := validTo]
      ensures orders == SetTrueValidTo(old(orders), uid, validTo)
    {
      ethflowOrders := ethflowOrders[uid := validTo];
      if uid in orders {
        orders := orders[uid := orders[uid].(trueValidTo := validTo)];
      }
    }

    /** The passes of the on-chain order indexer over one batch of placements. */
    method InsertEthflowEvents(events: seq<EthflowEvent>)
      modifies this`ethflowOrders, this`orders, this`placements
      ensures Snapshot() == AfterPasses(old(Snapshot()), events)
    {
      for i := 0 to |events|
        invariant ethflowOrders == EthflowPass(old(ethflowOrders), events[..i])
        invariant orders == ValidityPass(old(orders), events[..i])
        invariant placements == old(placements)
      {
        assert events[..i + 1][..i] == events[..i];
        InsertOrOverwriteEthflowOrder(events[i].uid, events[i].userValidTo);
      }
      assert events[..|events|] == events;
      ghost var updated := orders;
      for i := 0 to |events|
        invariant placements == PlacementPass(old(placements), events[..i])
        invariant orders == updated
        invariant ethflowOrders == EthflowPass(old(ethflowOrders), events)
      {
        assert events[..i + 1][..i] == events[..i];
        InsertOnchainOrder(events[i].uid, events[i].placement);
      }
      for i := 0 to |events|
        invariant orders == OrderPass(updated, events[..i])
        invariant placements == PlacementPass(old(placements), events)
        invariant ethflowOrders == EthflowPass(old(ethflowOrders), events)
      {
        assert events[..i + 1][..i] == events[..i];
        var _ := InsertOrderAndIgnoreConflicts(events[i].uid, events[i].row);
      }
      assert events[..|events|] == events;
    }
  }

  // ------------------------------------------------------------- what each pass does

  function EthflowPass(table: map<OrderUid, int>, es: seq<EthflowEvent>): map<OrderUid, int>
  {
    if es == [] then table
    else EthflowPass(table, es[..|es| - 1])[es[|es| - 1].uid := es[|es| - 1].userValidTo]
  }

  function ValidityPass(orders: map<OrderUid, OrderRow>, es: seq<EthflowEvent>): map<OrderUid, OrderRow>
  {
    if es == [] then orders
    else SetTrueValidTo(ValidityPass(orders, es[..|es| - 1]), es[|es| - 1].uid, es[|es| - 1].userValidTo)
  }

  function PlacementPass(table: map<OrderUid, Placement>, es: seq<EthflowEvent>): map<OrderUid, Placement>
  {
    if es == [] then table
    else PlacementPass(table, es[..|es| - 1])[es[|es| - 1].uid := es[|es| - 1].placement]
  }

  function OrderPass(orders: map<OrderUid, OrderRow>, es: seq<EthflowEvent>): map<OrderUid, OrderRow>
  {
    if es == [] then orders
    else InsertOrderRow(OrderPass(orders, es[..|es| - 1]), es[|es| - 1].uid, es[|es| - 1].row)
  }

  /** The tables after all passes. */
  function AfterPasses(db: Database, es: seq<EthflowEvent>): Database
  {
    db.(ethflowOrders := EthflowPass(db.ethflowOrders, es),
        placements := PlacementPass(db.placements, es),
        orders := OrderPass(ValidityPass(db.orders, es), es))
  }

  lemma {:induction false} AsChangesAppend(es: seq<EthflowEvent>, e: EthflowEvent)
    ensures AsChanges(es + [e]) ==
            AsChanges(es) + [PlaceEthflowOrder(e.uid, e.userValidTo, e.placement, e.row)]
  {
    if es != [] {
      assert (es + [e])[1..] == es[1..] + [e];
      AsChangesAppend(es[1..], e);
    }
  }

  lemma {:induction false} ApplyAllAppend(db: Database, changes: seq<Change>, c: Change)
    ensures ApplyAll(db, changes + [c]) == Apply(ApplyAll(db, changes), c)
    decreases |changes|
  {
    if changes != [] {
      assert (changes + [c])[1..] == changes[1..] + [c];
      ApplyAllAppend(Apply(db, changes[0]), changes[1..], c);
    } else {
      assert ([] + [c])[1..] == [];
    }
  }

  // ----------------------------------------------------- passes against one by one

  function FirstOf(es: seq<EthflowEvent>, uid: OrderUid): Option<EthflowEvent>
  {
    if es == [] then None
    else
      var before := FirstOf(es[..|es| - 1], uid);
      if before.Some? then before else if es[|es| - 1].uid == uid then Some(es[|es| - 1]) else None
  }

  function LastOf(es: seq<EthflowEvent>, uid: OrderUid): Option<EthflowEvent>
  {
    if es == [] then None
    else if es[|es| - 1].uid == uid then Some(es[|es| - 1])
    else LastOf(es[..|es| - 1], uid)
  }

  /** The batch places the order more than once. */
  predicate Repeated(es: seq<EthflowEvent>, uid: OrderUid)
  {
    es != [] &&
    (Repeated(es[..|es| - 1], uid) || (es[|es| - 1].uid == uid && FirstOf(es[..|es| - 1], uid).Some?))
  }

  /** The row of a new order as it is first stored, with the signed deadline. */
  function NewRow(e: EthflowEvent): OrderRow
  {
    e.row.(trueValidTo := e.row.validTo)
  }

  lemma {:induction false} PlacedAtAll(es: seq<EthflowEvent>, uid: OrderUid)
    ensures FirstOf(es, uid).Some? <==> LastOf(es, uid).Some?
    ensures Repeated(es, uid) ==> FirstOf(es, uid).Some?
  {
    if es != [] {
      PlacedAtAll(es[..|es| - 1], uid);
    }
  }

  /** A stored order gets the last deadline of the batch. */
  lemma {:induction false} ValidityPassAt(orders: map<OrderUid, OrderRow>, es: seq<EthflowEvent>, uid: OrderUid)
    ensures Lookup(ValidityPass(orders, es), uid) ==
            if uid in orders && LastOf(es, uid).Some?
            then Some(orders[uid].(trueValidTo := LastOf(es, uid).value.userValidTo))
            else Lookup(orders, uid)
  {
    if es != [] {
      ValidityPassAt(orders, es[..|es| - 1], uid);
    }
  }

  /** A new order is stored as the batch places it first. */
  lemma {:induction false} OrderPassAt(orders: map<OrderUid, OrderRow>, es: seq<EthflowEvent>, uid: OrderUid)
    ensures Lookup(OrderPass(orders, es), uid) ==
            if uid in orders || FirstOf(es, uid).None? then Lookup(orders, uid)
            else Some(NewRow(FirstOf(es, uid).value))
  {
    if es != [] {
      OrderPassAt(orders, es[..|es| - 1], uid);
    }
  }

  /** The row of an order when the batch is placed one order after the other. */
  function OneByOneRow(orders: map<OrderUid, OrderRow>, es: seq<EthflowEvent>, uid: OrderUid): Option<OrderRow>
  {
    var first, last := FirstOf(es, uid), LastOf(es, uid);
    if first.None? || last.None? then Lookup(orders, uid)
    else if uid in orders then Some(orders[uid].(trueValidTo := last.value.userValidTo))
    else if Repeated(es, uid) then Some(first.value.row.(trueValidTo := last.value.userValidTo))
    else Some(NewRow(first.value))
  }

  /** What placing one more order does to a row. */
  function PlacedRow(before: Option<OrderRow>, e: EthflowEvent, uid: OrderUid): Option<OrderRow>
  {
    if e.uid != uid then before
    else if before.Some? then Some(before.value.(trueValidTo := e.userValidTo))
    else Some(NewRow(e))
  }

  lemma PlacementAt(db: Database, e: EthflowEvent, uid: OrderUid)
    ensures Lookup(Apply(db, PlaceEthflowOrder(e.uid, e.userValidTo, e.placement, e.row)).orders, uid) ==
            PlacedRow(Lookup(db.orders, uid), e, uid)
  {
  }

  lemma OneByOneExtended(orders: map<OrderUid, OrderRow>, es: seq<EthflowEvent>, uid: OrderUid)
    requires es != []
    ensures OneByOneRow(orders, es, uid) == PlacedRow(OneByOneRow(orders, es[..|es| - 1], uid), es[|es| - 1], uid)
  {
    PlacedAtAll(es[..|es| - 1], uid);
  }

  lemma {:induction false} OneByOneAt(db: Database, es: seq<EthflowEvent>, uid: OrderUid)
    ensures Lookup(ApplyAll(db, AsChanges(es)).orders, uid) == OneByOneRow(db.orders, es, uid)
  {
    if es != [] {
      var init, e := es[..|es| - 1], es[|es| - 1];
      assert es == init + [e];
      OneByOneAt(db, init, uid);
      AsChangesAppend(init, e);
      ApplyAllAppend(db, AsChanges(init), PlaceEthflowOrder(e.uid, e.userValidTo, e.placement, e.row));
      PlacementAt(ApplyAll(db, AsChanges(init)), e, uid);
      OneByOneExtended(db.orders, es, uid);
    }
  }

  /** Only the order table depends on whether the batch is stored in passes. */
  lemma {:induction false} OtherTablesAgree(db: Database, es: seq<EthflowEvent>)
    ensures ApplyAll(db, AsChanges(es)) == AfterPasses(db, es).(orders := ApplyAll(db, AsChanges(es)).orders)
  {
    if es != [] {
      var init, e := es[..|es| - 1], es[|es| - 1];
      assert es == init + [e];
      OtherTablesAgree(db, init);
      AsChangesAppend(init, e);
      ApplyAllAppend(db, AsChanges(init), PlaceEthflowOrder(e.uid, e.userValidTo, e.placement, e.row));
    }
  }

  /** Placing the order again does not move its deadline away from the signed one. */
  ghost predicate RepetitionHarmless(db: Database, es: seq<EthflowEvent>, uid: OrderUid)
  {
    uid !in db.orders && Repeated(es, uid) && FirstOf(es, uid).Some? && LastOf(es, uid).Some? ==>
      LastOf(es, uid).value.userValidTo == FirstOf(es, uid).value.row.validTo
  }

  lemma PassesAgreeOnIff(db: Database, es: seq<EthflowEvent>, uid: OrderUid)
    ensures Lookup(AfterPasses(db, es).orders, uid) == Lookup(ApplyAll(db, AsChanges(es)).orders, uid) <==>
            RepetitionHarmless(db, es, uid)
  {
    PlacedAtAll(es, uid);
    ValidityPassAt(db.orders, es, uid);
    OrderPassAt(ValidityPass(db.orders, es), es, uid);
    OneByOneAt(db, es, uid);
  }

  /**
   Storing a batch table by table does what placing its orders one after the other would do, if and
   only if no new order is placed again with a deadline other than the signed one.
   */
  lemma PassesPlaceEachOrderIff(db: Database, es: seq<EthflowEvent>)
    ensures AfterPasses(db, es) == ApplyAll(db, AsChanges(es)) <==> forall uid :: RepetitionHarmless(db, es, uid)
  {
    OtherTablesAgree(db, es);
    var passes, oneByOne := AfterPasses(db, es).orders, ApplyAll(db, AsChanges(es)).orders;
    forall uid
      ensures Lookup(passes, uid) == Lookup(oneByOne, uid) <==> RepetitionHarmless(db, es, uid)
    {
      PassesAgreeOnIff(db, es, uid);
    }
    if forall uid :: RepetitionHarmless(db, es, uid) {
      assert forall uid :: Lookup(passes, uid) == Lookup(oneByOne, uid);
      assert passes == oneByOne by {
        assert forall uid | uid in passes :: Lookup(oneByOne, uid) == Some(passes[uid]);
        assert forall uid | uid in oneByOne :: Lookup(passes, uid) == Some(oneByOne[uid]);
      }
    }
  }

  /** A new order that one batch places twice keeps the signed deadline, unlike one by one. */
  lemma PlacedTwiceDiffers(e: EthflowEvent)
    requires e.userValidTo != e.row.validTo
    ensures AfterPasses(EmptyDatabase, [e, e]) != ApplyAll(EmptyDatabase, AsChanges([e, e]))
  {
    PlacedTwice([e, e], e);
    assert !RepetitionHarmless(EmptyDatabase, [e, e], e.uid);
    PassesPlaceEachOrderIff(EmptyDatabase, [e, e]);
  }

  lemma PlacedTwice(es: seq<EthflowEvent>, e: EthflowEvent)
    requires es == [e, e]
    ensures FirstOf(es, e.uid) == Some(e) && LastOf(es, e.uid) == Some(e) && Repeated(es, e.uid)
  {
    var init := es[..|es| - 1];
    assert init == [e] && init[..|init| - 1] == [];
    assert FirstOf(init[..|init| - 1], e.uid) == None;
    assert FirstOf(init, e.uid) == Some(e);
    assert es[|es| - 1] == e;
  }
}

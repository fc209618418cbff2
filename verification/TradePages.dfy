/**
 Pages of trades. The query is a UNION of three searches, each of which is already cut to the rows
 that could be needed; the page is then cut from the union.
 */
module TradePages {
  import opened Common
  import opened Sequences
  import opened Attribution

  datatype OrderData = OrderData(owner: Address, buyToken: Address, sellToken: Address)

  datatype JitOrder = JitOrder(uid: OrderUid, data: OrderData)

  datatype Database = Database(
    events: Events,
    orders: map<OrderUid, OrderData>,
    placements: map<OrderUid, Address>,
    jitOrders: map<Index, JitOrder>)

  datatype Row = Row(
    index: Index,
    trade: Trade,
    sellAmountBeforeFees: int,
    data: OrderData,
    settlement: Option<Settlement>)

  /** A row of a search; `source` tells apart rows that come from different order rows. */
  datatype Hit = Hit(row: Row, source: Index)

  /** `ORDER BY block_number DESC, log_index DESC`. */
  predicate Precedes(a: Index, b: Index)
  {
    a.block > b.block || (a.block == b.block && a.log > b.log)
  }

  ghost function RowOf(db: Database, t: Index, data: OrderData): Row
    requires t in db.events.trades
  {
    var trade := db.events.trades[t];
    var next := NextSettlement(db.events.settlements, t);
    Row(t, trade, trade.sellAmount - trade.feeAmount, data,
        if next.Some? && next.value in db.events.settlements then Some(db.events.settlements[next.value]) else None)
  }

  predicate UidMatches(filter: Option<OrderUid>, uid: OrderUid)
  {
    filter.None? || filter.value == uid
  }

  predicate OwnerMatches(filter: Option<Address>, owner: Address)
  {
    filter.None? || filter.value == owner
  }

  /** Trades of orders in the order book that belong to the owner. */
  ghost function OwnedHits(db: Database, owner: Option<Address>, uid: Option<OrderUid>): set<Hit>
  {
    set t | t in db.events.trades
         && db.events.trades[t].uid in db.orders
         && OwnerMatches(owner, db.orders[db.events.trades[t].uid].owner)
         && UidMatches(uid, db.events.trades[t].uid)
      :: Hit(RowOf(db, t, db.orders[db.events.trades[t].uid]), t)
  }

  /** Trades of orders that the owner placed on chain; without an owner the comparison is never true. */
  ghost function PlacedHits(db: Database, owner: Option<Address>, uid: Option<OrderUid>): set<Hit>
  {
    set t | t in db.events.trades
         && db.events.trades[t].uid in db.orders
         && db.events.trades[t].uid in db.placements
         && owner == Some(db.placements[db.events.trades[t].uid])
         && UidMatches(uid, db.events.trades[t].uid)
      :: Hit(RowOf(db, t, db.orders[db.events.trades[t].uid]), t)
  }

  /** Trades of JIT orders: one row for every row of the JIT order. */
  ghost function JitHits(db: Database, owner: Option<Address>, uid: Option<OrderUid>): set<Hit>
  {
    set t, j | t in db.events.trades && j in db.jitOrders
            && db.jitOrders[j].uid == db.events.trades[t].uid
            && OwnerMatches(owner, db.jitOrders[j].data.owner)
            && UidMatches(uid, db.events.trades[t].uid)
      :: Hit(RowOf(db, t, db.jitOrders[j].data), j)
  }

  function Rows(hits: set<Hit>): set<Row>
  {
    set h | h in hits :: h.row
  }

  // ------------------------------------------------------------ order, limit and offset

  function HitsAbove(hits: set<Hit>, i: Index): set<Hit>
  {
    set h | h in hits && Precedes(h.row.index, i)
  }

  function RowsAbove(rows: set<Row>, i: Index): set<Row>
  {
    set r | r in rows && Precedes(r.index, i)
  }

  /** A result of `ORDER BY ... LIMIT n`; among rows with equal positions the database may pick any. */
  ghost predicate IsTop(hits: set<Hit>, n: nat, top: set<Hit>)
  {
    && top <= hits
    && |top| == (if n < |hits| then n else |hits|)
    && forall h, k | h in top && k in hits && k !in top :: !Precedes(k.row.index, h.row.index)
  }

  /** Rows of a union have different positions. */
  ghost predicate PositionsDiffer(rows: set<Row>)
  {
    forall r, q | r in rows && q in rows && r.index == q.index :: r == q
  }

  ghost predicate IsFirst(rows: set<Row>, r: Row)
  {
    r in rows && forall q | q in rows && q != r :: Precedes(r.index, q.index)
  }

  lemma FirstExists(rows: set<Row>) returns (first: Row)
    requires rows != {} && PositionsDiffer(rows)
    ensures IsFirst(rows, first)
  {
    first :| first in rows;
    if rows != {first} {
      var other := FirstExists(rows - {first});
      if Precedes(other.index, first.index) { first := other; }
    }
  }

  /** All rows in order. */
  ghost function Ranked(rows: set<Row>): seq<Row>
    requires PositionsDiffer(rows)
    decreases |rows|
  {
    if rows == {} then []
    else
      assert exists r :: IsFirst(rows, r) by { var first := FirstExists(rows); }
      var first :| IsFirst(rows, first);
      [first] + Ranked(rows - {first})
  }

  function Slice(rows: seq<Row>, limit: nat, offset: nat): seq<Row>
  {
    if |rows| <= offset then []
    else if |rows| <= offset + limit then rows[offset..]
    else rows[offset..offset + limit]
  }

  // --------------------------------------------------------------- what the query returns

  /** The tops of the three searches, as the database may choose them. */
  datatype Tops = Tops(owned: set<Hit>, placed: set<Hit>, jit: set<Hit>)

  ghost predicate AreTops(db: Database, owner: Option<Address>, uid: Option<OrderUid>, n: nat, tops: Tops)
  {
    && IsTop(OwnedHits(db, owner, uid), n, tops.owned)
    && IsTop(PlacedHits(db, owner, uid), n, tops.placed)
    && IsTop(JitHits(db, owner, uid), n, tops.jit)
  }

  function CutUnion(tops: Tops): set<Row>
  {
    Rows(tops.owned) + Rows(tops.placed) + Rows(tops.jit)
  }

  ghost function Union(db: Database, owner: Option<Address>, uid: Option<OrderUid>): set<Row>
  {
    Rows(OwnedHits(db, owner, uid)) + Rows(PlacedHits(db, owner, uid)) + Rows(JitHits(db, owner, uid))
  }

  /** A uid fixes the data of its order, wherever it is stored. */
  ghost predicate UidFixesData(db: Database)
  {
    && (forall i, j | i in db.jitOrders && j in db.jitOrders && db.jitOrders[i].uid == db.jitOrders[j].uid ::
          db.jitOrders[i].data == db.jitOrders[j].data)
    && (forall j | j in db.jitOrders && db.jitOrders[j].uid in db.orders ::
          db.jitOrders[j].data == db.orders[db.jitOrders[j].uid])
  }

  /** The order data of a row is stored for its trade's uid. */
  ghost predicate IsStored(db: Database, r: Row)
  {
    && r.index in db.events.trades && r == RowOf(db, r.index, r.data)
    && var uid := db.events.trades[r.index].uid;
       || (uid in db.orders && r.data == db.orders[uid])
       || (exists j :: j in db.jitOrders && db.jitOrders[j].uid == uid && db.jitOrders[j].data == r.data)
  }

  // ------------------------------------------------------------------ what the query is about

  /** What a row says about a trade: the stored trade, its sell amount without the fee, and the next settlement. */
  ghost predicate Describes(db: Database, r: Row, t: Index, data: OrderData)
  {
    && t in db.events.trades && r.index == t && r.trade == db.events.trades[t] && r.data == data
    && r.sellAmountBeforeFees + r.trade.feeAmount == r.trade.sellAmount
    && (match r.settlement
        case Some(s) => exists i :: IsNext(db.events.settlements, t, i) && db.events.settlements[i] == s
        case None => forall i | i in db.events.settlements :: i.block == t.block ==> i.log <= t.log)
  }

  lemma RowDescribes(db: Database, r: Row, t: Index, data: OrderData)
    requires t in db.events.trades
    ensures r == RowOf(db, t, data) <==> Describes(db, r, t, data)
  {
    NextSettlementFinds(db.events.settlements, t);
    if Describes(db, r, t, data) && r.settlement.Some? {
      var i :| IsNext(db.events.settlements, t, i) && db.events.settlements[i] == r.settlement.value;
      assert NextSettlement(db.events.settlements, t) == Some(i);
    }
  }

  /** The row is about a trade of an order in the book. */
  ghost predicate IsBookTrade(db: Database, r: Row)
  {
    exists t :: t in db.events.trades && db.events.trades[t].uid in db.orders
                && Describes(db, r, t, db.orders[db.events.trades[t].uid])
  }

  /** The row is about a trade of a JIT order. */
  ghost predicate IsJitTrade(db: Database, r: Row)
  {
    exists t, j :: t in db.events.trades && j in db.jitOrders && db.jitOrders[j].uid == db.events.trades[t].uid
                   && Describes(db, r, t, db.jitOrders[j].data)
  }

  predicate PlacedBy(db: Database, uid: OrderUid, owner: Address)
  {
    uid in db.placements && db.placements[uid] == owner
  }

  lemma OwnedHitsIff(db: Database, owner: Option<Address>, uid: Option<OrderUid>, r: Row)
    ensures r in Rows(OwnedHits(db, owner, uid)) <==>
            && IsBookTrade(db, r) && (owner.None? || r.data.owner == owner.value)
            && (uid.None? || r.trade.uid == uid.value)
  {
    if r.index in db.events.trades && r.trade == db.events.trades[r.index] && r.trade.uid in db.orders {
      RowDescribes(db, r, r.index, db.orders[r.trade.uid]);
      if IsBookTrade(db, r) && (owner.None? || r.data.owner == owner.value) && (uid.None? || r.trade.uid == uid.value) {
        assert Hit(r, r.index) in OwnedHits(db, owner, uid);
      }
    }
  }

  lemma PlacedHitsIff(db: Database, owner: Option<Address>, uid: Option<OrderUid>, r: Row)
    ensures r in Rows(PlacedHits(db, owner, uid)) <==>
            && IsBookTrade(db, r) && owner.Some? && PlacedBy(db, r.trade.uid, owner.value)
            && (uid.None? || r.trade.uid == uid.value)
  {
    if r.index in db.events.trades && r.trade == db.events.trades[r.index] && r.trade.uid in db.orders {
      RowDescribes(db, r, r.index, db.orders[r.trade.uid]);
      if IsBookTrade(db, r) && owner.Some? && PlacedBy(db, r.trade.uid, owner.value)
         && (uid.None? || r.trade.uid == uid.value)
      {
        assert Hit(r, r.index) in PlacedHits(db, owner, uid);
      }
    }
  }

  lemma JitHitsIff(db: Database, owner: Option<Address>, uid: Option<OrderUid>, r: Row)
    ensures r in Rows(JitHits(db, owner, uid)) <==>
            && IsJitTrade(db, r) && (owner.None? || r.data.owner == owner.value)
            && (uid.None? || r.trade.uid == uid.value)
  {
    if r in Rows(JitHits(db, owner, uid)) {
      var h :| h in JitHits(db, owner, uid) && h.row == r;
      RowDescribes(db, r, r.index, db.jitOrders[h.source].data);
    }
    if IsJitTrade(db, r) && (owner.None? || r.data.owner == owner.value) && (uid.None? || r.trade.uid == uid.value) {
      var t, j :| t in db.events.trades && j in db.jitOrders && db.jitOrders[j].uid == db.events.trades[t].uid
                  && Describes(db, r, t, db.jitOrders[j].data);
      RowDescribes(db, r, t, db.jitOrders[j].data);
      assert Hit(r, j) in JitHits(db, owner, uid);
    }
  }

  /**
   The rows the pages are cut from: those of all trades of book orders and JIT orders that the owner
   owns, and of book orders that the owner placed on chain, for the order asked for if there is one.
   */
  lemma UnionIff(db: Database, owner: Option<Address>, uid: Option<OrderUid>, r: Row)
    ensures r in Union(db, owner, uid) <==>
            && (uid.None? || r.trade.uid == uid.value)
            && match owner
               case None => IsBookTrade(db, r) || IsJitTrade(db, r)
               case Some(a) =>
                 || ((IsBookTrade(db, r) || IsJitTrade(db, r)) && r.data.owner == a)
                 || (IsBookTrade(db, r) && PlacedBy(db, r.trade.uid, a))
  {
    OwnedHitsIff(db, owner, uid, r);
    PlacedHitsIff(db, owner, uid, r);
    JitHitsIff(db, owner, uid, r);
  }

  /** Asking for an order selects its rows. */
  lemma UidFilterSelects(db: Database, owner: Option<Address>, uid: OrderUid)
    ensures Union(db, owner, Some(uid)) == set r | r in Union(db, owner, None) && r.trade.uid == uid
  {
    forall r
      ensures r in Union(db, owner, Some(uid)) <==> r in Union(db, owner, None) && r.trade.uid == uid
    {
      UnionIff(db, owner, Some(uid), r);
      UnionIff(db, owner, None, r);
    }
  }

  /** No trade that is asked for is of an order of somebody else that the owner placed on chain. */
  ghost predicate PlacesOnlyOwn(db: Database, owner: Address, uid: Option<OrderUid>)
  {
    forall t | t in db.events.trades && db.events.trades[t].uid in db.orders ::
      var id := db.events.trades[t].uid;
      (uid.None? || id == uid.value) && PlacedBy(db, id, owner) ==> db.orders[id].owner == owner
  }

  /** Asking for an owner selects the rows with that owner if and only if this owner placed only own orders. */
  lemma OwnerFilterSelectsIff(db: Database, owner: Address, uid: Option<OrderUid>)
    ensures Union(db, Some(owner), uid) == (set r | r in Union(db, None, uid) && r.data.owner == owner) <==>
            PlacesOnlyOwn(db, owner, uid)
  {
    var selected := set r | r in Union(db, None, uid) && r.data.owner == owner;
    forall r
      ensures r in selected ==> r in Union(db, Some(owner), uid)
      ensures PlacesOnlyOwn(db, owner, uid) && r in Union(db, Some(owner), uid) ==> r in selected
    {
      UnionIff(db, Some(owner), uid, r);
      UnionIff(db, None, uid, r);
    }
    if !PlacesOnlyOwn(db, owner, uid) {
      var t :| && t in db.events.trades && db.events.trades[t].uid in db.orders
               && var id := db.events.trades[t].uid;
                  (uid.None? || id == uid.value) && PlacedBy(db, id, owner) && db.orders[id].owner != owner;
      var r := RowOf(db, t, db.orders[db.events.trades[t].uid]);
      RowDescribes(db, r, t, r.data);
      UnionIff(db, Some(owner), uid, r);
    }
  }

  lemma UnionIsStored(db: Database, owner: Option<Address>, uid: Option<OrderUid>, r: Row)
    requires r in Union(db, owner, uid)
    ensures IsStored(db, r)
  {
  }

  lemma StoredIsFixed(db: Database, r: Row, q: Row)
    requires UidFixesData(db) && IsStored(db, r) && IsStored(db, q) && r.index == q.index
    ensures r == q
  {
  }

  lemma UnionPositionsDiffer(db: Database, owner: Option<Address>, uid: Option<OrderUid>)
    requires UidFixesData(db)
    ensures PositionsDiffer(Union(db, owner, uid))
  {
    var all := Union(db, owner, uid);
    forall r, q | r in all && q in all && r.index == q.index
      ensures r == q
    {
      UnionIsStored(db, owner, uid, r);
      UnionIsStored(db, owner, uid, q);
      StoredIsFixed(db, r, q);
    }
  }

  lemma RowsMonotone(a: set<Hit>, b: set<Hit>)
    requires a <= b
    ensures Rows(a) <= Rows(b)
  {
  }

  lemma TopsAreFromUnion(db: Database, owner: Option<Address>, uid: Option<OrderUid>, n: nat, tops: Tops)
    requires UidFixesData(db) && AreTops(db, owner, uid, n, tops)
    ensures CutUnion(tops) <= Union(db, owner, uid)
    ensures PositionsDiffer(CutUnion(tops)) && PositionsDiffer(Union(db, owner, uid))
  {
    UnionPositionsDiffer(db, owner, uid);
    RowsMonotone(tops.owned, OwnedHits(db, owner, uid));
    RowsMonotone(tops.placed, PlacedHits(db, owner, uid));
    RowsMonotone(tops.jit, JitHits(db, owner, uid));
    SmallerPositionsDiffer(CutUnion(tops), Union(db, owner, uid));
  }

  lemma SmallerPositionsDiffer(a: set<Row>, b: set<Row>)
    requires a <= b && PositionsDiffer(b)
    ensures PositionsDiffer(a)
  {
  }

  /** The page as the query computes it, and the page of the whole union. */
  ghost predicate PageIsSound(db: Database, owner: Option<Address>, uid: Option<OrderUid>,
                              limit: nat, offset: nat, tops: Tops)
    requires UidFixesData(db) && AreTops(db, owner, uid, limit + offset, tops)
  {
    TopsAreFromUnion(db, owner, uid, limit + offset, tops);
    Slice(Ranked(CutUnion(tops)), limit, offset) == Slice(Ranked(Union(db, owner, uid)), limit, offset)
  }

  // ------------------------------------------------------------ what a limited search keeps

  /** However ties are resolved, a row is kept exactly if fewer than `n` hits come before it. */
  lemma TopKeepsIff(hits: set<Hit>, n: nat, top: set<Hit>, r: Row)
    requires IsTop(hits, n, top) && r in Rows(hits)
    requires forall h, k | h in hits && k in hits && h.row.index == k.row.index :: h.row == k.row
    ensures r in Rows(top) <==> |HitsAbove(hits, r.index)| < n
  {
    var above := HitsAbove(hits, r.index);
    var hit :| hit in hits && hit.row == r;
    if r in Rows(top) {
      var kept :| kept in top && kept.row == r;
      assert above <= top - {kept};
      SubsetSize(above, top - {kept});
    } else {
      assert hit !in top;
      forall h | h in top
        ensures h in above
      {
        assert !Precedes(r.index, h.row.index);
        assert h.row.index != r.index;
      }
      SubsetSize(top, above);
      SubsetSize(top, hits - {hit});
    }
  }

  // -------------------------------------------------------- the first rows of two rankings

  lemma RankedMembers(rows: set<Row>)
    requires PositionsDiffer(rows)
    ensures |Ranked(rows)| == |rows| && forall r :: r in Ranked(rows) <==> r in rows
    decreases |rows|
  {
    if rows != {} {
      RankedMembers(rows - {Ranked(rows)[0]});
    }
  }

  lemma RankedHead(rows: set<Row>, first: Row)
    requires PositionsDiffer(rows) && IsFirst(rows, first)
    ensures Ranked(rows) == [first] + Ranked(rows - {first})
    ensures RowsAbove(rows, first.index) == {}
  {
    assert Ranked(rows)[0] == first;
  }

  lemma OneMoreAbove(rows: set<Row>, first: Row, r: Row)
    requires IsFirst(rows, first) && r in rows && r != first
    ensures |RowsAbove(rows, r.index)| == |RowsAbove(rows - {first}, r.index)| + 1
  {
    assert RowsAbove(rows, r.index) == RowsAbove(rows - {first}, r.index) + {first};
  }

  lemma SliceCons(r: Row, rows: seq<Row>, n: nat)
    requires n > 0
    ensures Slice([r] + rows, n, 0) == [r] + Slice(rows, n - 1, 0)
  {
  }

  lemma FirstRowsSplit(rows: set<Row>, first: Row, n: nat)
    requires PositionsDiffer(rows) && IsFirst(rows, first) && n > 0
    ensures PositionsDiffer(rows - {first})
    ensures Slice(Ranked(rows), n, 0) == [first] + Slice(Ranked(rows - {first}), n - 1, 0)
  {
    RankedHead(rows, first);
    SliceCons(first, Ranked(rows - {first}), n);
  }

  /** The cut has every row that is among the first `n`. */
  ghost predicate KeepsFirst(all: set<Row>, cut: set<Row>, n: nat)
  {
    forall r | r in all && |RowsAbove(all, r.index)| < n :: r in cut
  }

  lemma KeepsFirstStep(all: set<Row>, cut: set<Row>, first: Row, n: nat)
    requires IsFirst(all, first) && n > 0 && KeepsFirst(all, cut, n)
    ensures first in cut && KeepsFirst(all - {first}, cut - {first}, n - 1)
  {
    assert RowsAbove(all, first.index) == {};
    forall r | r in all - {first} && |RowsAbove(all - {first}, r.index)| < n - 1
      ensures r in cut - {first}
    {
      OneMoreAbove(all, first, r);
    }
  }

  /** Cutting rows that are not among the first `n` does not change the first `n`. */
  lemma {:induction false} SameFirstRows(all: set<Row>, cut: set<Row>, n: nat)
    requires PositionsDiffer(all) && PositionsDiffer(cut) && cut <= all && KeepsFirst(all, cut, n)
    ensures Slice(Ranked(cut), n, 0) == Slice(Ranked(all), n, 0)
    decreases |all|
  {
    if all == {} {
      assert cut == {};
    } else if n > 0 {
      var first := FirstExists(all);
      KeepsFirstStep(all, cut, first, n);
      assert IsFirst(cut, first);
      FirstRowsSplit(all, first, n);
      FirstRowsSplit(cut, first, n);
      SameFirstRows(all - {first}, cut - {first}, n - 1);
    }
  }

  /** The first rows of a ranking are the ones with few rows before them. */
  lemma {:induction false} FirstRowsIff(rows: set<Row>, n: nat, r: Row)
    requires PositionsDiffer(rows) && r in rows
    ensures r in Slice(Ranked(rows), n, 0) <==> |RowsAbove(rows, r.index)| < n
    decreases |rows|
  {
    var first := FirstExists(rows);
    RankedHead(rows, first);
    if n > 0 {
      SliceCons(first, Ranked(rows - {first}), n);
      if r != first {
        OneMoreAbove(rows, first, r);
        FirstRowsIff(rows - {first}, n - 1, r);
      }
    }
  }

  /** A page is cut from the first `limit + offset` rows. */
  lemma PageFromFirstRows(a: seq<Row>, b: seq<Row>, limit: nat, offset: nat)
    requires Slice(a, limit + offset, 0) == Slice(b, limit + offset, 0)
    ensures Slice(a, limit, offset) == Slice(b, limit, offset)
  {
    assert Slice(a, limit, offset) == Slice(Slice(a, limit + offset, 0), limit, offset);
    assert Slice(b, limit, offset) == Slice(Slice(b, limit + offset, 0), limit, offset);
  }

  lemma SamePage(all: set<Row>, cut: set<Row>, limit: nat, offset: nat)
    requires PositionsDiffer(all) && PositionsDiffer(cut) && cut <= all && KeepsFirst(all, cut, limit + offset)
    ensures Slice(Ranked(cut), limit, offset) == Slice(Ranked(all), limit, offset)
  {
    SameFirstRows(all, cut, limit + offset);
    PageFromFirstRows(Ranked(cut), Ranked(all), limit, offset);
  }

  lemma DifferentPage(all: set<Row>, cut: set<Row>, r: Row, n: nat)
    requires PositionsDiffer(all) && PositionsDiffer(cut)
    requires r in all && r !in cut && |RowsAbove(all, r.index)| < n
    ensures Slice(Ranked(cut), n, 0) != Slice(Ranked(all), n, 0)
  {
    FirstRowsIff(all, n, r);
    RankedMembers(cut);
  }

  // --------------------------------------------------------------- soundness of push-down

  /** The rows that only the JIT search finds. */
  ghost function OnlyJit(db: Database, owner: Option<Address>, uid: Option<OrderUid>): set<Row>
  {
    Rows(JitHits(db, owner, uid)) - Rows(OwnedHits(db, owner, uid)) - Rows(PlacedHits(db, owner, uid))
  }

  /** No such row has more hits of JIT orders before it than there are rows before it. */
  ghost predicate FewJitRepeats(db: Database, owner: Option<Address>, uid: Option<OrderUid>)
  {
    forall r | r in OnlyJit(db, owner, uid) ::
      |HitsAbove(JitHits(db, owner, uid), r.index)| <= |RowsAbove(Union(db, owner, uid), r.index)|
  }

  /** Hits of a search with one hit for every row are no more than the rows of the union. */
  lemma NoMoreHitsThanRows(hits: set<Hit>, rows: set<Row>, i: Index)
    requires Rows(hits) <= rows
    requires forall h, k | h in hits && k in hits && h.row == k.row :: h == k
    ensures |HitsAbove(hits, i)| <= |RowsAbove(rows, i)|
  {
    var above := HitsAbove(hits, i);
    SameSize(above);
    assert Rows(above) <= RowsAbove(rows, i);
    SubsetSize(Rows(above), RowsAbove(rows, i));
  }

  lemma {:induction false} SameSize(hits: set<Hit>)
    requires forall h, k | h in hits && k in hits && h.row == k.row :: h == k
    ensures |Rows(hits)| == |hits|
    decreases |hits|
  {
    if hits != {} {
      var h :| h in hits;
      SameSize(hits - {h});
      assert Rows(hits) == Rows(hits - {h}) + {h.row};
    }
  }

  /** The cut union has all of the first rows, however the database resolves ties. */
  lemma CutKeepsFirstRows(db: Database, owner: Option<Address>, uid: Option<OrderUid>, n: nat, tops: Tops, r: Row)
    requires UidFixesData(db) && AreTops(db, owner, uid, n, tops) && FewJitRepeats(db, owner, uid)
    requires r in Union(db, owner, uid) && |RowsAbove(Union(db, owner, uid), r.index)| < n
    ensures r in CutUnion(tops)
  {
    var all := Union(db, owner, uid);
    if r in Rows(OwnedHits(db, owner, uid)) {
      NoMoreHitsThanRows(OwnedHits(db, owner, uid), all, r.index);
      TopKeepsIff(OwnedHits(db, owner, uid), n, tops.owned, r);
    } else if r in Rows(PlacedHits(db, owner, uid)) {
      NoMoreHitsThanRows(PlacedHits(db, owner, uid), all, r.index);
      TopKeepsIff(PlacedHits(db, owner, uid), n, tops.placed, r);
    } else {
      assert r in OnlyJit(db, owner, uid);
      TopKeepsIff(JitHits(db, owner, uid), n, tops.jit, r);
    }
  }

  lemma PushDownSound(db: Database, owner: Option<Address>, uid: Option<OrderUid>, limit: nat, offset: nat, tops: Tops)
    requires UidFixesData(db) && AreTops(db, owner, uid, limit + offset, tops) && FewJitRepeats(db, owner, uid)
    ensures PageIsSound(db, owner, uid, limit, offset, tops)
  {
    var all, n := Union(db, owner, uid), limit + offset;
    TopsAreFromUnion(db, owner, uid, n, tops);
    assert KeepsFirst(all, CutUnion(tops), n) by {
      forall r | r in all && |RowsAbove(all, r.index)| < n
        ensures r in CutUnion(tops)
      {
        CutKeepsFirstRows(db, owner, uid, n, tops, r);
      }
    }
    SamePage(all, CutUnion(tops), limit, offset);
  }

  lemma RepeatsCutRow(db: Database, owner: Option<Address>, uid: Option<OrderUid>, r: Row, n: nat, tops: Tops)
    requires UidFixesData(db) && r in OnlyJit(db, owner, uid) && AreTops(db, owner, uid, n, tops)
    requires |HitsAbove(JitHits(db, owner, uid), r.index)| >= n
    ensures r in Union(db, owner, uid) && r !in CutUnion(tops)
  {
    UnionPositionsDiffer(db, owner, uid);
    TopKeepsIff(JitHits(db, owner, uid), n, tops.jit, r);
    RowsMonotone(tops.owned, OwnedHits(db, owner, uid));
    RowsMonotone(tops.placed, PlacedHits(db, owner, uid));
  }

  /** A page whose limit just reaches a row with too many JIT hits before it misses that row. */
  lemma RepeatsLoseRow(db: Database, owner: Option<Address>, uid: Option<OrderUid>, r: Row, n: nat, tops: Tops)
    requires UidFixesData(db) && r in OnlyJit(db, owner, uid)
    requires |HitsAbove(JitHits(db, owner, uid), r.index)| >= n == |RowsAbove(Union(db, owner, uid), r.index)| + 1
    requires AreTops(db, owner, uid, n + 0, tops)
    ensures !PageIsSound(db, owner, uid, n, 0, tops)
  {
    TopsAreFromUnion(db, owner, uid, n, tops);
    RepeatsCutRow(db, owner, uid, r, n, tops);
    DifferentPage(Union(db, owner, uid), CutUnion(tops), r, n);
  }

  lemma TopExists(hits: set<Hit>, n: nat) returns (top: set<Hit>)
    ensures IsTop(hits, n, top)
    decreases n
  {
    if n == 0 || hits == {} {
      top := {};
    } else {
      var first := FirstHit(hits);
      var rest := TopExists(hits - {first}, n - 1);
      top := rest + {first};
    }
  }

  lemma FirstHit(hits: set<Hit>) returns (first: Hit)
    requires hits != {}
    ensures first in hits && forall h | h in hits :: !Precedes(h.row.index, first.row.index)
    decreases |hits|
  {
    first :| first in hits;
    if hits != {first} {
      var other := FirstHit(hits - {first});
      if Precedes(other.row.index, first.row.index) { first := other; }
    }
  }

  ghost predicate AllPagesSound(db: Database, owner: Option<Address>, uid: Option<OrderUid>)
    requires UidFixesData(db)
  {
    forall limit: nat, offset: nat, tops | AreTops(db, owner, uid, limit + offset, tops) ::
      PageIsSound(db, owner, uid, limit, offset, tops)
  }

  /**
   Cutting every search to `limit + offset` rows gives the page of the whole union for every limit
   and offset exactly if JIT orders repeat little enough.
   */
  lemma PushDownSoundIff(db: Database, owner: Option<Address>, uid: Option<OrderUid>)
    requires UidFixesData(db)
    ensures AllPagesSound(db, owner, uid) <==> FewJitRepeats(db, owner, uid)
  {
    if FewJitRepeats(db, owner, uid) {
      forall limit: nat, offset: nat, tops | AreTops(db, owner, uid, limit + offset, tops)
        ensures PageIsSound(db, owner, uid, limit, offset, tops)
      {
        PushDownSound(db, owner, uid, limit, offset, tops);
      }
    } else {
      var r :| r in OnlyJit(db, owner, uid)
        && |HitsAbove(JitHits(db, owner, uid), r.index)| > |RowsAbove(Union(db, owner, uid), r.index)|;
      RepeatsAreUnsound(db, owner, uid, r);
    }
  }

  lemma RepeatsAreUnsound(db: Database, owner: Option<Address>, uid: Option<OrderUid>, r: Row)
    requires UidFixesData(db) && r in OnlyJit(db, owner, uid)
    requires |HitsAbove(JitHits(db, owner, uid), r.index)| > |RowsAbove(Union(db, owner, uid), r.index)|
    ensures !AllPagesSound(db, owner, uid)
  {
    var n := |RowsAbove(Union(db, owner, uid), r.index)| + 1;
    var owned := TopExists(OwnedHits(db, owner, uid), n);
    var placed := TopExists(PlacedHits(db, owner, uid), n);
    var jit := TopExists(JitHits(db, owner, uid), n);
    RepeatsLoseRow(db, owner, uid, r, n, Tops(owned, placed, jit));
  }

  /** One row for every JIT order is enough. */
  lemma OneJitRowPerUid(db: Database, owner: Option<Address>, uid: Option<OrderUid>)
    requires UidFixesData(db)
    requires forall i, j | i in db.jitOrders && j in db.jitOrders ::
               db.jitOrders[i].uid == db.jitOrders[j].uid ==> i == j
    ensures AllPagesSound(db, owner, uid)
  {
    forall r | r in OnlyJit(db, owner, uid)
      ensures |HitsAbove(JitHits(db, owner, uid), r.index)| <= |RowsAbove(Union(db, owner, uid), r.index)|
    {
      NoMoreHitsThanRows(JitHits(db, owner, uid), Union(db, owner, uid), r.index);
    }
    PushDownSoundIff(db, owner, uid);
  }

  /** A JIT order that was settled twice has two rows and two trades. */
  ghost function SettledTwice(jit: JitOrder): Database
  {
    var trade := Trade(jit.uid, 1, 1, 0);
    Database(Events(map[Index(1, 1) := trade, Index(1, 2) := trade], map[]), map[], map[],
             map[Index(1, 1) := jit, Index(1, 2) := jit])
  }

  lemma SettledTwiceHits(jit: JitOrder, older: Row, newer: Row)
    requires older == RowOf(SettledTwice(jit), Index(1, 1), jit.data)
    requires newer == RowOf(SettledTwice(jit), Index(1, 2), jit.data)
    ensures Hit(older, Index(1, 1)) in JitHits(SettledTwice(jit), None, None)
    ensures {Hit(newer, Index(1, 1)), Hit(newer, Index(1, 2))} <= JitHits(SettledTwice(jit), None, None)
    ensures Rows(JitHits(SettledTwice(jit), None, None)) <= {older, newer}
  {
    var db := SettledTwice(jit);
    assert Index(1, 1) in db.events.trades && Index(1, 2) in db.events.trades;
    assert Index(1, 1) in db.jitOrders && Index(1, 2) in db.jitOrders;
  }

  lemma SettledTwiceUnion(jit: JitOrder)
    ensures Union(SettledTwice(jit), None, None) == Rows(JitHits(SettledTwice(jit), None, None))
    ensures OnlyJit(SettledTwice(jit), None, None) == Rows(JitHits(SettledTwice(jit), None, None))
  {
    var db := SettledTwice(jit);
    assert OwnedHits(db, None, None) == {} && PlacedHits(db, None, None) == {};
    assert Rows({}) == {};
  }

  /** For it the condition fails: some page misses its older trade. */
  lemma SettledTwiceIsUnsound(jit: JitOrder)
    ensures UidFixesData(SettledTwice(jit)) && !AllPagesSound(SettledTwice(jit), None, None)
  {
    var db := SettledTwice(jit);
    var hits := JitHits(db, None, None);
    var older, newer := RowOf(db, Index(1, 1), jit.data), RowOf(db, Index(1, 2), jit.data);
    var repeats := {Hit(newer, Index(1, 1)), Hit(newer, Index(1, 2))};
    SettledTwiceHits(jit, older, newer);
    SettledTwiceUnion(jit);
    assert repeats <= HitsAbove(hits, older.index);
    SubsetSize(repeats, HitsAbove(hits, older.index));
    assert RowsAbove(Union(db, None, None), older.index) <= {newer};
    SubsetSize(RowsAbove(Union(db, None, None), older.index), {newer});
    RepeatsAreUnsound(db, None, None, older);
  }
}

/** What `save` stores is what `fetch` returns. */
module CompetitionRoundTrip {
  import opened Common
  import opened Tables
  import opened Sequences
  import opened SolverCompetition

  ghost predicate Storable(book: Book, solutions: seq<Solution>)
  {
    && (forall i, j | 0 <= i < j < |solutions| :: solutions[i].uid != solutions[j].uid)
    && (forall s | s in solutions :: s.orders != [] && DistinctOrders(s) && AgreesWithBook(book, s))
  }

  ghost predicate DistinctOrders(s: Solution)
  {
    forall i, j | 0 <= i < j < |s.orders| :: s.orders[i].uid != s.orders[j].uid
  }

  ghost predicate AgreesWithBook(book: Book, s: Solution)
  {
    forall o | o in s.orders && o.uid in book :: book[o.uid] == o.info
  }

  /** No row of the auction is stored yet. */
  ghost predicate Unused(t: Proposals, auction: AuctionId)
  {
    && (forall k | k in t.solutions :: k.auction != auction)
    && (forall k | k in t.executions :: k.auction != auction)
    && (forall k | k in t.jitOrders :: k.auction != auction)
  }

  // ------------------------------------------------------------------- flattened trades

  predicate InSolution(s: Solution, trade: (int, Order))
  {
    s.uid == trade.0 && trade.1 in s.orders
  }

  lemma OwnTrades(s: Solution, trade: (int, Order))
    ensures trade in TradesOf(s) <==> InSolution(s, trade)
  {
    if InSolution(s, trade) {
      var i :| 0 <= i < |s.orders| && s.orders[i] == trade.1;
      assert TradesOf(s)[i] == trade;
    }
  }

  lemma {:induction false} TradesMembers(solutions: seq<Solution>, trade: (int, Order))
    ensures trade in Trades(solutions) <==> exists s :: s in solutions && InSolution(s, trade)
  {
    if solutions != [] {
      var init, last := solutions[..|solutions| - 1], solutions[|solutions| - 1];
      TradesMembers(init, trade);
      OwnTrades(last, trade);
      assert solutions == init + [last];
    }
  }

  lemma {:induction false} TradeKeysDistinct(solutions: seq<Solution>, auction: AuctionId)
    requires forall i, j | 0 <= i < j < |solutions| :: solutions[i].uid != solutions[j].uid
    requires forall s | s in solutions :: DistinctOrders(s)
    ensures forall a, b | 0 <= a < b < |Trades(solutions)| ::
              KeyOf(auction, Trades(solutions)[a]) != KeyOf(auction, Trades(solutions)[b])
  {
    if solutions != [] {
      var init, last := solutions[..|solutions| - 1], solutions[|solutions| - 1];
      TradeKeysDistinct(init, auction);
      assert last in solutions;
      forall trade | trade in Trades(init)
        ensures trade.0 != last.uid
      {
        TradesMembers(init, trade);
      }
    }
  }

  // ------------------------------------------------------------------ what save stores

  lemma SavedHeaders(t: Proposals, book: Book, auction: AuctionId, solutions: seq<Solution>)
    requires Unused(t, auction) && Storable(book, solutions)
    ensures
      var saved := InsertAll(t.solutions, SolutionRows(auction, solutions));
      && (forall s | s in solutions ::
            SolutionKey(auction, s.uid) in saved && saved[SolutionKey(auction, s.uid)] == s.header)
      && (forall k | k in saved && k.auction == auction :: exists s :: s in solutions && s.uid == k.solution)
  {
    var rows := SolutionRows(auction, solutions);
    var saved := InsertAll(t.solutions, rows);
    forall s | s in solutions
      ensures SolutionKey(auction, s.uid) in saved && saved[SolutionKey(auction, s.uid)] == s.header
    {
      var i :| 0 <= i < |solutions| && solutions[i] == s;
      InsertAllStores(t.solutions, rows, i);
    }
    InsertAllKeys(t.solutions, rows);
    forall k | k in saved && k.auction == auction
      ensures exists s :: s in solutions && s.uid == k.solution
    {
      var i :| 0 <= i < |rows| && rows[i].0 == k;
      assert solutions[i] in solutions;
    }
  }

  lemma SavedExecutions(t: Proposals, book: Book, auction: AuctionId, solutions: seq<Solution>)
    requires Unused(t, auction) && Storable(book, solutions)
    ensures
      var saved := InsertAll(t.executions, ExecutionRows(auction, Trades(solutions)));
      && (forall x | x in Trades(solutions) ::
            KeyOf(auction, x) in saved && saved[KeyOf(auction, x)] == Executed(x.1.executedSell, x.1.executedBuy))
      && (forall k | k in saved && k.auction == auction :: exists x :: x in Trades(solutions) && KeyOf(auction, x) == k)
  {
    var trades := Trades(solutions);
    var rows := ExecutionRows(auction, trades);
    var saved := InsertAll(t.executions, rows);
    TradeKeysDistinct(solutions, auction);
    forall x | x in trades
      ensures KeyOf(auction, x) in saved && saved[KeyOf(auction, x)] == Executed(x.1.executedSell, x.1.executedBuy)
    {
      var i :| 0 <= i < |trades| && trades[i] == x;
      InsertAllStores(t.executions, rows, i);
    }
    InsertAllKeys(t.executions, rows);
    forall k | k in saved && k.auction == auction
      ensures exists x :: x in trades && KeyOf(auction, x) == k
    {
      var i :| 0 <= i < |rows| && rows[i].0 == k;
      assert trades[i] in trades;
    }
  }

  lemma {:induction false} JitOrderKeys(table: map<TradeKey, OrderInfo>, book: Book, auction: AuctionId,
                                        trades: seq<(int, Order)>, key: TradeKey)
    requires key !in table
    requires forall x | x in trades :: KeyOf(auction, x) != key
    ensures key !in SaveJitOrders(table, book, auction, trades)
  {
    if trades != [] {
      assert trades[|trades| - 1] in trades;
      JitOrderKeys(table, book, auction, trades[..|trades| - 1], key);
    }
  }

  /** Afterwards a trade's order data is in the table unless it is a book order. */
  lemma {:induction false} SavedInfo(table: map<TradeKey, OrderInfo>, book: Book, auction: AuctionId,
                                     trades: seq<(int, Order)>, i: nat)
    requires forall k | k in table :: k.auction != auction
    requires forall a, b | 0 <= a < b < |trades| :: KeyOf(auction, trades[a]) != KeyOf(auction, trades[b])
    requires i < |trades|
    ensures
      var saved := SaveJitOrders(table, book, auction, trades);
      var key := KeyOf(auction, trades[i]);
      if trades[i].1.uid in book then key !in saved else key in saved && saved[key] == trades[i].1.info
  {
    var init, last := trades[..|trades| - 1], trades[|trades| - 1];
    if i < |init| {
      SavedInfo(table, book, auction, init, i);
    } else {
      JitOrderKeys(table, book, auction, init, KeyOf(auction, last));
    }
  }

  lemma SaveSucceeds(t: Proposals, book: Book, auction: AuctionId, solutions: seq<Solution>)
    requires Storable(book, solutions)
    ensures Save(t, book, auction, solutions).Ok?
  {
    if solutions != [] {
      var s := solutions[0];
      assert s in solutions;
      TradesMembers(solutions, (s.uid, s.orders[0]));
    }
  }

  /** Every saved trade is read back with its own data. */
  lemma TradeReadBack(t: Proposals, book: Book, auction: AuctionId, solutions: seq<Solution>, t': Proposals,
                      s: Solution, o: Order)
    requires Unused(t, auction) && Storable(book, solutions)
    requires Save(t, book, auction, solutions) == Ok(t')
    requires s in solutions && o in s.orders
    ensures
      var key := TradeKey(auction, s.uid, o.uid);
      Decodes(t', book, key) && RowAt(t', book, key) == Row(s.uid, s.header, o)
  {
    var trades := Trades(solutions);
    TradesMembers(solutions, (s.uid, o));
    var i :| 0 <= i < |trades| && trades[i] == (s.uid, o);
    SavedHeaders(t, book, auction, solutions);
    SavedExecutions(t, book, auction, solutions);
    TradeKeysDistinct(solutions, auction);
    SavedInfo(t.jitOrders, book, auction, trades, i);
    assert KeyOf(auction, (s.uid, o)) == TradeKey(auction, s.uid, o.uid);
  }

  /** The join sees the saved trades and nothing else. */
  lemma JoinSeesTrades(t: Proposals, book: Book, auction: AuctionId, solutions: seq<Solution>, t': Proposals,
                       key: TradeKey)
    requires Unused(t, auction) && Storable(book, solutions)
    requires Save(t, book, auction, solutions) == Ok(t')
    ensures key in JoinKeys(t', auction) <==>
            exists s, o :: s in solutions && o in s.orders && key == TradeKey(auction, s.uid, o.uid)
  {
    if s, o :| s in solutions && o in s.orders && key == TradeKey(auction, s.uid, o.uid) {
      TradeReadBack(t, book, auction, solutions, t', s, o);
    }
    if key in JoinKeys(t', auction) && solutions != [] {
      SavedExecutions(t, book, auction, solutions);
      var x :| x in Trades(solutions) && KeyOf(auction, x) == key;
      TradesMembers(solutions, x);
      var i :| 0 <= i < |solutions| && solutions[i].uid == x.0 && x.1 in solutions[i].orders;
      assert solutions[i] in solutions && key == TradeKey(auction, solutions[i].uid, x.1.uid);
    }
  }

  // ------------------------------------------------------------------------- the round trip

  lemma {:induction false} OrdersOfMembers(rows: seq<Row>, uid: int, o: Order)
    ensures o in OrdersOf(rows, uid) <==> exists r :: r in rows && r.uid == uid && r.order == o
  {
    if rows != [] {
      var init, last := rows[..|rows| - 1], rows[|rows| - 1];
      OrdersOfMembers(init, uid, o);
      assert rows == init + [last];
      if r :| r in init && r.uid == uid && r.order == o { assert r in rows; }
      if last.uid == uid && last.order == o { assert last in rows; }
    }
  }

  lemma {:induction false} OrdersOfDistinct(rows: seq<Row>, uid: int)
    requires forall i, j | 0 <= i < j < |rows| :: rows[i].uid != rows[j].uid || rows[i].order != rows[j].order
    ensures Distinct(OrdersOf(rows, uid))
  {
    if rows != [] {
      var init, last := rows[..|rows| - 1], rows[|rows| - 1];
      OrdersOfDistinct(init, uid);
      if last.uid == uid {
        OrdersOfMembers(init, uid, last.order);
      }
    }
  }

  lemma {:induction false} HeaderOfRow(rows: seq<Row>, uid: int) returns (row: Row)
    requires uid in Uids(rows)
    ensures row in rows && row.uid == uid && HeaderOf(rows, uid) == row.header
  {
    if rows[0].uid == uid {
      row := rows[0];
    } else {
      var r :| r in rows && r.uid == uid;
      assert r in rows[1..];
      row := HeaderOfRow(rows[1..], uid);
    }
  }

  /** Same uid and solution data, and the same orders up to their order in the list. */
  ghost predicate SameSolution(a: Solution, b: Solution)
  {
    a.uid == b.uid && a.header == b.header && multiset(a.orders) == multiset(b.orders)
  }

  ghost predicate SameSolutions(r: seq<Solution>, expected: seq<Solution>)
  {
    |r| == |expected| && forall i | 0 <= i < |r| :: SameSolution(r[i], expected[i])
  }

  function Identity(x: int): int { x }

  function UidList(s: seq<Solution>): (uids: seq<int>)
    ensures |uids| == |s| && forall i | 0 <= i < |s| :: uids[i] == s[i].uid
  {
    seq(|s|, i requires 0 <= i < |s| => s[i].uid)
  }

  function UidSet(s: seq<Solution>): set<int>
  {
    set x | x in s :: x.uid
  }

  /** Lists sorted by uid with the same uids and matching entries match position by position. */
  lemma MatchSorted(r: seq<Solution>, e: seq<Solution>)
    requires StrictlySortedBy(r, UidOf) && StrictlySortedBy(e, UidOf)
    requires UidSet(r) == UidSet(e)
    requires forall a, b | a in r && b in e && a.uid == b.uid :: SameSolution(a, b)
    ensures SameSolutions(r, e)
  {
    forall u
      ensures u in UidList(r) <==> u in UidSet(r)
      ensures u in UidList(e) <==> u in UidSet(e)
    {
      UidListMembers(r, u);
      UidListMembers(e, u);
    }
    StrictlySortedUnique(UidList(r), UidList(e), Identity);
    assert |r| == |UidList(r)| == |e|;
    forall i | 0 <= i < |r|
      ensures SameSolution(r[i], e[i])
    {
      assert UidList(r)[i] == UidList(e)[i];
      assert r[i] in r && e[i] in e;
    }
  }

  lemma UidListMembers(s: seq<Solution>, u: int)
    ensures u in UidList(s) <==> u in UidSet(s)
  {
    if x :| x in s && x.uid == u {
      var i :| 0 <= i < |s| && s[i] == x;
      assert UidList(s)[i] == u;
    }
    if i :| 0 <= i < |s| && UidList(s)[i] == u {
      assert s[i] in s;
    }
  }

  /** A saved order has its row in the scan. */
  lemma RowOfOrder(t: Proposals, book: Book, auction: AuctionId, solutions: seq<Solution>, t': Proposals,
                   scan: seq<TradeKey>, s: Solution, o: Order)
    requires Unused(t, auction) && Storable(book, solutions)
    requires Save(t, book, auction, solutions) == Ok(t')
    requires Scans(scan, JoinKeys(t', auction))
    requires forall k | k in scan :: Decodes(t', book, k)
    requires s in solutions && o in s.orders
    ensures Row(s.uid, s.header, o) in Rows(t', book, scan)
  {
    var key := TradeKey(auction, s.uid, o.uid);
    TradeReadBack(t, book, auction, solutions, t', s, o);
    JoinSeesTrades(t, book, auction, solutions, t', key);
    var i :| 0 <= i < |scan| && scan[i] == key;
    assert Rows(t', book, scan)[i] == Row(s.uid, s.header, o);
  }

  /** Every row of a saved solution carries its data and one of its orders. */
  lemma RowsOfSolution(t: Proposals, book: Book, auction: AuctionId, solutions: seq<Solution>, t': Proposals,
                       scan: seq<TradeKey>, s: Solution, row: Row)
    requires Unused(t, auction) && Storable(book, solutions)
    requires Save(t, book, auction, solutions) == Ok(t')
    requires Scans(scan, JoinKeys(t', auction))
    requires forall k | k in scan :: Decodes(t', book, k)
    requires s in solutions && row in Rows(t', book, scan) && row.uid == s.uid
    ensures row.header == s.header && row.order in s.orders
  {
    var i :| 0 <= i < |scan| && Rows(t', book, scan)[i] == row;
    RowComesFrom(t, book, auction, solutions, t', scan[i], s);
  }

  lemma ScanDistinct(t: Proposals, book: Book, auction: AuctionId, scan: seq<TradeKey>)
    requires Distinct(scan) && forall k | k in scan :: k.auction == auction && Decodes(t, book, k)
    ensures
      var rows := Rows(t, book, scan);
      forall i, j | 0 <= i < j < |rows| :: rows[i].uid != rows[j].uid || rows[i].order != rows[j].order
  {
    assert forall i | 0 <= i < |scan| :: scan[i] in scan;
  }

  /** The group of rows a saved solution comes back as. */
  lemma GroupReadBack(t: Proposals, book: Book, auction: AuctionId, solutions: seq<Solution>, t': Proposals,
                      scan: seq<TradeKey>, s: Solution)
    requires Unused(t, auction) && Storable(book, solutions)
    requires Save(t, book, auction, solutions) == Ok(t')
    requires Scans(scan, JoinKeys(t', auction))
    requires forall k | k in scan :: Decodes(t', book, k)
    requires s in solutions
    ensures s.uid in Uids(Rows(t', book, scan))
    ensures SameSolution(GroupOf(Rows(t', book, scan), s.uid), s)
  {
    var rows := Rows(t', book, scan);
    RowOfOrder(t, book, auction, solutions, t', scan, s, s.orders[0]);
    var row := HeaderOfRow(rows, s.uid);
    RowsOfSolution(t, book, auction, solutions, t', scan, s, row);
    ScanDistinct(t', book, auction, scan);
    OrdersOfDistinct(rows, s.uid);
    forall o
      ensures o in OrdersOf(rows, s.uid) <==> o in s.orders
    {
      OrderReadBack(t, book, auction, solutions, t', scan, s, o);
    }
    SameMembersSameMultiset(OrdersOf(rows, s.uid), s.orders);
  }

  lemma OrderReadBack(t: Proposals, book: Book, auction: AuctionId, solutions: seq<Solution>, t': Proposals,
                      scan: seq<TradeKey>, s: Solution, o: Order)
    requires Unused(t, auction) && Storable(book, solutions)
    requires Save(t, book, auction, solutions) == Ok(t')
    requires Scans(scan, JoinKeys(t', auction))
    requires forall k | k in scan :: Decodes(t', book, k)
    requires s in solutions
    ensures o in OrdersOf(Rows(t', book, scan), s.uid) <==> o in s.orders
  {
    var rows := Rows(t', book, scan);
    OrdersOfMembers(rows, s.uid, o);
    if o in s.orders { RowOfOrder(t, book, auction, solutions, t', scan, s, o); }
    if r :| r in rows && r.uid == s.uid && r.order == o {
      RowsOfSolution(t, book, auction, solutions, t', scan, s, r);
    }
  }

  lemma RowComesFrom(t: Proposals, book: Book, auction: AuctionId, solutions: seq<Solution>, t': Proposals,
                     key: TradeKey, s: Solution)
    requires Unused(t, auction) && Storable(book, solutions)
    requires Save(t, book, auction, solutions) == Ok(t')
    requires key in JoinKeys(t', auction) && Decodes(t', book, key)
    requires s in solutions && key.solution == s.uid
    ensures RowAt(t', book, key).header == s.header
    ensures RowAt(t', book, key).order in s.orders
  {
    JoinSeesTrades(t, book, auction, solutions, t', key);
    var s', o :| s' in solutions && o in s'.orders && key == TradeKey(auction, s'.uid, o.uid);
    TradeReadBack(t, book, auction, solutions, t', s', o);
  }

  lemma ScanDecodes(t: Proposals, book: Book, auction: AuctionId, solutions: seq<Solution>, t': Proposals,
                    key: TradeKey)
    requires Unused(t, auction) && Storable(book, solutions)
    requires Save(t, book, auction, solutions) == Ok(t')
    requires key in JoinKeys(t', auction)
    ensures Decodes(t', book, key) && key.solution in UidSet(solutions)
  {
    JoinSeesTrades(t, book, auction, solutions, t', key);
    var s, o :| s in solutions && o in s.orders && key == TradeKey(auction, s.uid, o.uid);
    TradeReadBack(t, book, auction, solutions, t', s, o);
  }

  lemma GroupsMatch(t: Proposals, book: Book, auction: AuctionId, solutions: seq<Solution>, t': Proposals,
                    scan: seq<TradeKey>, fetched: seq<Solution>)
    requires Unused(t, auction) && Storable(book, solutions)
    requires Save(t, book, auction, solutions) == Ok(t')
    requires Scans(scan, JoinKeys(t', auction))
    requires forall k | k in scan :: Decodes(t', book, k) && k.solution in UidSet(solutions)
    requires IsGrouped(Rows(t', book, scan), fetched)
    ensures UidSet(fetched) == UidSet(solutions)
    ensures forall a, s | a in fetched && s in solutions && a.uid == s.uid :: SameSolution(a, s)
  {
    var rows := Rows(t', book, scan);
    forall s | s in solutions
      ensures s.uid in UidSet(fetched)
      ensures s.uid in Uids(rows) && SameSolution(GroupOf(rows, s.uid), s)
    {
      GroupReadBack(t, book, auction, solutions, t', scan, s);
      assert GroupOf(rows, s.uid) in fetched;
    }
    forall a | a in fetched
      ensures a.uid in UidSet(solutions)
    {
      GroupHasSolution(t', book, scan, UidSet(solutions), fetched, a);
    }
  }

  lemma GroupHasSolution(t: Proposals, book: Book, scan: seq<TradeKey>, uids: set<int>,
                         fetched: seq<Solution>, a: Solution)
    requires forall k | k in scan :: Decodes(t, book, k) && k.solution in uids
    requires IsGrouped(Rows(t, book, scan), fetched) && a in fetched
    ensures a.uid in uids
  {
    var rows := Rows(t, book, scan);
    var row :| row in rows && row.uid == a.uid;
    var i :| 0 <= i < |rows| && rows[i] == row;
    assert scan[i] in scan;
  }

  /**
   Fetching an auction right after saving it returns the saved solutions in ascending order of uid,
   each with the same orders, whatever order the database returns the joined rows in.
   */
  lemma SaveFetchRoundTrip(t: Proposals, book: Book, auction: AuctionId, solutions: seq<Solution>, t': Proposals,
                           scan: seq<TradeKey>, fetched: seq<Solution>)
    requires Unused(t, auction) && Storable(book, solutions)
    requires Save(t, book, auction, solutions) == Ok(t')
    requires Scans(scan, JoinKeys(t', auction))
    ensures forall k | k in scan :: Decodes(t', book, k)
    ensures IsGrouped(Rows(t', book, scan), fetched) ==> SameSolutions(fetched, SortBy(solutions, UidOf))
  {
    forall k | k in scan
      ensures Decodes(t', book, k) && k.solution in UidSet(solutions)
    {
      ScanDecodes(t, book, auction, solutions, t', k);
    }
    if IsGrouped(Rows(t', book, scan), fetched) {
      GroupsMatch(t, book, auction, solutions, t', scan, fetched);
      SortDistinct(solutions);
      assert UidSet(SortBy(solutions, UidOf)) == UidSet(solutions);
      MatchSorted(fetched, SortBy(solutions, UidOf));
    }
  }

  // ------------------------------------------------------------ saving again, and winners

  /** Saving the same solutions a second time changes nothing. */
  lemma SecondSaveChangesNothing(t: Proposals, book: Book, auction: AuctionId, solutions: seq<Solution>)
    requires Save(t, book, auction, solutions).Ok?
    ensures Save(Save(t, book, auction, solutions).value, book, auction, solutions) == Save(t, book, auction, solutions)
  {
    if solutions != [] {
      var trades := Trades(solutions);
      InsertAllKeys(t.solutions, SolutionRows(auction, solutions));
      InsertAllTaken(InsertAll(t.solutions, SolutionRows(auction, solutions)), SolutionRows(auction, solutions));
      InsertAllKeys(t.executions, ExecutionRows(auction, trades));
      InsertAllTaken(InsertAll(t.executions, ExecutionRows(auction, trades)), ExecutionRows(auction, trades));
      JitOrdersKept(t.jitOrders, book, auction, trades);
      JitOrdersTaken(SaveJitOrders(t.jitOrders, book, auction, trades), book, auction, trades);
    }
  }

  lemma {:induction false} JitOrdersKept(table: map<TradeKey, OrderInfo>, book: Book, auction: AuctionId,
                                         trades: seq<(int, Order)>)
    ensures table.Keys <= SaveJitOrders(table, book, auction, trades).Keys
    ensures forall x | x in trades ::
              x.1.uid in book || KeyOf(auction, x) in SaveJitOrders(table, book, auction, trades)
  {
    if trades != [] {
      JitOrdersKept(table, book, auction, trades[..|trades| - 1]);
      assert trades == trades[..|trades| - 1] + [trades[|trades| - 1]];
    }
  }

  lemma {:induction false} JitOrdersTaken(table: map<TradeKey, OrderInfo>, book: Book, auction: AuctionId,
                                          trades: seq<(int, Order)>)
    requires forall x | x in trades :: x.1.uid in book || KeyOf(auction, x) in table
    ensures SaveJitOrders(table, book, auction, trades) == table
  {
    if trades != [] {
      assert trades[|trades| - 1] in trades;
      JitOrdersTaken(table, book, auction, trades[..|trades| - 1]);
    }
  }

  /** The joined rows of the winning solutions of one solver. */
  function WinningKeys(t: Proposals, auction: AuctionId, solver: Address): set<TradeKey>
  {
    set k | k in JoinKeys(t, auction) &&
            t.solutions[SolutionKey(auction, k.solution)].isWinner &&
            t.solutions[SolutionKey(auction, k.solution)].solver == solver
  }

  predicate WonBy(s: Solution, solver: Address)
  {
    s.header.isWinner && s.header.solver == solver
  }

  /** Of any two scans, a solution's group has the same data and orders if both see its trades. */
  lemma GroupsAgree(t: Proposals, book: Book, auction: AuctionId, keys: set<TradeKey>, keys': set<TradeKey>,
                    scan: seq<TradeKey>, scan': seq<TradeKey>, uid: int)
    requires keys' <= keys <= JoinKeys(t, auction)
    requires Scans(scan, keys) && Scans(scan', keys')
    requires forall k | k in scan :: Decodes(t, book, k)
    requires forall k | k in keys && k.solution == uid :: k in keys'
    requires uid in Uids(Rows(t, book, scan'))
    ensures uid in Uids(Rows(t, book, scan))
    ensures SameSolution(GroupOf(Rows(t, book, scan'), uid), GroupOf(Rows(t, book, scan), uid))
  {
    var rows, rows' := Rows(t, book, scan), Rows(t, book, scan');
    forall r: Row | r.uid == uid
      ensures r in rows <==> r in rows'
      ensures r in rows ==> r.header == t.solutions[SolutionKey(auction, uid)]
    {
      if i :| 0 <= i < |scan| && rows[i] == r {
        assert scan[i] in scan && scan[i] in keys';
        var j :| 0 <= j < |scan'| && scan'[j] == scan[i];
        assert rows'[j] == r;
      }
      if j :| 0 <= j < |scan'| && rows'[j] == r {
        assert scan'[j] in scan' && scan'[j] in keys;
        var i :| 0 <= i < |scan| && scan[i] == scan'[j];
        assert rows[i] == r;
      }
    }
    var row' := HeaderOfRow(rows', uid);
    var row := HeaderOfRow(rows, uid);
    ScanDistinct(t, book, auction, scan);
    ScanDistinct(t, book, auction, scan');
    OrdersOfDistinct(rows, uid);
    OrdersOfDistinct(rows', uid);
    forall o
      ensures o in OrdersOf(rows', uid) <==> o in OrdersOf(rows, uid)
    {
      OrdersOfMembers(rows, uid, o);
      OrdersOfMembers(rows', uid, o);
    }
    SameMembersSameMultiset(OrdersOf(rows', uid), OrdersOf(rows, uid));
  }

  /**
   The query for a solver's winning solutions returns the winning solutions of that solver among
   those `fetch` returns, whatever is stored and in whatever order rows come back.
   */
  lemma WinnersAreFilterOfFetch(t: Proposals, book: Book, auction: AuctionId, solver: Address,
                                scan: seq<TradeKey>, fetched: seq<Solution>,
                                scan': seq<TradeKey>, winners: seq<Solution>)
    requires Scans(scan, JoinKeys(t, auction)) && Scans(scan', WinningKeys(t, auction, solver))
    requires forall k | k in scan :: Decodes(t, book, k)
    requires IsGrouped(Rows(t, book, scan), fetched)
    requires IsGrouped(Rows(t, book, scan'), winners)
    ensures SameSolutions(winners, Filter(fetched, s => WonBy(s, solver)))
  {
    var rows, rows' := Rows(t, book, scan), Rows(t, book, scan');
    var expected := Filter(fetched, s => WonBy(s, solver));
    FilterStrictlySorted(fetched, s => WonBy(s, solver));
    forall a | a in winners
      ensures a.uid in UidSet(expected)
      ensures a.uid in Uids(rows) && SameSolution(a, GroupOf(rows, a.uid))
    {
      WinnerRow(t, book, auction, solver, scan', a.uid);
      GroupsAgree(t, book, auction, JoinKeys(t, auction), WinningKeys(t, auction, solver), scan, scan', a.uid);
      assert GroupOf(rows, a.uid) in expected;
    }
    forall b | b in expected
      ensures b.uid in UidSet(winners)
    {
      var row := HeaderOfRow(rows, b.uid);
      var i :| 0 <= i < |scan| && rows[i] == row;
      assert scan[i] in scan;
      assert scan[i] in WinningKeys(t, auction, solver);
      var j :| 0 <= j < |scan'| && scan'[j] == scan[i];
      assert rows'[j] == row;
      assert GroupOf(rows', b.uid) in winners;
    }
    MatchSorted(winners, expected);
  }

  /** A solution with one row in the winners' scan is a winner, and all its rows are scanned. */
  lemma WinnerRow(t: Proposals, book: Book, auction: AuctionId, solver: Address, scan: seq<TradeKey>, uid: int)
    requires Scans(scan, WinningKeys(t, auction, solver))
    requires forall k | k in scan :: Decodes(t, book, k)
    requires uid in Uids(Rows(t, book, scan))
    ensures forall k | k in JoinKeys(t, auction) && k.solution == uid :: k in WinningKeys(t, auction, solver)
    ensures WonBy(GroupOf(Rows(t, book, scan), uid), solver)
  {
    var rows := Rows(t, book, scan);
    var row := HeaderOfRow(rows, uid);
    var i :| 0 <= i < |scan| && rows[i] == row;
    assert scan[i] in scan;
  }

  lemma {:induction false} FilterStrictlySorted(s: seq<Solution>, keep: Solution -> bool)
    requires StrictlySortedBy(s, UidOf)
    ensures StrictlySortedBy(Filter(s, keep), UidOf)
  {
    if s != [] {
      FilterStrictlySorted(s[1..], keep);
      var rest := Filter(s[1..], keep);
      forall x | x in rest
        ensures UidOf(s[0]) < UidOf(x)
      {
        assert x in s[1..];
      }
    }
  }
}

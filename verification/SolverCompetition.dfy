/**
 Storing the solutions of a solver competition in three tables and reading them back through a
 three-way join.
 */
module SolverCompetition {
  import opened Common
  import opened Tables
  import opened Sequences

  /** Order data kept in `orders` for book orders and in `proposed_jit_orders` for all others. */
  datatype OrderInfo = OrderInfo(
    sellToken: Address, buyToken: Address, limitSell: nat, limitBuy: nat, side: OrderKind)

  datatype Order = Order(uid: OrderUid, info: OrderInfo, executedSell: nat, executedBuy: nat)

  /** The columns of `proposed_solutions` next to its primary key. */
  datatype Header = Header(
    id: nat, solver: Address, isWinner: bool, filteredOut: bool, score: nat,
    priceTokens: seq<Address>, priceValues: seq<nat>)

  datatype Solution = Solution(uid: int, header: Header, orders: seq<Order>)

  datatype SolutionKey = SolutionKey(auction: AuctionId, solution: int)
  datatype TradeKey = TradeKey(auction: AuctionId, solution: int, order: OrderUid)
  datatype Executed = Executed(sell: nat, buy: nat)

  datatype Proposals = Proposals(
    solutions: map<SolutionKey, Header>,
    executions: map<TradeKey, Executed>,
    jitOrders: map<TradeKey, OrderInfo>)

  type Book = map<OrderUid, OrderInfo>

  // ------------------------------------------------------------------------------ saving

  function SolutionRows(auction: AuctionId, solutions: seq<Solution>): (rows: seq<(SolutionKey, Header)>)
    ensures |rows| == |solutions|
    ensures forall i | 0 <= i < |rows| ::
        rows[i] == (SolutionKey(auction, solutions[i].uid), solutions[i].header)
  {
    seq(|solutions|, i requires 0 <= i < |solutions| =>
      (SolutionKey(auction, solutions[i].uid), solutions[i].header))
  }

  /** The (solution uid, order) pairs of one solution. */
  function TradesOf(s: Solution): (r: seq<(int, Order)>)
    ensures |r| == |s.orders| && forall i | 0 <= i < |r| :: r[i] == (s.uid, s.orders[i])
  {
    seq(|s.orders|, i requires 0 <= i < |s.orders| => (s.uid, s.orders[i]))
  }

  /** All (solution uid, order) pairs, in the order the solutions list them. */
  function Trades(solutions: seq<Solution>): seq<(int, Order)>
  {
    if solutions == [] then []
    else Trades(solutions[..|solutions| - 1]) + TradesOf(solutions[|solutions| - 1])
  }

  function KeyOf(auction: AuctionId, trade: (int, Order)): TradeKey
  {
    TradeKey(auction, trade.0, trade.1.uid)
  }

  function ExecutionRows(auction: AuctionId, trades: seq<(int, Order)>): (rows: seq<(TradeKey, Executed)>)
    ensures |rows| == |trades|
  {
    seq(|trades|, i requires 0 <= i < |trades| =>
      (KeyOf(auction, trades[i]), Executed(trades[i].1.executedSell, trades[i].1.executedBuy)))
  }

  /** Orders of the order book are left out; they are found in their own table. */
  function SaveJitOrder(table: map<TradeKey, OrderInfo>, book: Book, auction: AuctionId, trade: (int, Order))
    : map<TradeKey, OrderInfo>
  {
    if trade.1.uid in book then table
    else InsertIfAbsent(table, KeyOf(auction, trade), trade.1.info)
  }

  function SaveJitOrders(table: map<TradeKey, OrderInfo>, book: Book, auction: AuctionId, trades: seq<(int, Order)>)
    : map<TradeKey, OrderInfo>
  {
    if trades == [] then table
    else
      SaveJitOrder(SaveJitOrders(table, book, auction, trades[..|trades| - 1]), book, auction, trades[|trades| - 1])
  }

  /**
   The whole `save`. A batch without a single order makes the second statement a VALUES list
   without rows, which the database rejects; the transaction is then rolled back.
   */
  function Save(t: Proposals, book: Book, auction: AuctionId, solutions: seq<Solution>): Result<Proposals, Failure>
  {
    if solutions == [] then Ok(t)
    else if Trades(solutions) == [] then Err(Failure)
    else
      Ok(Proposals(
           InsertAll(t.solutions, SolutionRows(auction, solutions)),
           InsertAll(t.executions, ExecutionRows(auction, Trades(solutions))),
           SaveJitOrders(t.jitOrders, book, auction, Trades(solutions))))
  }

  lemma SaveJitOrdersExtended(table: map<TradeKey, OrderInfo>, book: Book, auction: AuctionId,
                              trades: seq<(int, Order)>, trade: (int, Order))
    ensures SaveJitOrders(table, book, auction, trades + [trade]) ==
            SaveJitOrder(SaveJitOrders(table, book, auction, trades), book, auction, trade)
  {
    assert (trades + [trade])[..|trades|] == trades;
  }

  lemma SaveJitOrderNext(table: map<TradeKey, OrderInfo>, book: Book, auction: AuctionId, before: seq<(int, Order)>,
                         s: Solution, j: nat)
    requires j < |s.orders|
    ensures SaveJitOrders(table, book, auction, before + TradesOf(s)[..j + 1]) ==
            SaveJitOrder(SaveJitOrders(table, book, auction, before + TradesOf(s)[..j]), book, auction,
                         (s.uid, s.orders[j]))
  {
    var mine := TradesOf(s);
    assert before + mine[..j + 1] == before + mine[..j] + [mine[j]];
    SaveJitOrdersExtended(table, book, auction, before + mine[..j], mine[j]);
  }

  class CompetitionStore {
    var solutions: map<SolutionKey, Header>
    var executions: map<TradeKey, Executed>
    var jitOrders: map<TradeKey, OrderInfo>
    var book: Book

    function Snapshot(): Proposals
      reads this
    {
      Proposals(solutions, executions, jitOrders)
    }

    method SaveSolutionHeaders(auction: AuctionId, sols: seq<Solution>)
      modifies this`solutions
      ensures solutions == InsertAll(old(solutions), SolutionRows(auction, sols))
    {
      ghost var rows := SolutionRows(auction, sols);
      for i := 0 to |sols|
        invariant solutions == InsertAll(old(solutions), rows[..i])
      {
        assert rows[..i + 1][..i] == rows[..i];
        var key := SolutionKey(auction, sols[i].uid);
        if key !in solutions { solutions := solutions[key := sols[i].header]; }
      }
      assert rows[..|sols|] == rows;
    }

    method SaveTradeExecutions(auction: AuctionId, sols: seq<Solution>) returns (ok: bool)
      modifies this`executions
      ensures ok == (Trades(sols) != [])
      ensures executions == InsertAll(old(executions), ExecutionRows(auction, Trades(sols)))
    {
      var trades := Trades(sols);
      ok := |trades| > 0;
      ghost var rows := ExecutionRows(auction, trades);
      for i := 0 to |trades|
        invariant executions == InsertAll(old(executions), rows[..i])
      {
        assert rows[..i + 1][..i] == rows[..i];
        var key := KeyOf(auction, trades[i]);
        if key !in executions {
          executions := executions[key := Executed(trades[i].1.executedSell, trades[i].1.executedBuy)];
        }
      }
      assert rows[..|trades|] == rows;
    }

    /** One statement per order, solution after solution. */
    method SaveJitOrderRows(auction: AuctionId, sols: seq<Solution>)
      modifies this`jitOrders
      ensures jitOrders == SaveJitOrders(old(jitOrders), book, auction, Trades(sols))
    {
      for i := 0 to |sols|
        invariant jitOrders == SaveJitOrders(old(jitOrders), book, auction, Trades(sols[..i]))
      {
        SaveJitOrdersOf(auction, sols[i], Trades(sols[..i]), old(jitOrders));
        assert sols[..i + 1][..i] == sols[..i];
      }
      assert sols[..|sols|] == sols;
    }

    method SaveJitOrdersOf(auction: AuctionId, s: Solution, ghost before: seq<(int, Order)>,
                           ghost initial: map<TradeKey, OrderInfo>)
      requires jitOrders == SaveJitOrders(initial, book, auction, before)
      modifies this`jitOrders
      ensures jitOrders == SaveJitOrders(initial, book, auction, before + TradesOf(s))
    {
      assert before + TradesOf(s)[..0] == before;
      for j := 0 to |s.orders|
        invariant jitOrders == SaveJitOrders(initial, book, auction, before + TradesOf(s)[..j])
      {
        SaveJitOrderNext(initial, book, auction, before, s, j);
        var key := TradeKey(auction, s.uid, s.orders[j].uid);
        if s.orders[j].uid !in book && key !in jitOrders {
          jitOrders := jitOrders[key := s.orders[j].info];
        }
      }
      assert TradesOf(s)[..|s.orders|] == TradesOf(s);
    }

    method SaveAll(auction: AuctionId, sols: seq<Solution>) returns (r: Result<(), Failure>)
      modifies this
      ensures book == old(book)
      ensures match Save(old(Snapshot()), book, auction, sols)
              case Ok(t) => r.Ok? && Snapshot() == t
              case Err(_) => r.Err? && Snapshot() == old(Snapshot())
    {
      if sols == [] { return Ok(()); }
      var before := Snapshot();
      SaveSolutionHeaders(auction, sols);
      var ok := SaveTradeExecutions(auction, sols);
      if !ok {
        // the transaction is rolled back
        solutions, executions, jitOrders := before.solutions, before.executions, before.jitOrders;
        return Err(Failure);
      }
      SaveJitOrderRows(auction, sols);
      return Ok(());
    }
  }

  // ------------------------------------------------------------------------------ reading

  datatype Row = Row(uid: int, header: Header, order: Order)

  /** COALESCE(pjo.column, o.column), for all columns at once: both rows have no null columns. */
  function Info(t: Proposals, book: Book, key: TradeKey): Option<OrderInfo>
  {
    if key in t.jitOrders then Some(t.jitOrders[key])
    else if key.order in book then Some(book[key.order])
    else None
  }

  /** Keys of `proposed_trade_executions` that find their solution in the join. */
  function JoinKeys(t: Proposals, auction: AuctionId): set<TradeKey>
  {
    set k | k in t.executions && k.auction == auction && SolutionKey(auction, k.solution) in t.solutions
  }

  predicate Decodes(t: Proposals, book: Book, key: TradeKey)
  {
    key in t.executions && SolutionKey(key.auction, key.solution) in t.solutions && Info(t, book, key).Some?
  }

  function RowAt(t: Proposals, book: Book, key: TradeKey): Row
    requires Decodes(t, book, key)
  {
    Row(key.solution, t.solutions[SolutionKey(key.auction, key.solution)],
        Order(key.order, Info(t, book, key).value, t.executions[key].sell, t.executions[key].buy))
  }

  /** The join in some order: the query has no ORDER BY, so every enumeration is possible. */
  ghost predicate Scans(scan: seq<TradeKey>, keys: set<TradeKey>)
  {
    Distinct(scan) && forall k :: k in scan <==> k in keys
  }

  function Rows(t: Proposals, book: Book, scan: seq<TradeKey>): (rows: seq<Row>)
    requires forall k | k in scan :: Decodes(t, book, k)
    ensures |rows| == |scan|
    ensures forall i | 0 <= i < |scan| :: rows[i] == RowAt(t, book, scan[i])
  {
    seq(|scan|, i requires 0 <= i < |scan| => RowAt(t, book, scan[i]))
  }

  function Uids(rows: seq<Row>): set<int>
  {
    set r | r in rows :: r.uid
  }

  function OrdersOf(rows: seq<Row>, uid: int): (orders: seq<Order>)
  {
    if rows == [] then []
    else
      var last := rows[|rows| - 1];
      OrdersOf(rows[..|rows| - 1], uid) + if last.uid == uid then [last.order] else []
  }

  /** The solution data is taken from the first row of the solution. */
  function HeaderOf(rows: seq<Row>, uid: int): Header
    requires uid in Uids(rows)
  {
    if rows[0].uid == uid then rows[0].header else HeaderOf(rows[1..], uid)
  }

  function GroupOf(rows: seq<Row>, uid: int): Solution
    requires uid in Uids(rows)
  {
    Solution(uid, HeaderOf(rows, uid), OrdersOf(rows, uid))
  }

  function UidOf(s: Solution): int { s.uid }

  /** `r` is the list of groups in ascending order of uid. */
  ghost predicate IsGrouped(rows: seq<Row>, r: seq<Solution>)
  {
    && StrictlySortedBy(r, UidOf)
    && (forall s | s in r :: s.uid in Uids(rows) && s == GroupOf(rows, s.uid))
    && (forall uid | uid in Uids(rows) :: GroupOf(rows, uid) in r)
  }

  lemma {:induction false} HeaderOfAppend(rows: seq<Row>, row: Row, uid: int)
    requires uid in Uids(rows)
    ensures uid in Uids(rows + [row]) && HeaderOf(rows + [row], uid) == HeaderOf(rows, uid)
  {
    var r :| r in rows && r.uid == uid;
    assert r in rows + [row];
    if rows[0].uid != uid {
      assert r in rows[1..];
      assert (rows + [row])[1..] == rows[1..] + [row];
      HeaderOfAppend(rows[1..], row, uid);
    }
  }

  lemma {:induction false} HeaderOfNew(rows: seq<Row>, row: Row)
    requires row.uid !in Uids(rows)
    ensures row.uid in Uids(rows + [row]) && HeaderOf(rows + [row], row.uid) == row.header
  {
    assert row in rows + [row];
    if rows != [] {
      assert rows[0] in rows;
      assert (rows + [row])[1..] == rows[1..] + [row];
      HeaderOfNew(rows[1..], row);
    }
  }

  lemma {:induction false} NoOrdersOf(rows: seq<Row>, uid: int)
    requires uid !in Uids(rows)
    ensures OrdersOf(rows, uid) == []
  {
    if rows != [] {
      assert rows[|rows| - 1] in rows;
      NoOrdersOf(rows[..|rows| - 1], uid);
    }
  }

  /** One pass over the rows, collecting the orders of each solution. */
  method GroupRows(rows: seq<Row>) returns (groups: map<int, Solution>)
    ensures groups.Keys == Uids(rows)
    ensures forall uid | uid in groups :: groups[uid] == GroupOf(rows, uid)
  {
    groups := map[];
    for i := 0 to |rows|
      invariant groups.Keys == Uids(rows[..i])
      invariant forall uid | uid in groups :: groups[uid] == GroupOf(rows[..i], uid)
    {
      var row := rows[i];
      assert rows[..i + 1] == rows[..i] + [row];
      forall uid | uid in Uids(rows[..i])
        ensures uid in Uids(rows[..i + 1]) && HeaderOf(rows[..i + 1], uid) == HeaderOf(rows[..i], uid)
      {
        HeaderOfAppend(rows[..i], row, uid);
      }
      if row.uid !in groups {
        HeaderOfNew(rows[..i], row);
        NoOrdersOf(rows[..i], row.uid);
      }
      var entry := if row.uid in groups then groups[row.uid] else Solution(row.uid, row.header, []);
      groups := groups[row.uid := entry.(orders := entry.orders + [row.order])];
    }
    assert rows[..|rows|] == rows;
  }

  /** The values of a hash map, which come in no particular order, sorted by uid. */
  method SortedGroups(groups: map<int, Solution>) returns (r: seq<Solution>)
    requires forall uid | uid in groups :: groups[uid].uid == uid
    ensures StrictlySortedBy(r, UidOf)
    ensures forall s | s in r :: s.uid in groups && s == groups[s.uid]
    ensures forall uid | uid in groups :: groups[uid] in r
  {
    var todo := groups.Keys;
    r := [];
    while todo != {}
      invariant todo <= groups.Keys
      invariant forall s | s in r :: s.uid in groups.Keys - todo && s == groups[s.uid]
      invariant forall uid | uid in groups.Keys - todo :: groups[uid] in r
      invariant forall i, j | 0 <= i < j < |r| :: r[i].uid != r[j].uid
      decreases |todo|
    {
      ghost var some := HasMember(todo);
      var uid :| uid in todo;
      r := r + [groups[uid]];
      todo := todo - {uid};
    }
    SortDistinct(r);
    r := SortBy(r, UidOf);
  }

  method MapRowsToSolutions(rows: seq<Row>) returns (r: seq<Solution>)
    ensures IsGrouped(rows, r)
  {
    var groups := GroupRows(rows);
    r := SortedGroups(groups);
  }

  lemma SortDistinct(s: seq<Solution>)
    requires forall i, j | 0 <= i < j < |s| :: s[i].uid != s[j].uid
    ensures StrictlySortedBy(SortBy(s, UidOf), UidOf)
    ensures forall x :: x in SortBy(s, UidOf) <==> x in s
  {
    SortByPermutes(s, UidOf);
    SortByStrictly(s, UidOf);
  }
}

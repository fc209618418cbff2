/**
 Which settlement a trade belongs to. Three queries answer this in two ways: one looks for the next
 settlement after the trade in its block, the others for all trades between a settlement and the
 one before it.
 */
module Attribution {
  import opened Common

  datatype Trade = Trade(uid: OrderUid, buyAmount: int, sellAmount: int, feeAmount: int)

  datatype Settlement = Settlement(txHash: Hash, auctionId: Option<AuctionId>)

  datatype Events = Events(trades: map<Index, Trade>, settlements: map<Index, Settlement>)

  // ------------------------------------------------------ the settlement after a trade

  /** `s` is the settlement with the least log index after `t` in the same block. */
  ghost predicate IsNext(settlements: map<Index, Settlement>, t: Index, s: Index)
  {
    && s in settlements && s.block == t.block && s.log > t.log
    && forall r | r in settlements && r.block == t.block && r.log > t.log :: s.log <= r.log
  }

  /** The lateral lookup of a trade's settlement. */
  ghost function NextSettlement(settlements: map<Index, Settlement>, t: Index): Option<Index>
  {
    if s :| IsNext(settlements, t, s) then Some(s) else None
  }

  predicate After(settlements: map<Index, Settlement>, t: Index, s: Index)
  {
    s in settlements && s.block == t.block && s.log > t.log
  }

  lemma LeastExists(later: set<Index>) returns (least: Index)
    requires later != {}
    ensures least in later && forall r | r in later :: least.log <= r.log
  {
    least :| least in later;
    if later != {least} {
      var other := LeastExists(later - {least});
      if other.log < least.log { least := other; }
    }
  }

  /** The lookup finds a settlement exactly if the block has a later one, and then the next one. */
  lemma NextSettlementFinds(settlements: map<Index, Settlement>, t: Index)
    ensures NextSettlement(settlements, t).None? <==> forall s | s in settlements :: !After(settlements, t, s)
    ensures forall s :: NextSettlement(settlements, t) == Some(s) <==> IsNext(settlements, t, s)
  {
    if s :| After(settlements, t, s) {
      var later := set r | r in settlements && After(settlements, t, r);
      assert s in later;
      var least := LeastExists(later);
      assert forall r | r in settlements && r.block == t.block && r.log > t.log :: r in later;
      assert IsNext(settlements, t, least);
    }
    forall s, r | IsNext(settlements, t, s) && IsNext(settlements, t, r)
      ensures s == r
    {
    }
  }

  // -------------------------------------------------- the trades before a settlement

  predicate Before(settlements: map<Index, Settlement>, s: Index, r: Index)
  {
    r in settlements && r.block == s.block && r.log < s.log
  }

  /** The log index of the settlement before `s` in its block, or zero. */
  ghost predicate IsLowerBound(settlements: map<Index, Settlement>, s: Index, low: int)
  {
    if exists r :: Before(settlements, s, r) then
      && (exists r :: Before(settlements, s, r) && r.log == low)
      && (forall r | Before(settlements, s, r) :: r.log <= low)
    else low == 0
  }

  ghost function LowerBound(settlements: map<Index, Settlement>, s: Index): (low: int)
    ensures IsLowerBound(settlements, s, low)
  {
    LowerBoundExists(settlements, s);
    var low :| IsLowerBound(settlements, s, low);
    low
  }

  lemma GreatestExists(earlier: set<Index>) returns (greatest: Index)
    requires earlier != {}
    ensures greatest in earlier && forall r | r in earlier :: r.log <= greatest.log
  {
    greatest :| greatest in earlier;
    if earlier != {greatest} {
      var other := GreatestExists(earlier - {greatest});
      if other.log > greatest.log { greatest := other; }
    }
  }

  lemma LowerBoundExists(settlements: map<Index, Settlement>, s: Index)
    ensures exists low :: IsLowerBound(settlements, s, low)
  {
    if r :| Before(settlements, s, r) {
      var earlier := set q | q in settlements && Before(settlements, s, q);
      assert r in earlier;
      var greatest := GreatestExists(earlier);
      assert Before(settlements, s, greatest);
      forall q | Before(settlements, s, q)
        ensures q.log <= greatest.log
      {
        assert q in earlier;
      }
      assert IsLowerBound(settlements, s, greatest.log);
    } else {
      assert IsLowerBound(settlements, s, 0);
    }
  }

  /** Both ends of the range are inclusive. */
  ghost predicate InRange(db: Events, s: Index, t: Index)
  {
    t in db.trades && t.block == s.block && LowerBound(db.settlements, s) <= t.log <= s.log
  }

  ghost function TradesForSettlement(db: Events, s: Index): set<Index>
  {
    set t | t in db.trades && InRange(db, s, t)
  }

  // -------------------------------------------------------------------- the two agree

  ghost predicate LogsNonNegative(db: Events)
  {
    forall t | t in db.trades :: t.log >= 0
  }

  ghost predicate AttributionsAgree(db: Events)
  {
    forall t, s | t in db.trades && s in db.settlements ::
      t in TradesForSettlement(db, s) <==> NextSettlement(db.settlements, t) == Some(s)
  }

  lemma InRangeIsNext(db: Events, t: Index, s: Index)
    requires LogsNonNegative(db) && t in db.trades && s in db.settlements && t !in db.settlements
    ensures InRange(db, s, t) <==> IsNext(db.settlements, t, s)
  {
    var low := LowerBound(db.settlements, s);
    if IsNext(db.settlements, t, s) {
      forall r | Before(db.settlements, s, r)
        ensures r.log <= t.log
      {
      }
    }
    if InRange(db, s, t) {
      forall r | r in db.settlements && r.block == t.block && r.log > t.log
        ensures s.log <= r.log
      {
        assert r.log < s.log <==> Before(db.settlements, s, r);
      }
      assert t != s && t.log < s.log;
    }
  }

  /** The two ways agree exactly if no trade has the position of a settlement. */
  lemma AttributionsAgreeIff(db: Events)
    requires LogsNonNegative(db)
    ensures AttributionsAgree(db) <==> db.trades.Keys !! db.settlements.Keys
  {
    if db.trades.Keys !! db.settlements.Keys {
      forall t, s | t in db.trades && s in db.settlements
        ensures t in TradesForSettlement(db, s) <==> NextSettlement(db.settlements, t) == Some(s)
      {
        InRangeIsNext(db, t, s);
        NextSettlementFinds(db.settlements, t);
      }
    } else {
      var s :| s in db.trades.Keys && s in db.settlements.Keys;
      NextSettlementFinds(db.settlements, s);
      var low := LowerBound(db.settlements, s);
      assert s in TradesForSettlement(db, s);
    }
  }

  /** A trade at the very position of a settlement is attributed to both ends. */
  lemma SharedPositionIsAttributedTwice(db: Events, s: Index)
    requires LogsNonNegative(db) && s in db.trades && s in db.settlements
    ensures s in TradesForSettlement(db, s)
    ensures forall r | IsNext(db.settlements, s, r) :: s in TradesForSettlement(db, r)
  {
    var low := LowerBound(db.settlements, s);
    forall r | IsNext(db.settlements, s, r)
      ensures s in TradesForSettlement(db, r)
    {
      assert Before(db.settlements, r, s);
      forall q | Before(db.settlements, r, q)
        ensures q.log <= s.log
      {
      }
      var l := LowerBound(db.settlements, r);
      assert l == s.log;
    }
  }

  /** Settlements share out the trades that are followed by a settlement in their block. */
  lemma SettlementsPartitionTrades(db: Events)
    requires LogsNonNegative(db) && db.trades.Keys !! db.settlements.Keys
    ensures forall s, r | s in db.settlements && r in db.settlements && s != r ::
              TradesForSettlement(db, s) !! TradesForSettlement(db, r)
    ensures forall t | t in db.trades ::
              (exists s :: s in db.settlements && t in TradesForSettlement(db, s)) <==>
              (exists s :: After(db.settlements, t, s))
  {
    AttributionsAgreeIff(db);
    forall s, r | s in db.settlements && r in db.settlements && s != r
      ensures TradesForSettlement(db, s) !! TradesForSettlement(db, r)
    {
      forall t | t in TradesForSettlement(db, s)
        ensures t !in TradesForSettlement(db, r)
      {
        assert NextSettlement(db.settlements, t) == Some(s);
      }
    }
    forall t | t in db.trades
      ensures (exists s :: s in db.settlements && t in TradesForSettlement(db, s)) <==>
              (exists s :: After(db.settlements, t, s))
    {
      NextSettlementFinds(db.settlements, t);
      if s :| s in db.settlements && t in TradesForSettlement(db, s) {
        assert IsNext(db.settlements, t, s);
        assert After(db.settlements, t, s);
      }
      if s :| After(db.settlements, t, s) {
        var next := NextSettlement(db.settlements, t).value;
        assert IsNext(db.settlements, t, next);
        assert next in db.settlements && t in TradesForSettlement(db, next);
      }
    }
  }

  // ------------------------------------------------------- the orders of a transaction

  ghost function SettlementsOfTx(db: Events, tx: Hash): set<Index>
  {
    set s | s in db.settlements && db.settlements[s].txHash == tx
  }

  /** The trades whose orders are returned; the query fails if the transaction settled more than once. */
  ghost function OrdersInTx(db: Events, orders: set<OrderUid>, tx: Hash): Result<set<Index>, Failure>
  {
    var found := SettlementsOfTx(db, tx);
    if |found| > 1 then Err(Failure)
    else if found == {} then Ok({})
    else
      var s :| s in found;
      Ok(set t | t in TradesForSettlement(db, s) && t in db.trades && db.trades[t].uid in orders)
  }

  /** The trade is followed in its block by a settlement of the transaction, with no other settlement in between. */
  ghost predicate SettledIn(db: Events, t: Index, tx: Hash)
  {
    exists s :: IsNext(db.settlements, t, s) && db.settlements[s].txHash == tx
  }

  /** For a transaction with one settlement these are the trades that the lateral lookup gives it. */
  lemma OrdersInTxAreAttributed(db: Events, orders: set<OrderUid>, tx: Hash, s: Index)
    requires LogsNonNegative(db) && db.trades.Keys !! db.settlements.Keys
    requires s in db.settlements && db.settlements[s].txHash == tx
    requires forall r | r in db.settlements && db.settlements[r].txHash == tx :: r == s
    ensures OrdersInTx(db, orders, tx).Ok?
    ensures forall t | t in db.trades ::
              t in OrdersInTx(db, orders, tx).value <==> db.trades[t].uid in orders && SettledIn(db, t, tx)
    ensures forall t | t in db.trades :: SettledIn(db, t, tx) <==> NextSettlement(db.settlements, t) == Some(s)
  {
    AttributionsAgreeIff(db);
    assert SettlementsOfTx(db, tx) == {s};
    forall t | t in db.trades
      ensures SettledIn(db, t, tx) <==> NextSettlement(db.settlements, t) == Some(s)
    {
      NextSettlementFinds(db.settlements, t);
    }
  }

  /** A transaction without a settlement has no orders, and for one with several the query fails. */
  lemma OrdersInTxFailsIff(db: Events, orders: set<OrderUid>, tx: Hash)
    ensures OrdersInTx(db, orders, tx).Err? <==>
            exists s, r :: s in db.settlements && r in db.settlements && s != r
                           && db.settlements[s].txHash == tx == db.settlements[r].txHash
    ensures (forall s | s in db.settlements :: db.settlements[s].txHash != tx) ==> OrdersInTx(db, orders, tx) == Ok({})
  {
    var found := SettlementsOfTx(db, tx);
    if |found| > 1 {
      var s :| s in found;
      assert |found - {s}| > 0;
      var r :| r in found - {s};
    }
    if s, r :| && s in db.settlements && r in db.settlements && s != r
               && db.settlements[s].txHash == tx == db.settlements[r].txHash
    {
      assert {s, r} <= found;
      assert found == {s, r} + (found - {s, r});
    }
  }
}

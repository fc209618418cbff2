/**
 What the in-flight query answers over whole runs of the auction protocol: exactly the orders of wins
 that are stored, not yet past their deadline and not settled.
 */
module OrdersInFlight {
  import opened Common
  import opened Tables
  import opened SolverCompetition
  import opened AuctionProtocol

  /** A bid that won, as the competition of its auction stored it. */
  datatype Win = Win(auction: AuctionId, solution: int, orders: set<OrderUid>, deadline: int)

  predicate StoresCompetition(s: State, step: Step)
  {
    step.Compete? && step.i in s.nodes && s.nodes[step.i].solving.Some? && step.auctionSaved && step.solutionsSaved
  }

  /** The wins a step stores. */
  function NewWins(s: State, submissionDeadline: nat, step: Step): set<Win>
  {
    if !StoresCompetition(s, step) then {}
    else
      var id, deadline := s.nodes[step.i].solving.value.auction.id, s.nodes[step.i].current + submissionDeadline;
      set k | 0 <= k < |step.bids| && step.bids[k].header.isWinner ::
        Win(id, k, OrderIds(step.bids[k].orders), deadline)
  }

  function Wins(s: State, submissionDeadline: nat, steps: seq<Step>): set<Win>
    decreases |steps|
  {
    if steps == [] then {}
    else
      NewWins(s, submissionDeadline, steps[0]) +
      Wins(Next(s, submissionDeadline, steps[0]), submissionDeadline, steps[1..])
  }

  /** A settlement of the win has been recorded, and not been reverted since. */
  ghost predicate IsSettled(settlements: map<Index, SettlementRow>, w: Win)
  {
    exists at :: at in settlements && settlements[at] == SettlementRow(Some(w.auction), Some(w.solution))
  }

  /** The win may still be executed on chain at that block, and the order with it. */
  ghost predicate MayExecute(db: Database, w: Win, uid: OrderUid, block: int)
  {
    uid in w.orders && w.deadline > block && !IsSettled(db.settlements, w)
  }

  // ------------------------------------------------------------------ tables and wins

  function TradeOf(w: Win, uid: OrderUid): TradeKey
  {
    TradeKey(w.auction, w.solution, uid)
  }

  predicate WinStored(db: Database, w: Win)
  {
    && w.auction in db.deadlines && db.deadlines[w.auction] == w.deadline
    && SolutionKey(w.auction, w.solution) in db.proposals.solutions
    && db.proposals.solutions[SolutionKey(w.auction, w.solution)].isWinner
    && forall uid | uid in w.orders :: TradeOf(w, uid) in db.proposals.executions
  }

  /** The trade belongs to a stored winning solution of a stored auction. */
  predicate IsWinningTrade(db: Database, key: TradeKey)
  {
    && key in db.proposals.executions && key.auction in db.deadlines
    && SolutionKey(key.auction, key.solution) in db.proposals.solutions
    && db.proposals.solutions[SolutionKey(key.auction, key.solution)].isWinner
  }

  ghost predicate Accounted(wins: set<Win>, key: TradeKey)
  {
    exists w :: w in wins && w.auction == key.auction && w.solution == key.solution && key.order in w.orders
  }

  /** The tables hold these wins and no others; a win without orders leaves no trace. */
  ghost predicate Holds(db: Database, wins: set<Win>)
  {
    && (forall w | w in wins && w.orders != {} :: WinStored(db, w))
    && (forall key | IsWinningTrade(db, key) :: Accounted(wins, key))
  }

  lemma SettledIff(db: Database, w: Win)
    ensures IsSettled(db.settlements, w) <==> SolutionKey(w.auction, w.solution) in SettledKeys(db)
  {
  }

  /** For tables that hold some wins, the query returns the orders of those that may still execute. */
  lemma InFlightIff(db: Database, wins: set<Win>, block: int, uid: OrderUid)
    requires Holds(db, wins)
    ensures uid in InFlightOrders(db, block) <==> exists w :: w in wins && MayExecute(db, w, uid, block)
  {
    if uid in InFlightOrders(db, block) {
      var key :| key in db.proposals.executions && TradeInFlight(db, key, block) && key.order == uid;
      assert IsWinningTrade(db, key);
      var w :| w in wins && w.auction == key.auction && w.solution == key.solution && key.order in w.orders;
      SettledIff(db, w);
      assert WinStored(db, w) && MayExecute(db, w, uid, block);
    }
    if w :| w in wins && MayExecute(db, w, uid, block) {
      SettledIff(db, w);
      assert WinStored(db, w) && TradeOf(w, uid) in db.proposals.executions;
      assert TradeInFlight(db, TradeOf(w, uid), block);
    }
  }

  // --------------------------------------------------------------- what the steps store

  lemma {:induction false} TradeComesFrom(solutions: seq<Solution>, trade: (int, Order)) returns (i: nat)
    requires trade in Trades(solutions)
    ensures i < |solutions| && solutions[i].uid == trade.0 && trade.1 in solutions[i].orders
  {
    var init, last := solutions[..|solutions| - 1], solutions[|solutions| - 1];
    if trade in Trades(init) {
      i := TradeComesFrom(init, trade);
    } else {
      assert trade in TradesOf(last);
      i := |init|;
    }
  }

  /** A new trade row is that of an order of the bid with its rank. */
  lemma SavedTrade(p: Proposals, book: Book, id: AuctionId, bids: seq<Bid>, p': Proposals, key: TradeKey)
    requires Save(p, book, id, Numbered(bids)) == Ok(p') && key in p'.executions && key !in p.executions
    ensures key.auction == id && 0 <= key.solution < |bids| && key.order in OrderIds(bids[key.solution].orders)
  {
    var trades := Trades(Numbered(bids));
    InsertAllKeys(p.executions, ExecutionRows(id, trades));
    var row :| row in ExecutionRows(id, trades) && row.0 == key;
    var j :| 0 <= j < |trades| && ExecutionRows(id, trades)[j] == row;
    var i := TradeComesFrom(Numbered(bids), trades[j]);
  }

  lemma OldWinsStay(s: State, submissionDeadline: nat, c: Step, cut: Cut, w: Win)
    requires c.Compete? && c.i in s.nodes && Unused(s.db, cut.auction.id) && WinStored(s.db, w)
    ensures WinStored(CompeteStep(s, submissionDeadline, c, cut).db, w)
  {
    var saved := Save(s.db.proposals, c.book, cut.auction.id, Numbered(c.bids));
    if saved.Ok? { SaveKeeps(s.db.proposals, c.book, cut.auction.id, Numbered(c.bids), saved.value); }
  }

  lemma NewWinsAreStored(s: State, submissionDeadline: nat, c: Step, cut: Cut, w: Win)
    requires c.Compete? && c.i in s.nodes && s.nodes[c.i].solving == Some(cut) && Unused(s.db, cut.auction.id)
    requires w in NewWins(s, submissionDeadline, c) && w.orders != {}
    ensures WinStored(CompeteStep(s, submissionDeadline, c, cut).db, w)
  {
    var bids := c.bids;
    var o :| o in bids[w.solution].orders;
    TradeListed(Numbered(bids), w.solution, o);
    var saved := Save(s.db.proposals, c.book, cut.auction.id, Numbered(bids));
    SaveStores(s.db.proposals, c.book, cut.auction.id, bids, saved.value, w.solution);
  }

  lemma NewTradesAreWins(s: State, submissionDeadline: nat, c: Step, cut: Cut, key: TradeKey)
    requires c.Compete? && c.i in s.nodes && s.nodes[c.i].solving == Some(cut) && Unused(s.db, cut.auction.id)
    requires IsWinningTrade(CompeteStep(s, submissionDeadline, c, cut).db, key) && !IsWinningTrade(s.db, key)
    ensures Accounted(NewWins(s, submissionDeadline, c), key)
  {
    var id, bids, p := cut.auction.id, c.bids, s.db.proposals;
    var saved := Save(p, c.book, id, Numbered(bids));
    SaveKeeps(p, c.book, id, Numbered(bids), saved.value);
    SavedTrade(p, c.book, id, bids, saved.value, key);
    SaveStores(p, c.book, id, bids, saved.value, key.solution);
    var w := Win(id, key.solution, OrderIds(bids[key.solution].orders), s.nodes[c.i].current + submissionDeadline);
    assert w in NewWins(s, submissionDeadline, c);
  }

  lemma CompeteHolds(s: State, submissionDeadline: nat, c: Step, cut: Cut, wins: set<Win>)
    requires c.Compete? && c.i in s.nodes && s.nodes[c.i].solving == Some(cut) && Unused(s.db, cut.auction.id)
    requires Holds(s.db, wins)
    ensures Holds(CompeteStep(s, submissionDeadline, c, cut).db, wins + NewWins(s, submissionDeadline, c))
  {
    var db', won := CompeteStep(s, submissionDeadline, c, cut).db, NewWins(s, submissionDeadline, c);
    forall w | w in wins + won && w.orders != {}
      ensures WinStored(db', w)
    {
      if w in wins {
        OldWinsStay(s, submissionDeadline, c, cut, w);
      } else {
        NewWinsAreStored(s, submissionDeadline, c, cut, w);
      }
    }
    forall key | IsWinningTrade(db', key)
      ensures Accounted(wins + won, key)
    {
      if !IsWinningTrade(s.db, key) {
        NewTradesAreWins(s, submissionDeadline, c, cut, key);
      }
    }
  }

  lemma StepHolds(s: State, submissionDeadline: nat, step: Step, wins: set<Win>)
    requires Inv(s) && Holds(s.db, wins)
    ensures Holds(Next(s, submissionDeadline, step).db, wins + NewWins(s, submissionDeadline, step))
  {
    if step.Compete? && step.i in s.nodes && s.nodes[step.i].solving.Some? {
      assert NodeInv(s, s.nodes[step.i]);
      CompeteHolds(s, submissionDeadline, step, s.nodes[step.i].solving.value, wins);
    } else {
      var db, db' := s.db, Next(s, submissionDeadline, step).db;
      assert db'.deadlines == db.deadlines && db'.proposals == db.proposals;
      assert wins + NewWins(s, submissionDeadline, step) == wins;
      forall w | w in wins && w.orders != {}
        ensures WinStored(db', w)
      {
        assert WinStored(db, w);
      }
      forall key | IsWinningTrade(db', key)
        ensures Accounted(wins, key)
      {
        assert IsWinningTrade(db, key);
      }
    }
  }

  lemma {:induction false} RunHolds(s: State, submissionDeadline: nat, steps: seq<Step>, wins: set<Win>)
    requires Inv(s) && Holds(s.db, wins)
    ensures Holds(Run(s, submissionDeadline, steps).db, wins + Wins(s, submissionDeadline, steps))
    decreases |steps|
  {
    if steps == [] {
      assert wins + {} == wins;
    } else {
      var s', won := Next(s, submissionDeadline, steps[0]), NewWins(s, submissionDeadline, steps[0]);
      StepKeepsInv(s, submissionDeadline, steps[0]);
      StepHolds(s, submissionDeadline, steps[0], wins);
      RunHolds(s', submissionDeadline, steps[1..], wins + won);
      assert wins + won + Wins(s', submissionDeadline, steps[1..]) == wins + Wins(s, submissionDeadline, steps);
    }
  }

  // ------------------------------------------------------------------------- guarantees

  /**
   In every run, from tables that hold some wins: the query returns an order if and only if one of these
   wins or of those stored in the run has the order, a deadline after the block and no settlement.
   */
  lemma InFlightAreUnsettledWins(s0: State, submissionDeadline: nat, steps: seq<Step>, before: set<Win>, block: int,
                                 uid: OrderUid)
    requires Inv(s0) && Holds(s0.db, before)
    ensures
      var s, wins := Run(s0, submissionDeadline, steps), before + Wins(s0, submissionDeadline, steps);
      uid in InFlightOrders(s.db, block) <==> exists w :: w in wins && MayExecute(s.db, w, uid, block)
  {
    RunHolds(s0, submissionDeadline, steps, before);
    InFlightIff(Run(s0, submissionDeadline, steps).db, before + Wins(s0, submissionDeadline, steps), block, uid);
  }

  /** Empty tables hold no wins. */
  lemma EmptyHoldsNone(db: Database)
    requires db.proposals.executions == map[]
    ensures Holds(db, {})
  {
  }

  /** All tables hold some wins: one for each winning trade. */
  ghost function WinsIn(db: Database): (wins: set<Win>)
    ensures Holds(db, wins)
  {
    var wins := set key | key in db.proposals.executions && IsWinningTrade(db, key) ::
                  Win(key.auction, key.solution, {key.order}, db.deadlines[key.auction]);
    assert forall key | IsWinningTrade(db, key) :: Accounted(wins, key) by {
      forall key | IsWinningTrade(db, key)
        ensures Accounted(wins, key)
      {
        assert Win(key.auction, key.solution, {key.order}, db.deadlines[key.auction]) in wins;
      }
    }
    wins
  }

  lemma InFlightAfter(db: Database, db': Database, wins: set<Win>, won: set<Win>, block: int, uid: OrderUid)
    requires Holds(db, wins) && Holds(db', wins + won) && db'.settlements == db.settlements
    ensures uid in InFlightOrders(db', block) <==>
            uid in InFlightOrders(db, block) || exists w :: w in won && MayExecute(db, w, uid, block)
  {
    InFlightIff(db, wins, block, uid);
    InFlightIff(db', wins + won, block, uid);
    assert forall w :: MayExecute(db', w, uid, block) <==> MayExecute(db, w, uid, block);
  }

  lemma CompeteLeavesSettlements(s: State, submissionDeadline: nat, c: Step)
    requires c.Compete?
    ensures Next(s, submissionDeadline, c).db.settlements == s.db.settlements
  {
  }

  /** Whatever fails while it is stored, a competition puts the orders of its stored wins in flight and no others. */
  lemma CompeteAddsWinners(s: State, submissionDeadline: nat, c: Step, block: int, uid: OrderUid)
    requires Inv(s) && c.Compete?
    ensures uid in InFlightOrders(Next(s, submissionDeadline, c).db, block) <==>
            || uid in InFlightOrders(s.db, block)
            || exists w :: w in NewWins(s, submissionDeadline, c) && MayExecute(s.db, w, uid, block)
  {
    var wins := WinsIn(s.db);
    StepHolds(s, submissionDeadline, c, wins);
    CompeteLeavesSettlements(s, submissionDeadline, c);
    InFlightAfter(s.db, Next(s, submissionDeadline, c).db, wins, NewWins(s, submissionDeadline, c), block, uid);
  }

  /** So an order that no winning bid has is still offered by the next cut. */
  lemma LosersAreOffered(s: State, submissionDeadline: nat, c: Step, raw: RawAuction, uid: OrderUid)
    requires Inv(s) && c.Compete?
    requires uid in AuctionProtocol.Uids(raw.orders) && uid !in InFlightOrders(s.db, raw.block)
    requires forall bid | bid in c.bids && bid.header.isWinner :: uid !in OrderIds(bid.orders)
    ensures uid in AuctionProtocol.Uids(CutNow(Next(s, submissionDeadline, c), raw, true).auction.data.orders)
  {
    CompeteAddsWinners(s, submissionDeadline, c, raw.block, uid);
    assert forall w | w in NewWins(s, submissionDeadline, c) :: uid !in w.orders;
  }

  /** And the next cut leaves out the orders of a stored winning bid, unless it is settled or out of time by then. */
  lemma WinnersAreNotOffered(s: State, submissionDeadline: nat, c: Step, k: nat, raw: RawAuction, uid: OrderUid)
    requires Inv(s) && StoresCompetition(s, c)
    requires k < |c.bids| && c.bids[k].header.isWinner && uid in OrderIds(c.bids[k].orders)
    requires SolutionKey(s.nodes[c.i].solving.value.auction.id, k) !in SettledKeys(s.db)
    requires raw.block < s.nodes[c.i].current + submissionDeadline
    ensures uid !in AuctionProtocol.Uids(CutNow(Next(s, submissionDeadline, c), raw, true).auction.data.orders)
  {
    var id, deadline := s.nodes[c.i].solving.value.auction.id, s.nodes[c.i].current + submissionDeadline;
    var w := Win(id, k, OrderIds(c.bids[k].orders), deadline);
    assert w in NewWins(s, submissionDeadline, c);
    SettledIff(s.db, w);
    CompeteAddsWinners(s, submissionDeadline, c, raw.block, uid);
    assert MayExecute(s.db, w, uid, raw.block);
  }

  /**
   Recording a settlement takes the orders of its win out, and the deadline does so too, unless another
   win has them that is neither settled nor out of time.
   */
  lemma SettlementReleases(s0: State, submissionDeadline: nat, steps: seq<Step>, before: set<Win>, w: Win, at: Index,
                           block: int, uid: OrderUid)
    requires Inv(s0) && Holds(s0.db, before)
    requires w in before + Wins(s0, submissionDeadline, steps) && uid in w.orders
    ensures
      var s, wins := Run(s0, submissionDeadline, steps), before + Wins(s0, submissionDeadline, steps);
      var s' := Next(s, submissionDeadline, RecordSettlement(at, SettlementRow(Some(w.auction), Some(w.solution))));
      && (at !in s.db.settlements ==>
            (uid in InFlightOrders(s'.db, block) <==>
             exists v :: v in wins && (v.auction, v.solution) != (w.auction, w.solution)
                         && MayExecute(s.db, v, uid, block)))
      && (block >= w.deadline ==>
            (uid in InFlightOrders(s.db, block) <==>
             exists v :: v in wins && v != w && MayExecute(s.db, v, uid, block)))
  {
    var s, wins := Run(s0, submissionDeadline, steps), before + Wins(s0, submissionDeadline, steps);
    var row := SettlementRow(Some(w.auction), Some(w.solution));
    var s' := Next(s, submissionDeadline, RecordSettlement(at, row));
    RunKeepsInv(s0, submissionDeadline, steps);
    RunHolds(s0, submissionDeadline, steps, before);
    InFlightIff(s.db, wins, block, uid);
    StepHolds(s, submissionDeadline, RecordSettlement(at, row), wins);
    assert wins + {} == wins;
    InFlightIff(s'.db, wins, block, uid);
    if at !in s.db.settlements {
      forall v | v in wins
        ensures IsSettled(s'.db.settlements, v) <==>
                IsSettled(s.db.settlements, v) || (v.auction, v.solution) == (w.auction, w.solution)
      {
        RowSettles(s.db.settlements, at, row, v);
      }
    }
  }

  lemma RowSettles(settlements: map<Index, SettlementRow>, at: Index, row: SettlementRow, v: Win)
    requires at !in settlements
    ensures IsSettled(settlements[at := row], v) <==>
            IsSettled(settlements, v) || row == SettlementRow(Some(v.auction), Some(v.solution))
  {
    var after := settlements[at := row];
    if i :| i in settlements && settlements[i] == SettlementRow(Some(v.auction), Some(v.solution)) {
      assert i in after && after[i] == settlements[i];
    }
    assert at in after && after[at] == row;
  }
}

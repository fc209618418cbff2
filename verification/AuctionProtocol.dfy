/**
 The auction run loops of any number of autopilot instances as a protocol: blocks arrive, a cached
 auction is cut without the orders in flight, the competition is stored, settlements are started with
 a block deadline and later observed on chain. The steps interleave freely except where a loop itself
 waits for one before it takes the next.
 */
module AuctionProtocol {
  import opened Common
  import opened Tables
  import opened SolverCompetition

  datatype AuctionOrder = AuctionOrder(uid: OrderUid, details: nat)

  datatype RawAuction = RawAuction(
    block: nat, orders: seq<AuctionOrder>, prices: map<Address, nat>, jitOwners: seq<Address>)

  /** Auctions compare equal when everything but the id is equal. */
  datatype Auction = Auction(id: AuctionId, data: RawAuction)

  function Uids(orders: seq<AuctionOrder>): set<OrderUid>
  {
    set o | o in orders :: o.uid
  }

  // ---------------------------------------------------------------- the in-flight query

  datatype SettlementRow = SettlementRow(auction: Option<AuctionId>, solution: Option<int>)

  datatype Database = Database(
    deadlines: map<AuctionId, int>, // competition_auctions
    proposals: Proposals,
    settlements: map<Index, SettlementRow>)

  function SettledKeys(db: Database): set<SolutionKey>
  {
    set i | i in db.settlements && db.settlements[i].auction.Some? && db.settlements[i].solution.Some?
      :: SolutionKey(db.settlements[i].auction.value, db.settlements[i].solution.value)
  }

  predicate TradeInFlight(db: Database, key: TradeKey, block: int)
  {
    var solution := SolutionKey(key.auction, key.solution);
    && key.auction in db.deadlines && db.deadlines[key.auction] > block
    && solution in db.proposals.solutions && db.proposals.solutions[solution].isWinner
    && solution !in SettledKeys(db)
  }

  function InFlightOrders(db: Database, block: int): set<OrderUid>
  {
    set key | key in db.proposals.executions && TradeInFlight(db, key, block) :: key.order
  }

  // --------------------------------------------------------- removing orders in flight

  function IdleOrders(orders: seq<AuctionOrder>, inFlight: set<OrderUid>): (idle: seq<AuctionOrder>)
    ensures forall o :: o in idle <==> o in orders && o.uid !in inFlight
  {
    if orders == [] then []
    else
      var last := orders[|orders| - 1];
      IdleOrders(orders[..|orders| - 1], inFlight) + if last.uid in inFlight then [] else [last]
  }

  function IdleOwners(owners: seq<Address>, inFlight: set<OrderUid>): (idle: seq<Address>)
    ensures forall a :: a in idle <==> a in owners && forall uid | uid in inFlight :: uid.owner != a
  {
    if owners == [] then []
    else
      var last := owners[|owners| - 1];
      IdleOwners(owners[..|owners| - 1], inFlight) +
      if exists uid :: uid in inFlight && uid.owner == last then [] else [last]
  }

  function WithoutInFlight(auction: RawAuction, inFlight: set<OrderUid>): RawAuction
  {
    auction.(orders := IdleOrders(auction.orders, inFlight), jitOwners := IdleOwners(auction.jitOwners, inFlight))
  }

  /** What is kept of a list is in the order of the list. */
  ghost predicate InOrderOf<T(!new)>(kept: seq<T>, all: seq<T>)
  {
    kept == [] || exists i :: IsLastAt(kept, all, i) && InOrderOf(kept[..|kept| - 1], all[..i])
  }

  ghost predicate IsLastAt<T(!new)>(kept: seq<T>, all: seq<T>, i: int)
    requires kept != []
  {
    0 <= i < |all| && all[i] == kept[|kept| - 1]
  }

  lemma {:induction false} LongerListKeeps<T(!new)>(kept: seq<T>, all: seq<T>, last: T)
    requires InOrderOf(kept, all)
    ensures InOrderOf(kept, all + [last]) && InOrderOf(kept + [last], all + [last])
  {
    var longer := all + [last];
    if kept != [] {
      var i :| IsLastAt(kept, all, i) && InOrderOf(kept[..|kept| - 1], all[..i]);
      assert longer[..i] == all[..i] && IsLastAt(kept, longer, i);
    }
    assert (kept + [last])[..|kept|] == kept && longer[..|all|] == all;
    assert IsLastAt(kept + [last], longer, |all|);
  }

  lemma {:induction false} IdleOrdersInOrder(orders: seq<AuctionOrder>, inFlight: set<OrderUid>)
    ensures InOrderOf(IdleOrders(orders, inFlight), orders)
  {
    if orders != [] {
      var init, last := orders[..|orders| - 1], orders[|orders| - 1];
      IdleOrdersInOrder(init, inFlight);
      LongerListKeeps(IdleOrders(init, inFlight), init, last);
      assert orders == init + [last];
      assert IdleOrders(init, inFlight) + [] == IdleOrders(init, inFlight);
    }
  }

  lemma {:induction false} IdleOrdersCounted(orders: seq<AuctionOrder>, inFlight: set<OrderUid>, o: AuctionOrder)
    ensures multiset(IdleOrders(orders, inFlight))[o] == if o.uid in inFlight then 0 else multiset(orders)[o]
  {
    if orders != [] {
      IdleOrdersCounted(orders[..|orders| - 1], inFlight, o);
      assert orders == orders[..|orders| - 1] + [orders[|orders| - 1]];
    }
  }

  lemma {:induction false} IdleOwnersInOrder(owners: seq<Address>, inFlight: set<OrderUid>)
    ensures InOrderOf(IdleOwners(owners, inFlight), owners)
  {
    if owners != [] {
      var init, last := owners[..|owners| - 1], owners[|owners| - 1];
      IdleOwnersInOrder(init, inFlight);
      LongerListKeeps(IdleOwners(init, inFlight), init, last);
      assert owners == init + [last];
      assert IdleOwners(init, inFlight) + [] == IdleOwners(init, inFlight);
    }
  }

  ghost predicate OwnsOneOf(a: Address, inFlight: set<OrderUid>)
  {
    exists uid :: uid in inFlight && uid.owner == a
  }

  lemma {:induction false} IdleOwnersCounted(owners: seq<Address>, inFlight: set<OrderUid>, a: Address)
    ensures multiset(IdleOwners(owners, inFlight))[a] == if OwnsOneOf(a, inFlight) then 0 else multiset(owners)[a]
  {
    if owners != [] {
      IdleOwnersCounted(owners[..|owners| - 1], inFlight, a);
      assert owners == owners[..|owners| - 1] + [owners[|owners| - 1]];
    }
  }

  /** Nothing changes but the orders and the owners, of which those in flight go and the others keep their order. */
  ghost predicate OnlyLacks(r: RawAuction, auction: RawAuction, inFlight: set<OrderUid>)
  {
    && r.block == auction.block && r.prices == auction.prices
    && InOrderOf(r.orders, auction.orders) && InOrderOf(r.jitOwners, auction.jitOwners)
    && (forall o :: multiset(r.orders)[o] == if o.uid in inFlight then 0 else multiset(auction.orders)[o])
    && (forall a :: multiset(r.jitOwners)[a] == if OwnsOneOf(a, inFlight) then 0 else multiset(auction.jitOwners)[a])
  }

  lemma OnlyInFlightGoes(auction: RawAuction, inFlight: set<OrderUid>)
    ensures OnlyLacks(WithoutInFlight(auction, inFlight), auction, inFlight)
  {
    IdleOrdersInOrder(auction.orders, inFlight);
    IdleOwnersInOrder(auction.jitOwners, inFlight);
    forall o { IdleOrdersCounted(auction.orders, inFlight, o); }
    forall a: Address { IdleOwnersCounted(auction.jitOwners, inFlight, a); }
  }

  method RetainIdleOrders(orders: seq<AuctionOrder>, inFlight: set<OrderUid>) returns (idle: seq<AuctionOrder>)
    ensures idle == IdleOrders(orders, inFlight)
  {
    idle := [];
    for i := 0 to |orders|
      invariant idle == IdleOrders(orders[..i], inFlight)
    {
      assert orders[..i + 1][..i] == orders[..i];
      if orders[i].uid !in inFlight { idle := idle + [orders[i]]; }
    }
    assert orders[..|orders|] == orders;
  }

  method RetainIdleOwners(owners: seq<Address>, inFlight: set<OrderUid>) returns (idle: seq<Address>)
    ensures idle == IdleOwners(owners, inFlight)
  {
    idle := [];
    for i := 0 to |owners|
      invariant idle == IdleOwners(owners[..i], inFlight)
    {
      assert owners[..i + 1][..i] == owners[..i];
      if !(exists uid | uid in inFlight :: uid.owner == owners[i]) { idle := idle + [owners[i]]; }
    }
    assert owners[..|owners|] == owners;
  }

  /** A failed read counts as nothing in flight. */
  method RemoveInFlightOrders(auction: RawAuction, fetched: Result<set<OrderUid>, Failure>) returns (r: RawAuction)
    ensures r == WithoutInFlight(auction, if fetched.Ok? then fetched.value else {})
    ensures fetched.Ok? ==> OnlyLacks(r, auction, fetched.value)
    ensures fetched.Err? ==> r == auction
  {
    var inFlight := if fetched.Ok? then fetched.value else {};
    OnlyInFlightGoes(auction, inFlight);
    if inFlight == {} {
      NothingInFlight(auction);
      return auction;
    }
    var orders := RetainIdleOrders(auction.orders, inFlight);
    var owners := RetainIdleOwners(auction.jitOwners, inFlight);
    r := auction.(orders := orders, jitOwners := owners);
  }

  lemma NothingInFlight(auction: RawAuction)
    ensures WithoutInFlight(auction, {}) == auction
  {
    AllOrdersIdle(auction.orders);
    AllOwnersIdle(auction.jitOwners);
  }

  lemma {:induction false} AllOrdersIdle(orders: seq<AuctionOrder>)
    ensures IdleOrders(orders, {}) == orders
  {
    if orders != [] {
      var init, last := orders[..|orders| - 1], orders[|orders| - 1];
      AllOrdersIdle(init);
      assert IdleOrders(orders, {}) == init + [last];
      assert orders == init + [last];
    }
  }

  lemma {:induction false} AllOwnersIdle(owners: seq<Address>)
    ensures IdleOwners(owners, {}) == owners
  {
    if owners != [] {
      var init, last := owners[..|owners| - 1], owners[|owners| - 1];
      AllOwnersIdle(init);
      assert IdleOwners(owners, {}) == init + [last];
      assert owners == init + [last];
    }
  }

  /** The cut auction shares no order with the orders in flight iff the read worked or none was offered. */
  lemma ExclusionNeedsTheRead(db: Database, auction: RawAuction, readOk: bool)
    ensures
      var inFlight := InFlightOrders(db, auction.block);
      Uids(WithoutInFlight(auction, if readOk then inFlight else {}).orders) !! inFlight <==>
      readOk || Uids(auction.orders) !! inFlight
  {
    NothingInFlight(auction);
  }

  // ------------------------------------------------------------------------ the protocol

  type Instance = nat

  /** An auction as it was cut, with the settlements and the started auctions known at that moment. */
  datatype Cut = Cut(auction: Auction, readOk: bool, settled: set<SolutionKey>, known: set<AuctionId>)

  /** What one autopilot instance sees, and the auction it is running. */
  datatype Node = Node(current: nat, cache: Option<RawAuction>, solving: Option<Cut>)

  /** A winning solution whose settlement has been handed to a background task. */
  datatype Task = Task(node: Instance, cut: Cut, solution: int, orders: set<OrderUid>, deadline: int)

  /** A settle request sent to a driver in block `start`. */
  datatype Request = Request(task: Task, start: int)

  /** The instances share the database, and with it the auction ids. */
  datatype State = State(
    nodes: map<Instance, Node>,
    nextId: AuctionId,
    db: Database,
    tasks: set<Task>,
    requests: set<Request>)

  datatype Bid = Bid(header: Header, orders: seq<Order>)

  datatype Step =
    | NewBlock(i: Instance, number: nat)
    | UpdateCache(i: Instance, auction: RawAuction)
    | CutAuction(i: Instance, readOk: bool, idOk: bool, run: bool)
    | Compete(i: Instance, bids: seq<Bid>, book: Book, auctionSaved: bool, solutionsSaved: bool, restSaved: bool)
    | StartSettlement(task: Task)
    | RecordSettlement(at: Index, row: SettlementRow)
    | RevertSettlements(from: int)

  predicate Initial(s: State)
  {
    && IdsBelow(s.db, s.nextId) && s.tasks == {} && s.requests == {}
    && forall i | i in s.nodes :: s.nodes[i].cache.None? && s.nodes[i].solving.None?
  }

  /** The index in the ranking is the solution uid, both when saving and when settling. */
  function Numbered(bids: seq<Bid>): (solutions: seq<Solution>)
    ensures |solutions| == |bids|
    ensures forall i | 0 <= i < |bids| :: solutions[i] == Solution(i, bids[i].header, bids[i].orders)
  {
    seq(|bids|, i requires 0 <= i < |bids| => Solution(i, bids[i].header, bids[i].orders))
  }

  function OrderIds(orders: seq<Order>): set<OrderUid>
  {
    set o | o in orders :: o.uid
  }

  function IdOf(t: Task): AuctionId { t.cut.auction.id }

  function TaskIds(tasks: set<Task>): set<AuctionId>
  {
    set t | t in tasks :: IdOf(t)
  }

  function CutNow(s: State, raw: RawAuction, readOk: bool): Cut
  {
    Cut(Auction(s.nextId, WithoutInFlight(raw, if readOk then InFlightOrders(s.db, raw.block) else {})),
        readOk, SettledKeys(s.db), TaskIds(s.tasks))
  }

  function WinningTasks(i: Instance, cut: Cut, bids: seq<Bid>, deadline: int): set<Task>
  {
    set k | 0 <= k < |bids| && bids[k].header.isWinner :: Task(i, cut, k, OrderIds(bids[k].orders), deadline)
  }

  /** Any part of the stored data may be missing when storing fails, but then nothing is settled. */
  function CompeteStep(s: State, submissionDeadline: nat, c: Step, cut: Cut): State
    requires c.Compete? && c.i in s.nodes
  {
    var done := s.(nodes := s.nodes[c.i := s.nodes[c.i].(solving := None)]);
    if c.bids == [] then done
    else
      var id := cut.auction.id;
      var deadline := s.nodes[c.i].current + submissionDeadline;
      var saved := Save(s.db.proposals, c.book, id, Numbered(c.bids));
      var auctionSaved := c.auctionSaved && id !in s.db.deadlines;
      var solutionsSaved := c.solutionsSaved && saved.Ok?;
      var db := s.db.(
        deadlines := if auctionSaved then s.db.deadlines[id := deadline] else s.db.deadlines,
        proposals := if solutionsSaved then saved.value else s.db.proposals);
      var won := WinningTasks(c.i, cut, c.bids, deadline);
      done.(db := db, tasks := s.tasks + if auctionSaved && solutionsSaved && c.restSaved then won else {})
  }

  function SetNode(s: State, i: Instance, n: Node): State
  {
    s.(nodes := s.nodes[i := n])
  }

  /** A step that is not possible in a state leaves it as it is. */
  function Next(s: State, submissionDeadline: nat, step: Step): State
  {
    match step
    case NewBlock(i, n) =>
      if i in s.nodes && n > s.nodes[i].current then SetNode(s, i, s.nodes[i].(current := n)) else s
    case UpdateCache(i, raw) =>
      if i in s.nodes && raw.block <= s.nodes[i].current then SetNode(s, i, s.nodes[i].(cache := Some(raw))) else s
    case CutAuction(i, readOk, idOk, run) =>
      if i !in s.nodes || s.nodes[i].solving.Some? || s.nodes[i].cache.None? || !idOk then s
      else
        var cut := CutNow(s, s.nodes[i].cache.value, readOk);
        var runs := run && cut.auction.data.orders != [];
        SetNode(s, i, s.nodes[i].(solving := if runs then Some(cut) else None)).(nextId := s.nextId + 1)
    case Compete(i, _, _, _, _, _) =>
      if i !in s.nodes || s.nodes[i].solving.None? then s
      else CompeteStep(s, submissionDeadline, step, s.nodes[i].solving.value)
    case StartSettlement(task) =>
      if task in s.tasks && task.node in s.nodes && s.nodes[task.node].current < task.deadline
         && (forall r | r in s.requests :: r.task != task) then
        s.(requests := s.requests + {Request(task, s.nodes[task.node].current)})
      else s
    case RecordSettlement(at, row) => s.(db := s.db.(settlements := s.db.settlements[at := row]))
    case RevertSettlements(from) =>
      s.(db := s.db.(settlements := map i | i in s.db.settlements && i.block < from :: s.db.settlements[i]))
  }

  function Run(s: State, submissionDeadline: nat, steps: seq<Step>): State
    decreases |steps|
  {
    if steps == [] then s else Run(Next(s, submissionDeadline, steps[0]), submissionDeadline, steps[1..])
  }

  // -------------------------------------------------------------------------- invariants

  function KeyOf(t: Task): SolutionKey
  {
    SolutionKey(IdOf(t), t.solution)
  }

  /** Everything the in-flight query needs to know about a started settlement is stored. */
  predicate Stored(db: Database, t: Task)
  {
    && IdOf(t) in db.deadlines && db.deadlines[IdOf(t)] == t.deadline
    && KeyOf(t) in db.proposals.solutions && db.proposals.solutions[KeyOf(t)].isWinner
    && forall uid | uid in t.orders :: TradeKey(IdOf(t), t.solution, uid) in db.proposals.executions
  }

  /** No order of the started settlement was offered, unless it was settled or its time was over. */
  predicate Excluded(t: Task, cut: Cut)
  {
    cut.readOk ==>
      || KeyOf(t) in cut.settled
      || t.deadline <= cut.auction.data.block
      || t.orders !! Uids(cut.auction.data.orders)
  }

  predicate IdsBelow(db: Database, id: AuctionId)
  {
    && (forall a | a in db.deadlines :: a < id)
    && (forall k | k in db.proposals.solutions :: k.auction < id)
    && (forall k | k in db.proposals.executions :: k.auction < id)
  }

  /** Nothing is stored for the auction yet. */
  predicate Unused(db: Database, id: AuctionId)
  {
    && id !in db.deadlines
    && (forall k | k in db.proposals.solutions :: k.auction != id)
    && (forall k | k in db.proposals.executions :: k.auction != id)
  }

  /** A cut excludes the tasks it knew about, which are older. */
  predicate CutInv(s: State, cut: Cut)
  {
    && cut.auction.id < s.nextId && cut.known <= TaskIds(s.tasks)
    && (forall id | id in cut.known :: id < cut.auction.id)
    && (forall t | t in s.tasks && IdOf(t) in cut.known :: Excluded(t, cut))
  }

  predicate NodeInv(s: State, n: Node)
  {
    && (n.cache.Some? ==> n.cache.value.block <= n.current)
    && (n.solving.Some? ==>
          var cut := n.solving.value;
          && CutInv(s, cut) && cut.auction.data.block <= n.current
          && Unused(s.db, cut.auction.id) && cut.auction.id !in TaskIds(s.tasks))
  }

  predicate TaskInv(s: State, t: Task)
  {
    && Stored(s.db, t) && CutInv(s, t.cut)
    && t.node in s.nodes && t.cut.auction.data.block <= s.nodes[t.node].current
  }

  /** Instances solve different auctions. */
  predicate CutsDiffer(s: State)
  {
    forall i, j | i in s.nodes && j in s.nodes && i != j && s.nodes[i].solving.Some? && s.nodes[j].solving.Some? ::
      s.nodes[i].solving.value.auction.id != s.nodes[j].solving.value.auction.id
  }

  predicate RequestsInv(s: State)
  {
    forall r | r in s.requests ::
      r.task in s.tasks && r.task.cut.auction.data.block <= r.start < r.task.deadline
  }

  predicate Inv(s: State)
  {
    && IdsBelow(s.db, s.nextId)
    && (forall i | i in s.nodes :: NodeInv(s, s.nodes[i]))
    && (forall t | t in s.tasks :: TaskInv(s, t))
    && CutsDiffer(s)
    && RequestsInv(s)
  }

  /** The in-flight query finds every order of a started settlement before its deadline. */
  lemma StoredIsInFlight(db: Database, t: Task, block: int)
    requires Stored(db, t) && t.deadline > block && KeyOf(t) !in SettledKeys(db)
    ensures t.orders <= InFlightOrders(db, block)
  {
    forall uid | uid in t.orders
      ensures uid in InFlightOrders(db, block)
    {
      assert TradeInFlight(db, TradeKey(IdOf(t), t.solution, uid), block);
    }
  }

  lemma CutExcludes(s: State, raw: RawAuction, readOk: bool, t: Task)
    requires Stored(s.db, t)
    ensures Excluded(t, CutNow(s, raw, readOk))
  {
    if readOk && KeyOf(t) !in SettledKeys(s.db) && t.deadline > raw.block {
      StoredIsInFlight(s.db, t, raw.block);
    }
  }

  /** Storing under an unused auction id keeps everything that is stored, and only adds to that id. */
  lemma SaveKeeps(p: Proposals, book: Book, id: AuctionId, solutions: seq<Solution>, p': Proposals)
    requires Save(p, book, id, solutions) == Ok(p')
    ensures forall k | k in p.solutions :: k in p'.solutions && p'.solutions[k] == p.solutions[k]
    ensures forall k | k in p.executions :: k in p'.executions
    ensures forall k | k in p'.solutions :: k in p.solutions || k.auction == id
    ensures forall k | k in p'.executions :: k in p.executions || k.auction == id
  {
    InsertAllKeys(p.solutions, SolutionRows(id, solutions));
    InsertAllKeys(p.executions, ExecutionRows(id, Trades(solutions)));
  }

  lemma SaveStores(p: Proposals, book: Book, id: AuctionId, bids: seq<Bid>, p': Proposals, i: nat)
    requires Save(p, book, id, Numbered(bids)) == Ok(p')
    requires forall k | k in p.solutions :: k.auction != id
    requires i < |bids|
    ensures SolutionKey(id, i) in p'.solutions && p'.solutions[SolutionKey(id, i)] == bids[i].header
    ensures forall uid | uid in OrderIds(bids[i].orders) :: TradeKey(id, i, uid) in p'.executions
  {
    var solutions := Numbered(bids);
    var rows := SolutionRows(id, solutions);
    InsertAllStores(p.solutions, rows, i);
    InsertAllKeys(p.executions, ExecutionRows(id, Trades(solutions)));
    forall o | o in bids[i].orders
      ensures TradeKey(id, i, o.uid) in p'.executions
    {
      TradeListed(solutions, i, o);
      var j :| 0 <= j < |Trades(solutions)| && Trades(solutions)[j] == (i, o);
      assert ExecutionRows(id, Trades(solutions))[j].0 == TradeKey(id, i, o.uid);
    }
  }

  lemma {:induction false} TradeListed(solutions: seq<Solution>, i: nat, o: Order)
    requires i < |solutions| && o in solutions[i].orders
    ensures (solutions[i].uid, o) in Trades(solutions)
  {
    var init, last := solutions[..|solutions| - 1], solutions[|solutions| - 1];
    if i < |init| {
      TradeListed(init, i, o);
    } else {
      var j :| 0 <= j < |last.orders| && last.orders[j] == o;
      assert TradesOf(last)[j] == (last.uid, o);
    }
  }

  /** What a competition does to the database concerns its own auction id only. */
  lemma CompeteStores(s: State, submissionDeadline: nat, c: Step, cut: Cut)
    requires c.Compete? && c.i in s.nodes && Unused(s.db, cut.auction.id) && cut.auction.id < s.nextId
    requires IdsBelow(s.db, s.nextId)
    ensures
      var s' := CompeteStep(s, submissionDeadline, c, cut);
      && IdsBelow(s'.db, s.nextId)
      && (forall id | id != cut.auction.id && Unused(s.db, id) :: Unused(s'.db, id))
      && (forall t | Stored(s.db, t) && IdOf(t) != cut.auction.id :: Stored(s'.db, t))
      && (forall t | t in s'.tasks - s.tasks :: t.node == c.i && t.cut == cut && Stored(s'.db, t))
  {
    if c.bids != [] {
      var id, s' := cut.auction.id, CompeteStep(s, submissionDeadline, c, cut);
      var saved := Save(s.db.proposals, c.book, id, Numbered(c.bids));
      if saved.Ok? { SaveKeeps(s.db.proposals, c.book, id, Numbered(c.bids), saved.value); }
      forall t | t in s'.tasks - s.tasks
        ensures t.node == c.i && t.cut == cut && Stored(s'.db, t)
      {
        SaveStores(s.db.proposals, c.book, id, c.bids, saved.value, t.solution);
      }
    }
  }

  lemma CompeteKeepsInv(s: State, submissionDeadline: nat, c: Step, cut: Cut)
    requires Inv(s) && c.Compete? && c.i in s.nodes && s.nodes[c.i].solving == Some(cut)
    ensures Inv(CompeteStep(s, submissionDeadline, c, cut))
  {
    var s' := CompeteStep(s, submissionDeadline, c, cut);
    assert NodeInv(s, s.nodes[c.i]);
    CompeteStores(s, submissionDeadline, c, cut);
    forall i | i in s'.nodes
      ensures NodeInv(s', s'.nodes[i])
    {
      CompeteKeepsNodeInv(s, submissionDeadline, c, cut, i);
    }
    forall t | t in s'.tasks
      ensures TaskInv(s', t)
    {
      if t in s.tasks {
        assert TaskInv(s, t) && IdOf(t) in TaskIds(s.tasks);
      }
    }
  }

  lemma CompeteKeepsNodeInv(s: State, submissionDeadline: nat, c: Step, cut: Cut, i: Instance)
    requires Inv(s) && c.Compete? && c.i in s.nodes && s.nodes[c.i].solving == Some(cut) && i in s.nodes
    ensures
      var s' := CompeteStep(s, submissionDeadline, c, cut);
      i in s'.nodes && NodeInv(s', s'.nodes[i])
  {
    assert NodeInv(s, s.nodes[c.i]) && NodeInv(s, s.nodes[i]);
    CompeteStores(s, submissionDeadline, c, cut);
  }

  lemma CutKeepsInv(s: State, i: Instance, readOk: bool, run: bool, submissionDeadline: nat)
    requires Inv(s)
    ensures Inv(Next(s, submissionDeadline, CutAuction(i, readOk, true, run)))
  {
    if i in s.nodes && s.nodes[i].solving.None? && s.nodes[i].cache.Some? {
      var s' := Next(s, submissionDeadline, CutAuction(i, readOk, true, run));
      var cut := CutNow(s, s.nodes[i].cache.value, readOk);
      assert NodeInv(s, s.nodes[i]);
      forall t | t in s.tasks
        ensures TaskInv(s', t) && Excluded(t, cut) && IdOf(t) < s.nextId
      {
        assert TaskInv(s, t);
        CutExcludes(s, s.nodes[i].cache.value, readOk, t);
      }
      forall j | j in s'.nodes
        ensures NodeInv(s', s'.nodes[j])
      {
        assert NodeInv(s, s.nodes[j]);
      }
    }
  }

  lemma StepKeepsInv(s: State, submissionDeadline: nat, step: Step)
    requires Inv(s)
    ensures Inv(Next(s, submissionDeadline, step))
  {
    match step
    case Compete(i, _, _, _, _, _) =>
      if i in s.nodes && s.nodes[i].solving.Some? {
        CompeteKeepsInv(s, submissionDeadline, step, s.nodes[i].solving.value);
      }
    case CutAuction(i, readOk, idOk, run) =>
      if idOk { CutKeepsInv(s, i, readOk, run, submissionDeadline); }
    case NewBlock(_, _) => NodeStepKeepsInv(s, submissionDeadline, step);
    case UpdateCache(_, _) => NodeStepKeepsInv(s, submissionDeadline, step);
    case _ => OtherStepKeepsInv(s, submissionDeadline, step);
  }

  lemma OtherStepKeepsInv(s: State, submissionDeadline: nat, step: Step)
    requires Inv(s) && (step.StartSettlement? || step.RecordSettlement? || step.RevertSettlements?)
    ensures Inv(Next(s, submissionDeadline, step))
  {
    var s' := Next(s, submissionDeadline, step);
    forall i | i in s'.nodes
      ensures NodeInv(s', s'.nodes[i])
    {
      assert NodeInv(s, s.nodes[i]);
    }
    forall t | t in s'.tasks
      ensures TaskInv(s', t)
    {
      assert TaskInv(s, t);
    }
  }

  lemma NodeStepKeepsInv(s: State, submissionDeadline: nat, step: Step)
    requires Inv(s) && (step.NewBlock? || step.UpdateCache?)
    ensures Inv(Next(s, submissionDeadline, step))
  {
    var s' := Next(s, submissionDeadline, step);
    forall i | i in s'.nodes
      ensures NodeInv(s', s'.nodes[i])
    {
      assert NodeInv(s, s.nodes[i]);
    }
    forall t | t in s'.tasks
      ensures TaskInv(s', t)
    {
      assert TaskInv(s, t);
    }
  }

  lemma {:induction false} RunKeepsInv(s: State, submissionDeadline: nat, steps: seq<Step>)
    requires Inv(s)
    ensures Inv(Run(s, submissionDeadline, steps))
    decreases |steps|
  {
    if steps != [] {
      StepKeepsInv(s, submissionDeadline, steps[0]);
      RunKeepsInv(Next(s, submissionDeadline, steps[0]), submissionDeadline, steps[1..]);
    }
  }

  // --------------------------------------------------------------------------- guarantees

  /** Every state that any number of instances can reach keeps the invariant. */
  lemma RunsKeepInv(s0: State, submissionDeadline: nat, steps: seq<Step>)
    requires Initial(s0)
    ensures Inv(Run(s0, submissionDeadline, steps))
  {
    RunKeepsInv(s0, submissionDeadline, steps);
  }

  /** No auction is cut while another instance is still running one. */
  predicate Clean(s: State, step: Step)
  {
    step.CutAuction? && step.i in s.nodes ==> forall j | j in s.nodes && j != step.i :: s.nodes[j].solving.None?
  }

  predicate CleanRun(s: State, submissionDeadline: nat, steps: seq<Step>)
    decreases |steps|
  {
    steps == [] ||
    (Clean(s, steps[0]) && CleanRun(Next(s, submissionDeadline, steps[0]), submissionDeadline, steps[1..]))
  }

  /** At most one auction is running, and every cut knew all older tasks. */
  predicate CleanInv(s: State)
  {
    && (forall i, j | i in s.nodes && j in s.nodes && i != j && s.nodes[i].solving.Some? :: s.nodes[j].solving.None?)
    && (forall i | i in s.nodes && s.nodes[i].solving.Some? :: TaskIds(s.tasks) <= s.nodes[i].solving.value.known)
    && (forall t, u | t in s.tasks && u in s.tasks && IdOf(t) < IdOf(u) :: IdOf(t) in u.cut.known)
  }

  lemma StepKeepsCleanInv(s: State, submissionDeadline: nat, step: Step)
    requires Inv(s) && CleanInv(s) && Clean(s, step)
    ensures CleanInv(Next(s, submissionDeadline, step))
  {
    if step.Compete? {
      CompeteKeepsCleanInv(s, submissionDeadline, step);
    }
  }

  lemma CompeteKeepsCleanInv(s: State, submissionDeadline: nat, step: Step)
    requires Inv(s) && CleanInv(s) && step.Compete?
    ensures CleanInv(Next(s, submissionDeadline, step))
  {
    if step.i in s.nodes && s.nodes[step.i].solving.Some? {
      var cut, s' := s.nodes[step.i].solving.value, Next(s, submissionDeadline, step);
      assert NodeInv(s, s.nodes[step.i]);
      CompeteStores(s, submissionDeadline, step, cut);
      forall t, u | t in s'.tasks && u in s'.tasks && IdOf(t) < IdOf(u)
        ensures IdOf(t) in u.cut.known
      {
        assert u in s.tasks ==> IdOf(u) in TaskIds(s.tasks);
        assert t in s.tasks ==> IdOf(t) in TaskIds(s.tasks);
      }
    }
  }

  lemma {:induction false} CleanRunKeepsCleanInv(s: State, submissionDeadline: nat, steps: seq<Step>)
    requires Inv(s) && CleanInv(s) && CleanRun(s, submissionDeadline, steps)
    ensures Inv(Run(s, submissionDeadline, steps)) && CleanInv(Run(s, submissionDeadline, steps))
    decreases |steps|
  {
    if steps != [] {
      StepKeepsInv(s, submissionDeadline, steps[0]);
      StepKeepsCleanInv(s, submissionDeadline, steps[0]);
      CleanRunKeepsCleanInv(Next(s, submissionDeadline, steps[0]), submissionDeadline, steps[1..]);
    }
  }

  /** A single instance runs one auction after the other. */
  lemma {:induction false} SingleLeaderIsClean(s: State, submissionDeadline: nat, steps: seq<Step>, i: Instance)
    requires s.nodes.Keys == {i}
    ensures CleanRun(s, submissionDeadline, steps)
    decreases |steps|
  {
    if steps != [] {
      SameNodes(s, submissionDeadline, steps[0]);
      SingleLeaderIsClean(Next(s, submissionDeadline, steps[0]), submissionDeadline, steps[1..], i);
    }
  }

  lemma SameNodes(s: State, submissionDeadline: nat, step: Step)
    ensures Next(s, submissionDeadline, step).nodes.Keys == s.nodes.Keys
  {
  }

  /**
   In every clean run, and so in every run of a single leader: an auction that is being solved contains
   no order of any settlement started so far whose deadline lies after the auction's block, unless that
   settlement had been observed when the auction was cut, provided that reading the orders in flight worked.
   */
  lemma NoOrderOfferedWhileInFlight(s0: State, submissionDeadline: nat, steps: seq<Step>, i: Instance, task: Task,
                                    uid: OrderUid)
    requires Initial(s0) && CleanRun(s0, submissionDeadline, steps)
    ensures
      var s := Run(s0, submissionDeadline, steps);
      && i in s.nodes && s.nodes[i].solving.Some? && s.nodes[i].solving.value.readOk
      && task in s.tasks && uid in task.orders ==>
        var cut := s.nodes[i].solving.value;
        || KeyOf(task) in cut.settled
        || task.deadline <= cut.auction.data.block
        || uid !in Uids(cut.auction.data.orders)
  {
    CleanRunKeepsCleanInv(s0, submissionDeadline, steps);
    var s := Run(s0, submissionDeadline, steps);
    if i in s.nodes && s.nodes[i].solving.Some? && task in s.tasks {
      assert NodeInv(s, s.nodes[i]) && IdOf(task) in TaskIds(s.tasks);
    }
  }

  /**
   In every clean run, if an order settled by an earlier auction is offered again in a later one before
   the earlier settlement was observed, then the settle requests of the two auctions fall in
   disjoint block windows: the later one starts only when the earlier deadline has passed.
   */
  lemma SettleWindowsDisjoint(s0: State, submissionDeadline: nat, steps: seq<Step>, first: Request, second: Request,
                              uid: OrderUid)
    requires Initial(s0) && CleanRun(s0, submissionDeadline, steps)
    ensures
      var s := Run(s0, submissionDeadline, steps);
      && first in s.requests && second in s.requests && IdOf(first.task) < IdOf(second.task)
      && uid in first.task.orders && uid in Uids(second.task.cut.auction.data.orders)
      && second.task.cut.readOk && KeyOf(first.task) !in second.task.cut.settled
      ==> first.start < first.task.deadline <= second.start < second.task.deadline
  {
    CleanRunKeepsCleanInv(s0, submissionDeadline, steps);
    var s := Run(s0, submissionDeadline, steps);
    if first in s.requests && second in s.requests {
      assert TaskInv(s, second.task);
    }
  }

  // ------------------------------------------------------------------ overlapping leaders

  /** A task of an older auction that the cut did not know about. */
  predicate IsLate(t: Task, cut: Cut)
  {
    IdOf(t) < cut.auction.id && IdOf(t) !in cut.known
  }

  /** Once an auction is cut with no older one running, no older task can appear. */
  predicate NothingLate(s: State, cut: Cut)
  {
    && cut.auction.id < s.nextId
    && (forall t | t in s.tasks :: !IsLate(t, cut))
    && (forall j | j in s.nodes && s.nodes[j].solving.Some? :: s.nodes[j].solving.value.auction.id >= cut.auction.id)
  }

  lemma StepKeepsNothingLate(s: State, submissionDeadline: nat, step: Step, cut: Cut)
    requires Inv(s) && NothingLate(s, cut)
    ensures NothingLate(Next(s, submissionDeadline, step), cut)
  {
    if step.Compete? && step.i in s.nodes && s.nodes[step.i].solving.Some? {
      assert NodeInv(s, s.nodes[step.i]);
      CompeteStores(s, submissionDeadline, step, s.nodes[step.i].solving.value);
    }
  }

  lemma {:induction false} RunKeepsNothingLate(s: State, submissionDeadline: nat, steps: seq<Step>, cut: Cut)
    requires Inv(s) && NothingLate(s, cut)
    ensures NothingLate(Run(s, submissionDeadline, steps), cut)
    decreases |steps|
  {
    if steps != [] {
      StepKeepsInv(s, submissionDeadline, steps[0]);
      StepKeepsNothingLate(s, submissionDeadline, steps[0], cut);
      RunKeepsNothingLate(Next(s, submissionDeadline, steps[0]), submissionDeadline, steps[1..], cut);
    }
  }

  /** An instance finishes its auction with one winner that fills one order. */
  function WinStep(i: Instance, order: Order): Step
  {
    Compete(i, [Bid(Header(0, 0, true, false, 0, [], []), [order])], map[], true, true, true)
  }

  function WinTask(s: State, submissionDeadline: nat, i: Instance, order: Order): Task
    requires i in s.nodes && s.nodes[i].solving.Some?
  {
    Task(i, s.nodes[i].solving.value, 0, {order.uid}, s.nodes[i].current + submissionDeadline)
  }

  lemma OneWinner(i: Instance, cut: Cut, bid: Bid, deadline: int)
    requires bid.header.isWinner
    ensures WinningTasks(i, cut, [bid], deadline) == {Task(i, cut, 0, OrderIds(bid.orders), deadline)}
  {
    var bids, t := [bid], Task(i, cut, 0, OrderIds(bid.orders), deadline);
    var won := WinningTasks(i, cut, bids, deadline);
    assert bids[0] == bid && t in won;
    forall u | u in won
      ensures u == t
    {
      var k :| 0 <= k < |bids| && u == Task(i, cut, k, OrderIds(bids[k].orders), deadline);
    }
  }

  lemma OneBidSaves(p: Proposals, book: Book, id: AuctionId, bid: Bid)
    requires bid.orders != []
    ensures Save(p, book, id, Numbered([bid])).Ok?
  {
    TradeListed(Numbered([bid]), 0, bid.orders[0]);
  }

  lemma WinStarts(s: State, submissionDeadline: nat, i: Instance, order: Order)
    requires Inv(s) && i in s.nodes && s.nodes[i].solving.Some?
    ensures
      var s' := Next(s, submissionDeadline, WinStep(i, order));
      && s'.tasks == s.tasks + {WinTask(s, submissionDeadline, i, order)}
      && s'.nodes == s.nodes[i := s.nodes[i].(solving := None)]
      && s'.requests == s.requests
  {
    var bid, cut := Bid(Header(0, 0, true, false, 0, [], []), [order]), s.nodes[i].solving.value;
    assert NodeInv(s, s.nodes[i]);
    assert OrderIds([order]) == {order.uid};
    OneWinner(i, cut, bid, s.nodes[i].current + submissionDeadline);
    OneBidSaves(s.db.proposals, map[], cut.auction.id, bid);
  }

  lemma RunOne(s: State, submissionDeadline: nat, step: Step)
    ensures Run(s, submissionDeadline, [step]) == Next(s, submissionDeadline, step)
  {
    assert [step][1..] == [];
  }

  ghost predicate MayBeLate(s: State, submissionDeadline: nat, cut: Cut)
  {
    exists steps, t :: t in Run(s, submissionDeadline, steps).tasks && IsLate(t, cut)
  }

  /**
   Exactly when a handover is unsafe: after an auction is cut, a settlement of an older auction that it
   could not take into account can still be started if and only if another instance is running an
   auction at that moment, whoever holds the lock.
   */
  lemma LateTaskIff(s: State, submissionDeadline: nat, i: Instance, readOk: bool, order: Order)
    requires Inv(s) && i in s.nodes && s.nodes[i].solving.None? && s.nodes[i].cache.Some?
    ensures
      var s' := Next(s, submissionDeadline, CutAuction(i, readOk, true, true));
      var cut := CutNow(s, s.nodes[i].cache.value, readOk);
      MayBeLate(s', submissionDeadline, cut) <==> exists j :: j in s.nodes && j != i && s.nodes[j].solving.Some?
  {
    var s' := Next(s, submissionDeadline, CutAuction(i, readOk, true, true));
    var cut := CutNow(s, s.nodes[i].cache.value, readOk);
    StepKeepsInv(s, submissionDeadline, CutAuction(i, readOk, true, true));
    if j :| j in s.nodes && j != i && s.nodes[j].solving.Some? {
      assert NodeInv(s, s.nodes[j]) && s'.nodes[j] == s.nodes[j];
      RunningIsLate(s', submissionDeadline, j, order, cut);
    } else {
      assert NothingLate(s', cut) by {
        assert forall t | t in s.tasks :: IdOf(t) in TaskIds(s.tasks);
      }
      NeverLate(s', submissionDeadline, cut);
    }
  }

  lemma RunningIsLate(s: State, submissionDeadline: nat, j: Instance, order: Order, cut: Cut)
    requires Inv(s) && j in s.nodes && s.nodes[j].solving.Some?
    requires s.nodes[j].solving.value.auction.id < cut.auction.id
    requires s.nodes[j].solving.value.auction.id !in cut.known
    ensures MayBeLate(s, submissionDeadline, cut)
  {
    var t := WinTask(s, submissionDeadline, j, order);
    WinStarts(s, submissionDeadline, j, order);
    RunOne(s, submissionDeadline, WinStep(j, order));
    assert t in Run(s, submissionDeadline, [WinStep(j, order)]).tasks && IsLate(t, cut);
  }

  lemma NeverLate(s: State, submissionDeadline: nat, cut: Cut)
    requires Inv(s) && NothingLate(s, cut)
    ensures !MayBeLate(s, submissionDeadline, cut)
  {
    forall steps
      ensures NothingLate(Run(s, submissionDeadline, steps), cut)
    {
      RunKeepsNothingLate(s, submissionDeadline, steps, cut);
    }
  }

  /** Both instances cut their cached auction before either has stored anything. */
  function BothCut(s: State, submissionDeadline: nat, i: Instance, j: Instance): State
  {
    var s1 := Next(s, submissionDeadline, CutAuction(i, true, true, true));
    Next(s1, submissionDeadline, CutAuction(j, true, true, true))
  }

  /** The instance holds an auction that offers the order, which is not in flight. */
  predicate Offers(s: State, i: Instance, uid: OrderUid)
  {
    && i in s.nodes && s.nodes[i].solving.None? && s.nodes[i].cache.Some?
    && uid in Uids(s.nodes[i].cache.value.orders) && uid !in InFlightOrders(s.db, s.nodes[i].cache.value.block)
  }

  lemma BothCutOffer(s: State, submissionDeadline: nat, i: Instance, j: Instance, uid: OrderUid)
    requires Inv(s) && i != j && Offers(s, i, uid) && Offers(s, j, uid)
    ensures
      var s' := BothCut(s, submissionDeadline, i, j);
      && Inv(s') && s'.tasks == s.tasks && s'.requests == s.requests && s'.nodes.Keys == s.nodes.Keys
      && s'.nodes[i] == s.nodes[i].(solving := Some(CutNow(s, s.nodes[i].cache.value, true)))
      && s'.nodes[j].current == s.nodes[j].current && s'.nodes[j].solving.Some?
      && var cut := s'.nodes[j].solving.value;
         cut.readOk && cut.auction.id == s.nextId + 1 && cut.settled == SettledKeys(s.db)
         && uid in Uids(cut.auction.data.orders)
  {
    StepKeepsInv(s, submissionDeadline, CutAuction(i, true, true, true));
    var s1 := Next(s, submissionDeadline, CutAuction(i, true, true, true));
    assert uid in Uids(CutNow(s, s.nodes[i].cache.value, true).auction.data.orders);
    assert uid in Uids(CutNow(s1, s.nodes[j].cache.value, true).auction.data.orders);
    StepKeepsInv(s1, submissionDeadline, CutAuction(j, true, true, true));
  }

  lemma StartsNew(s: State, submissionDeadline: nat, t: Task)
    requires t in s.tasks && t.node in s.nodes && s.nodes[t.node].current < t.deadline
    requires forall r | r in s.requests :: r.task != t
    ensures
      var s' := Next(s, submissionDeadline, StartSettlement(t));
      s' == s.(requests := s.requests + {Request(t, s.nodes[t.node].current)})
  {
  }

  /** Both finish with the order as winner. */
  function BothWin(s: State, submissionDeadline: nat, i: Instance, j: Instance, order: Order): State
  {
    var s1 := Next(s, submissionDeadline, WinStep(i, order));
    Next(s1, submissionDeadline, WinStep(j, order))
  }

  lemma BothWinStart(s: State, submissionDeadline: nat, i: Instance, j: Instance, order: Order)
    requires Inv(s) && i != j && i in s.nodes && j in s.nodes
    requires s.nodes[i].solving.Some? && s.nodes[j].solving.Some?
    ensures
      var s' := BothWin(s, submissionDeadline, i, j, order);
      var a, b := WinTask(s, submissionDeadline, i, order), WinTask(s, submissionDeadline, j, order);
      && s'.tasks == s.tasks + {a} + {b} && s'.requests == s.requests && s'.nodes.Keys == s.nodes.Keys
      && s'.nodes[i].current == s.nodes[i].current && s'.nodes[j].current == s.nodes[j].current
  {
    var s1 := Next(s, submissionDeadline, WinStep(i, order));
    WinStarts(s, submissionDeadline, i, order);
    StepKeepsInv(s, submissionDeadline, WinStep(i, order));
    SecondWin(s, s1, submissionDeadline, i, j, order);
  }

  lemma SecondWin(s: State, s1: State, submissionDeadline: nat, i: Instance, j: Instance, order: Order)
    requires Inv(s1) && i != j && i in s.nodes && j in s.nodes && s.nodes[j].solving.Some?
    requires s1.nodes == s.nodes[i := s.nodes[i].(solving := None)]
    ensures
      var s' := Next(s1, submissionDeadline, WinStep(j, order));
      && s'.tasks == s1.tasks + {WinTask(s, submissionDeadline, j, order)} && s'.requests == s1.requests
      && s'.nodes.Keys == s.nodes.Keys
      && s'.nodes[i].current == s.nodes[i].current && s'.nodes[j].current == s.nodes[j].current
  {
    WinStarts(s1, submissionDeadline, j, order);
  }

  lemma BothRequest(s: State, submissionDeadline: nat, a: Task, b: Task)
    requires a in s.tasks && b in s.tasks && a != b && a.node in s.nodes && b.node in s.nodes
    requires s.nodes[a.node].current < a.deadline && s.nodes[b.node].current < b.deadline
    requires forall r | r in s.requests :: r.task != a && r.task != b
    ensures
      var s' := Next(Next(s, submissionDeadline, StartSettlement(a)), submissionDeadline, StartSettlement(b));
      Request(a, s.nodes[a.node].current) in s'.requests && Request(b, s.nodes[b.node].current) in s'.requests
  {
    StartsNew(s, submissionDeadline, a);
    StartsNew(Next(s, submissionDeadline, StartSettlement(a)), submissionDeadline, b);
  }

  /** From two running auctions to two settle requests. */
  lemma BothSettle(s: State, submissionDeadline: nat, i: Instance, j: Instance, order: Order)
    requires Inv(s) && i != j && i in s.nodes && j in s.nodes && submissionDeadline > 0
    requires s.nodes[i].solving.Some? && s.nodes[j].solving.Some?
    ensures
      var a, b := WinTask(s, submissionDeadline, i, order), WinTask(s, submissionDeadline, j, order);
      var s' := BothWin(s, submissionDeadline, i, j, order);
      var s'' := Next(Next(s', submissionDeadline, StartSettlement(a)), submissionDeadline, StartSettlement(b));
      Request(a, s.nodes[i].current) in s''.requests && Request(b, s.nodes[j].current) in s''.requests
  {
    var a, b := WinTask(s, submissionDeadline, i, order), WinTask(s, submissionDeadline, j, order);
    BothWinStart(s, submissionDeadline, i, j, order);
    assert NodeInv(s, s.nodes[i]) && NodeInv(s, s.nodes[j]);
    NewTask(s, a);
    NewTask(s, b);
    BothRequest(BothWin(s, submissionDeadline, i, j, order), submissionDeadline, a, b);
  }

  /**
   What an unclean handover leads to: two instances that offer the same order, with both in-flight reads
   working, go on to request its settlement twice in overlapping block windows.
   */
  lemma OverlappingLeadersSettleTwice(s: State, submissionDeadline: nat, i: Instance, j: Instance, order: Order)
    returns (steps: seq<Step>, first: Request, second: Request)
    requires Inv(s) && i != j && Offers(s, i, order.uid) && Offers(s, j, order.uid) && submissionDeadline > 0
    requires s.nodes[j].current < s.nodes[i].current + submissionDeadline
    requires forall k | k in SettledKeys(s.db) :: k.auction < s.nextId
    ensures
      var s' := Run(s, submissionDeadline, steps);
      && first in s'.requests && second in s'.requests && IdOf(first.task) < IdOf(second.task)
      && order.uid in first.task.orders && order.uid in second.task.orders
      && order.uid in Uids(second.task.cut.auction.data.orders)
      && second.task.cut.readOk && KeyOf(first.task) !in second.task.cut.settled
      && second.start < first.task.deadline
  {
    var s2 := BothCut(s, submissionDeadline, i, j);
    BothCutOffer(s, submissionDeadline, i, j, order.uid);
    var a, b := WinTask(s2, submissionDeadline, i, order), WinTask(s2, submissionDeadline, j, order);
    BothSettle(s2, submissionDeadline, i, j, order);
    first, second := Request(a, s.nodes[i].current), Request(b, s.nodes[j].current);
    steps := [CutAuction(i, true, true, true), CutAuction(j, true, true, true),
              WinStep(i, order), WinStep(j, order), StartSettlement(a), StartSettlement(b)];
    RunSix(s, submissionDeadline, steps);
  }

  lemma NewTask(s: State, t: Task)
    requires Inv(s) && IdOf(t) !in TaskIds(s.tasks)
    ensures t !in s.tasks && forall r | r in s.requests :: r.task != t
  {
  }

  lemma RunSix(s: State, d: nat, steps: seq<Step>)
    requires |steps| == 6
    ensures Run(s, d, steps) ==
            var s4 := Next(Next(Next(Next(s, d, steps[0]), d, steps[1]), d, steps[2]), d, steps[3]);
            Next(Next(s4, d, steps[4]), d, steps[5])
  {
    var s1 := Next(s, d, steps[0]);
    var s2 := Next(s1, d, steps[1]);
    var s3 := Next(s2, d, steps[2]);
    var s4 := Next(s3, d, steps[3]);
    var s5 := Next(s4, d, steps[4]);
    assert Run(s, d, steps) == Run(s1, d, steps[1..]);
    assert steps[1..][1..] == steps[2..] && Run(s1, d, steps[1..]) == Run(s2, d, steps[2..]);
    assert steps[2..][1..] == steps[3..] && Run(s2, d, steps[2..]) == Run(s3, d, steps[3..]);
    assert steps[3..][1..] == steps[4..] && Run(s3, d, steps[3..]) == Run(s4, d, steps[4..]);
    assert steps[4..][1..] == steps[5..] && Run(s4, d, steps[4..]) == Run(s5, d, steps[5..]);
    assert steps[5..] == [steps[5]];
    RunOne(s5, d, steps[5]);
  }
}

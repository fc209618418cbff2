/**
 The loop around the auctions: when an auction is run again, how the lock gates it, and how long a
 settlement is waited for.
 */
module RunLoop {
  import opened Common
  import opened LeaderLock
  import opened AuctionProtocol
  import opened BlockStream

  // ------------------------------------------------------- running only what has changed

  /** What the loop remembers between iterations. */
  datatype Memory = Memory(auction: Option<RawAuction>, block: Option<Hash>)

  /** An auction that was cut, and the block it is started in. */
  datatype Tick = Tick(auction: RawAuction, block: BlockInfo)

  predicate Skips(m: Memory, t: Tick)
  {
    m.auction == Some(t.auction) && m.block == Some(t.block.hash)
  }

  /** The block is only remembered when the auction compared equal. */
  function Remember(m: Memory, t: Tick): Memory
  {
    Memory(Some(t.auction), if m.auction == Some(t.auction) then Some(t.block.hash) else m.block)
  }

  method NextAuction(cut: Option<Auction>, start: BlockInfo, m: Memory) returns (run: Option<Auction>, m': Memory)
    ensures cut.None? ==> run.None? && m' == m
    ensures cut.Some? ==>
              var t := Tick(cut.value.data, start);
              m' == Remember(m, t) && run == if Skips(m, t) then None else cut
  {
    if cut.None? { return None, m; }
    var previous := m.auction;
    m' := m.(auction := Some(cut.value.data));
    if previous == Some(cut.value.data) {
      var lastBlock := m'.block;
      m' := m'.(block := Some(start.hash));
      if lastBlock == Some(start.hash) { return None, m'; }
    }
    run := cut;
  }

  function MemoryAfter(ticks: seq<Tick>): Memory
  {
    if ticks == [] then Memory(None, None)
    else Remember(MemoryAfter(ticks[..|ticks| - 1]), ticks[|ticks| - 1])
  }

  /** Whether the k-th cut auction was sent to the solvers. */
  predicate Runs(ticks: seq<Tick>, k: nat)
    requires k < |ticks|
  {
    !Skips(MemoryAfter(ticks[..k]), ticks[k])
  }

  /** Start blocks come from the block stream: numbers never fall, and both number and hash fix the block. */
  ghost predicate FromBlockStream(ticks: seq<Tick>)
  {
    forall i, j | 0 <= i < j < |ticks| ::
      var a, b := ticks[i].block, ticks[j].block;
      a.number <= b.number && (a.number == b.number ==> a == b) && (a.hash == b.hash ==> a == b)
  }

  /** How a start block is taken from the channel: its current value, or a later one that is waited for. */
  datatype Pick = Pick(current: nat, waited: Option<nat>)

  function Position(p: Pick): nat
  {
    if p.waited.Some? then p.waited.value else p.current
  }

  /** Time moves on: a wait ends with a later value, and no iteration starts before the last one ended. */
  ghost predicate InOrder(picks: seq<Pick>)
  {
    && (forall k | 0 <= k < |picks| && picks[k].waited.Some? :: picks[k].waited.value > picks[k].current)
    && (forall i, j | 0 <= i < j < |picks| :: Position(picks[i]) <= picks[j].current)
  }

  /** Whatever the node sends, the start blocks of the iterations are as the skipping logic needs them. */
  lemma StartBlocksFromStream(first: BlockInfo, incoming: seq<Option<BlockInfo>>, picks: seq<Pick>, ticks: seq<Tick>)
    requires HashesFixBlocks(first, incoming) && InOrder(picks) && |ticks| == |picks|
    requires forall k | 0 <= k < |picks| ::
               && Position(picks[k]) < |Published(first, incoming)|
               && ticks[k].block == Published(first, incoming)[Position(picks[k])]
    ensures FromBlockStream(ticks)
  {
    PublishedIncreasing(first, incoming);
    var published := Published(first, incoming);
    forall i, j | 0 <= i < j < |ticks|
      ensures
        var a, b := ticks[i].block, ticks[j].block;
        a.number <= b.number && (a.number == b.number ==> a == b) && (a.hash == b.hash ==> a == b)
    {
      var p, q := Position(picks[i]), Position(picks[j]);
      assert p <= q && published[p] in published && published[q] in published;
    }
  }

  /** The k-th auction equals the one cut before it. */
  predicate SameAsPrevious(ticks: seq<Tick>, k: nat)
    requires k < |ticks|
  {
    k > 0 && ticks[k - 1].auction == ticks[k].auction
  }

  lemma MemoryStep(ticks: seq<Tick>, k: nat)
    requires k < |ticks|
    ensures MemoryAfter(ticks[..k + 1]) == Remember(MemoryAfter(ticks[..k]), ticks[k])
    ensures (MemoryAfter(ticks[..k]).auction == Some(ticks[k].auction)) == SameAsPrevious(ticks, k)
  {
    assert ticks[..k + 1][..k] == ticks[..k];
    if k > 0 { assert ticks[..k][..k - 1] == ticks[..k - 1]; }
  }

  /** Iteration j compared equal in the block with this hash. */
  predicate ComparedEqualAt(ticks: seq<Tick>, j: nat, hash: Hash)
    requires j < |ticks|
  {
    SameAsPrevious(ticks, j) && ticks[j].block.hash == hash
  }

  lemma {:induction false} RememberedBlock(ticks: seq<Tick>, k: nat) returns (j: nat)
    requires k <= |ticks| && MemoryAfter(ticks[..k]).block.Some?
    ensures j < k && ComparedEqualAt(ticks, j, MemoryAfter(ticks[..k]).block.value)
  {
    MemoryStep(ticks, k - 1);
    if SameAsPrevious(ticks, k - 1) {
      j := k - 1;
    } else {
      j := RememberedBlock(ticks, k - 1);
    }
  }

  /** Between two blocks of the stream with one hash there are only blocks with that hash. */
  lemma SandwichedBlock(ticks: seq<Tick>, i: nat, j: nat, k: nat)
    requires FromBlockStream(ticks) && i <= j <= k < |ticks| && ticks[i].block.hash == ticks[k].block.hash
    ensures ticks[j].block.hash == ticks[k].block.hash
  {
    if i < j < k {
      assert ticks[i].block.number <= ticks[j].block.number <= ticks[k].block.number;
    }
  }

  /** A skipped auction has been sent to the solvers before, in the same block. */
  lemma {:induction false} SkippedOnlyIfRun(ticks: seq<Tick>, k: nat) returns (j: nat)
    requires FromBlockStream(ticks) && k < |ticks| && !Runs(ticks, k)
    ensures j < k && Runs(ticks, j)
    ensures ticks[j].auction == ticks[k].auction && ticks[j].block == ticks[k].block
  {
    MemoryStep(ticks, k);
    MemoryStep(ticks, k - 1);
    var i := RememberedBlock(ticks, k);
    SandwichedBlock(ticks, i, k - 1, k);
    assert ticks[k - 1].block == ticks[k].block;
    if Runs(ticks, k - 1) {
      j := k - 1;
    } else {
      j := SkippedOnlyIfRun(ticks, k - 1);
    }
  }

  /** From the third time on, an unchanged auction in an unchanged block is skipped. */
  lemma RunAtMostTwice(ticks: seq<Tick>, first: nat, k: nat)
    requires first + 2 <= k < |ticks|
    requires forall i | first <= i <= k :: ticks[i] == ticks[first]
    ensures !Runs(ticks, k)
  {
    MemoryStep(ticks, k - 1);
    MemoryStep(ticks, k);
  }

  /**
   The code means to run the solvers only if the auction or the block has changed. It runs an
   unchanged auction again exactly when no earlier iteration in this block compared equal.
   */
  lemma UnchangedRunsAgainIff(ticks: seq<Tick>, k: nat)
    requires FromBlockStream(ticks) && 0 < k < |ticks| && ticks[k - 1] == ticks[k]
    ensures Runs(ticks, k) <==> forall j: nat | j < k :: !ComparedEqualAt(ticks, j, ticks[k].block.hash)
  {
    MemoryStep(ticks, k);
    if !Runs(ticks, k) {
      var j := RememberedBlock(ticks, k);
    }
    if j: nat :| j < k && ComparedEqualAt(ticks, j, ticks[k].block.hash) {
      BlockStaysRemembered(ticks, j, k);
    }
  }

  lemma {:induction false} BlockStaysRemembered(ticks: seq<Tick>, j: nat, k: nat)
    requires FromBlockStream(ticks) && j < k < |ticks|
    requires ComparedEqualAt(ticks, j, ticks[k].block.hash)
    ensures MemoryAfter(ticks[..k]).block == Some(ticks[k].block.hash)
    decreases k
  {
    MemoryStep(ticks, k - 1);
    SandwichedBlock(ticks, j, k - 1, k);
    if j < k - 1 {
      BlockStaysRemembered(ticks, j, k - 1);
    } else {
      MemoryStep(ticks, j);
    }
  }

  /** So the very first repetition is always run: the same auction in the same block, twice. */
  lemma FirstRepetitionRuns(t: Tick)
    ensures Runs([t, t], 0) && Runs([t, t], 1)
  {
    MemoryStep([t, t], 0);
    MemoryStep([t, t], 1);
  }

  // ---------------------------------------------------------------------------- the loop

  datatype Iteration = Iteration(now: int, pingOk: bool, attempt: Attempt, start: BlockInfo, cut: Option<Auction>)

  /** What happened in an iteration: the auction that was cut, if any, and whether it was run. */
  datatype Outcome = Outcome(tick: Option<Tick>, ran: bool)

  /** The lock as it is left by the iterations' attempts to acquire it. */
  function LockAfter(v: View, iterations: seq<Iteration>): View
  {
    if iterations == [] then v
    else
      var last := iterations[|iterations| - 1];
      AfterAcquire(LockAfter(v, iterations[..|iterations| - 1]), last.now, last.pingOk, last.attempt)
  }

  /** The k-th iteration sends a request for the lock. */
  predicate Asks(v: View, iterations: seq<Iteration>, k: nat)
    requires k < |iterations|
  {
    Tries(LockAfter(v, iterations[..k]), iterations[k].now, iterations[k].pingOk)
  }

  lemma LockStep(v: View, iterations: seq<Iteration>, k: nat)
    requires k < |iterations|
    ensures LockAfter(v, iterations[..k + 1]) ==
            AfterAcquire(LockAfter(v, iterations[..k]), iterations[k].now, iterations[k].pingOk, iterations[k].attempt)
  {
    assert iterations[..k + 1][..k] == iterations[..k];
  }

  /** The remembered time is that of the last request, and no request before it is less than an interval older. */
  lemma {:induction false} LastTryIsLast(v: View, iterations: seq<Iteration>, k: nat)
    requires k <= |iterations|
    ensures LockAfter(v, iterations[..k]).tryEvery == v.tryEvery
    ensures v.lastTry <= LockAfter(v, iterations[..k]).lastTry
    ensures forall j: nat | j < k && Asks(v, iterations, j) ::
              iterations[j].now <= LockAfter(v, iterations[..k]).lastTry
    ensures LockAfter(v, iterations[..k]).lastTry == v.lastTry
            || exists j: nat :: j < k && Asks(v, iterations, j)
                                && iterations[j].now == LockAfter(v, iterations[..k]).lastTry
  {
    if k > 0 {
      LastTryIsLast(v, iterations, k - 1);
      LockStep(v, iterations, k - 1);
      if Asks(v, iterations, k - 1) {
        assert LockAfter(v, iterations[..k]).lastTry == iterations[k - 1].now;
      }
    }
  }

  /**
   An iteration asks for the lock if and only if it has no guard after its ping and every earlier
   request, of which `v.lastTry` is the last before the run, is at least `tryEvery` ago.
   */
  lemma AsksIff(v: View, iterations: seq<Iteration>, k: nat)
    requires k < |iterations|
    ensures
      var it, guard := iterations[k], LockAfter(v, iterations[..k]).guard;
      Asks(v, iterations, k) <==>
        && (guard.None? || !it.pingOk)
        && it.now >= v.lastTry + v.tryEvery
        && forall j: nat | j < k && Asks(v, iterations, j) :: it.now >= iterations[j].now + v.tryEvery
  {
    LastTryIsLast(v, iterations, k);
  }

  /** The k-th iteration got the lock, and no ping has failed from then on up to the n-th. */
  predicate GotAndKept(v: View, iterations: seq<Iteration>, k: nat, n: nat)
    requires k < n <= |iterations|
  {
    && Asks(v, iterations, k) && iterations[k].attempt.Granted?
    && forall j | k < j < n :: iterations[j].pingOk
  }

  /** The guard is held if and only if it was got and no ping has failed since; its session is the one it was got on. */
  lemma {:induction false} HeldIff(v: View, iterations: seq<Iteration>, n: nat)
    requires n <= |iterations|
    ensures LockAfter(v, iterations[..n]).guard.Some? <==>
            || (v.guard.Some? && forall j | 0 <= j < n :: iterations[j].pingOk)
            || exists k: nat :: k < n && GotAndKept(v, iterations, k, n)
    ensures forall k: nat | k < n && GotAndKept(v, iterations, k, n) ::
              LockAfter(v, iterations[..n]).guard == Some(iterations[k].attempt.session)
  {
    if n > 0 {
      var m := n - 1;
      HeldIff(v, iterations, m);
      LockStep(v, iterations, m);
      if LockAfter(v, iterations[..m]).guard.Some? && iterations[m].pingOk {
        assert forall k: nat | k < m :: GotAndKept(v, iterations, k, n) <==> GotAndKept(v, iterations, k, m);
      } else {
        assert forall k: nat | k < m && GotAndKept(v, iterations, k, n) ::
            GotAndKept(v, iterations, k, m) && iterations[m].pingOk;
        assert GotAndKept(v, iterations, m, n) <==> LockAfter(v, iterations[..n]).guard.Some?;
      }
    }
  }

  function Ticks(trace: seq<Outcome>): seq<Tick>
  {
    if trace == [] then []
    else
      var last := trace[|trace| - 1];
      Ticks(trace[..|trace| - 1]) + if last.tick.Some? then [last.tick.value] else []
  }

  /** The decision of an iteration is the one for its position among the auctions cut so far. */
  predicate Decided(trace: seq<Outcome>, k: nat)
    requires k < |trace|
  {
    var before := Ticks(trace[..k]);
    trace[k].ran <==> trace[k].tick.Some? && Runs(before + [trace[k].tick.value], |before|)
  }

  ghost predicate AllDecided(trace: seq<Outcome>)
  {
    forall k | 0 <= k < |trace| :: Decided(trace, k)
  }

  lemma OutcomeAppended(trace: seq<Outcome>, o: Outcome, m: Memory)
    requires AllDecided(trace) && m == MemoryAfter(Ticks(trace))
    requires o.ran <==> o.tick.Some? && !Skips(m, o.tick.value)
    ensures AllDecided(trace + [o])
    ensures MemoryAfter(Ticks(trace + [o])) == if o.tick.Some? then Remember(m, o.tick.value) else m
  {
    var trace' := trace + [o];
    assert trace'[..|trace|] == trace;
    if o.tick.Some? {
      assert (Ticks(trace) + [o.tick.value])[..|Ticks(trace)|] == Ticks(trace);
    } else {
      assert Ticks(trace') == Ticks(trace);
    }
    forall i | 0 <= i < |trace|
      ensures Decided(trace', i)
    {
      assert Decided(trace, i) && trace'[..i] == trace[..i];
    }
  }

  /** The auction on offer was cut, in the block the iteration started in. */
  predicate CutsOffer(o: Outcome, it: Iteration)
  {
    && (o.tick.Some? ==> it.cut.Some? && o.tick.value.auction == it.cut.value.data && o.tick.value.block == it.start)
    && (o.ran ==> o.tick.Some?)
  }

  method RunIteration(tracker: Tracker, it: Iteration, m: Memory) returns (outcome: Outcome, m': Memory)
    requires tracker.Valid()
    modifies tracker, tracker.lock
    ensures tracker.Valid() && CutsOffer(outcome, it)
    ensures tracker.lock == null ==> (outcome.tick.Some? <==> it.cut.Some?)
    ensures tracker.lock != null ==>
              && tracker.lock.Snapshot() == AfterAcquire(old(tracker.lock.Snapshot()), it.now, it.pingOk, it.attempt)
              && (outcome.tick.Some? <==> tracker.lock.guard.Some? && it.cut.Some?)
    ensures outcome.ran <==> outcome.tick.Some? && !Skips(m, outcome.tick.value)
    ensures m' == if outcome.tick.Some? then Remember(m, outcome.tick.value) else m
  {
    tracker.TryAcquire(it.now, it.pingOk, it.attempt);
    outcome := Outcome(None, false);
    m' := m;
    if tracker.Leads() {
      var run;
      run, m' := NextAuction(it.cut, it.start, m);
      if it.cut.Some? {
        outcome := Outcome(Some(Tick(it.cut.value.data, it.start)), run.Some?);
      }
    }
  }

  /** What is known of the lock, if there is one. */
  function ViewOf(tracker: Tracker): Option<View>
    reads tracker, tracker.lock
  {
    if tracker.lock == null then None else Some(tracker.lock.Snapshot())
  }

  /** There is no lock, or its guard is held after the k-th iteration. */
  predicate MayCut(view: Option<View>, iterations: seq<Iteration>, k: nat)
    requires k < |iterations|
  {
    view.None? || LockAfter(view.value, iterations[..k + 1]).guard.Some?
  }

  /** Every iteration cuts the auction on offer if there is no lock or its guard is held, and otherwise none. */
  ghost predicate CutsUnderLock(view: Option<View>, iterations: seq<Iteration>, trace: seq<Outcome>)
    requires |trace| <= |iterations|
  {
    forall k | 0 <= k < |trace| ::
      && (trace[k].tick.Some? <==> MayCut(view, iterations, k) && iterations[k].cut.Some?)
      && CutsOffer(trace[k], iterations[k])
  }

  lemma CutExtended(view: Option<View>, iterations: seq<Iteration>, trace: seq<Outcome>, o: Outcome)
    requires |trace| < |iterations| && CutsUnderLock(view, iterations, trace) && CutsOffer(o, iterations[|trace|])
    requires o.tick.Some? <==> MayCut(view, iterations, |trace|) && iterations[|trace|].cut.Some?
    ensures CutsUnderLock(view, iterations, trace + [o])
  {
  }

  /** One iteration, as part of the run so far. */
  method RunNext(tracker: Tracker, ghost view: Option<View>, iterations: seq<Iteration>, trace: seq<Outcome>, m: Memory)
    returns (trace': seq<Outcome>, m': Memory)
    requires |trace| < |iterations| && tracker.Valid() && (tracker.lock == null <==> view.None?)
    requires view.Some? ==> ViewOf(tracker) == Some(LockAfter(view.value, iterations[..|trace|]))
    requires CutsUnderLock(view, iterations, trace) && AllDecided(trace) && m == MemoryAfter(Ticks(trace))
    modifies tracker, tracker.lock
    ensures |trace'| == |trace| + 1 && tracker.Valid()
    ensures view.Some? ==> ViewOf(tracker) == Some(LockAfter(view.value, iterations[..|trace'|]))
    ensures CutsUnderLock(view, iterations, trace') && AllDecided(trace') && m' == MemoryAfter(Ticks(trace'))
  {
    var outcome;
    outcome, m' := RunIteration(tracker, iterations[|trace|], m);
    if view.Some? { LockStep(view.value, iterations, |trace|); }
    OutcomeAppended(trace, outcome, m);
    CutExtended(view, iterations, trace, outcome);
    trace' := trace + [outcome];
  }

  method RunForever(tracker: Tracker, iterations: seq<Iteration>)
    returns (trace: seq<Outcome>, unlocked: Option<Session>)
    requires tracker.Valid()
    modifies tracker, tracker.lock
    ensures |trace| == |iterations|
    // an auction on offer is cut exactly if the guard is held, or if there is no lock
    ensures tracker.lock != null ==> forall k | 0 <= k < |trace| ::
        trace[k].tick.Some? <==>
        LockAfter(old(tracker.lock.Snapshot()), iterations[..k + 1]).guard.Some? && iterations[k].cut.Some?
    ensures tracker.lock == null ==> forall k | 0 <= k < |trace| :: trace[k].tick.Some? <==> iterations[k].cut.Some?
    ensures forall k | 0 <= k < |trace| :: CutsOffer(trace[k], iterations[k])
    // and it is run unless nothing changed
    ensures AllDecided(trace)
    // the lock is given back exactly if it is held at shutdown
    ensures tracker.lock != null ==>
              tracker.lock.guard.None? && unlocked == LockAfter(old(tracker.lock.Snapshot()), iterations).guard
    ensures tracker.lock == null ==> unlocked.None?
  {
    var m := Memory(None, None);
    trace := [];
    ghost var view := ViewOf(tracker);
    for k := 0 to |iterations|
      invariant |trace| == k && tracker.Valid()
      invariant CutsUnderLock(view, iterations, trace) && AllDecided(trace) && m == MemoryAfter(Ticks(trace))
      invariant view.Some? ==> ViewOf(tracker) == Some(LockAfter(view.value, iterations[..k]))
    {
      trace, m := RunNext(tracker, view, iterations, trace, m);
    }
    assert iterations[..|iterations|] == iterations;
    unlocked := tracker.Release();
  }

  // ------------------------------------------------------------ waiting for a settlement

  datatype FindResult = Found(tx: Hash) | NotFound | LookupFailed
  datatype SettleResult = Settled(tx: Hash) | Timeout

  /**
   `stream` are the values of the block channel and `current` is the position of its value when the
   wait starts. The i-th wait for a new block ends with the value at position `waits(i)`, and
   `find(i)` is the lookup made once that block is processed. `n` counts the waits.
   */
  method WaitForSettlementTransaction(stream: nat -> int, current: nat, waits: nat -> nat,
                                      deadline: int, find: nat -> FindResult) returns (r: SettleResult, n: nat)
    requires forall i: nat, j: nat | i < j :: stream(i) < stream(j)
    requires current < waits(0) && forall i: nat, j: nat | i < j :: waits(i) < waits(j)
    ensures 1 <= n <= if deadline - stream(current) > 1 then deadline - stream(current) else 1
    // all blocks before the last one are before the deadline, and all lookups before it failed
    ensures forall i: nat | i < n - 1 :: stream(waits(i)) < deadline && !find(i).Found?
    ensures r.Settled? ==> find(n - 1) == Found(r.tx)
    ensures r.Timeout? <==> stream(waits(n - 1)) >= deadline && forall i: nat | i < n :: !find(i).Found?
  {
    n := 0;
    while true
      invariant forall i: nat | i < n :: stream(waits(i)) < deadline && !find(i).Found?
      invariant n > 0 ==> stream(waits(n - 1)) - stream(current) >= n
      decreases deadline - stream(waits(n))
    {
      var block := stream(waits(n));
      n := n + 1;
      match find(n - 1)
      case Found(tx) => return Settled(tx), n;
      case _ =>
      if block >= deadline { break; }
      assert waits(n - 1) < waits(n);
    }
    r := Timeout;
  }
}

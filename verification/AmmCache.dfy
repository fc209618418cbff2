/**
 The index of CoW AMM pools: an in-memory cache beside a table, both filled from the pool creation
 events of one factory and rolled back together when the chain reorganises.
 */
module AmmCache {
  import opened Common
  import opened Sequences

  datatype Amm = Amm(address: Address, tokens: seq<Address>)

  /** A row of the table without its key, the address of the pool. */
  datatype Row = Row(factory: Address, tokens: seq<Address>, block: int, txHash: Hash)

  datatype CowAmm = CowAmm(address: Address, row: Row)

  /** What asking the helper contract about a pool can lead to. */
  datatype Lookup = Supported(tokens: seq<Address>) | TransportError | Unsupported

  datatype PoolEvent = PoolEvent(block: Option<nat>, txHash: Option<Hash>, amm: Address, lookup: Lookup)

  datatype Pool = Pool(block: int, txHash: Hash, amm: Amm)

  type Cache = map<int, seq<Amm>>

  // -------------------------------------------------------------- the steps of an append

  /** Events without their block or transaction and unsupported pools are skipped; a transport error aborts. */
  function Processed(events: seq<PoolEvent>): Result<seq<Pool>, Failure>
  {
    if events == [] then Ok([])
    else
      var before, e := Processed(events[..|events| - 1]), events[|events| - 1];
      if before.Err? || e.block.None? || e.txHash.None? || e.lookup.Unsupported? then before
      else if e.lookup.TransportError? then Err(Failure)
      else Ok(before.value + [Pool(e.block.value, e.txHash.value, Amm(e.amm, e.lookup.tokens))])
  }

  /** The rows for the table; a pool whose block number is too large has none. */
  function DbRows(pools: seq<Pool>, factory: Address): seq<CowAmm>
  {
    if pools == [] then []
    else
      var before, p := DbRows(pools[..|pools| - 1], factory), pools[|pools| - 1];
      if p.block <= I64_MAX then before + [CowAmm(p.amm.address, Row(factory, p.amm.tokens, p.block, p.txHash))]
      else before
  }

  function Overwrite(rows: map<Address, Row>, amms: seq<CowAmm>): map<Address, Row>
  {
    if amms == [] then rows
    else Overwrite(rows, amms[..|amms| - 1])[amms[|amms| - 1].address := amms[|amms| - 1].row]
  }

  function PushAll(cache: Cache, pools: seq<Pool>): Cache
  {
    if pools == [] then cache
    else
      var before, p := PushAll(cache, pools[..|pools| - 1]), pools[|pools| - 1];
      before[p.block := CachedAt(before, p.block) + [p.amm]]
  }

  function CachedAt(cache: Cache, block: int): seq<Amm>
  {
    if block in cache then cache[block] else []
  }

  ghost predicate AddressesDiffer(amms: seq<CowAmm>)
  {
    forall i, j | 0 <= i < j < |amms| :: amms[i].address != amms[j].address
  }

  const BATCH_SIZE := 200

  /** Postgres refuses a statement that would update a row twice. */
  ghost predicate BatchesAccepted(amms: seq<CowAmm>)
  {
    if |amms| <= BATCH_SIZE then AddressesDiffer(amms)
    else AddressesDiffer(amms[..BATCH_SIZE]) && BatchesAccepted(amms[BATCH_SIZE..])
  }

  /** The table and the cache. */
  datatype State = State(rows: map<Address, Row>, cache: Cache)

  function Appended(s: State, factory: Address, pools: seq<Pool>): State
  {
    State(Overwrite(s.rows, DbRows(pools, factory)), PushAll(s.cache, pools))
  }

  ghost predicate AppendSucceeds(factory: Address, events: seq<PoolEvent>, dbFails: bool)
  {
    && Processed(events).Ok?
    && (Processed(events).value == [] || (!dbFails && BatchesAccepted(DbRows(Processed(events).value, factory))))
  }

  ghost function AfterAppend(s: State, factory: Address, events: seq<PoolEvent>, dbFails: bool): State
  {
    if AppendSucceeds(factory, events, dbFails) then Appended(s, factory, Processed(events).value) else s
  }

  function WithoutRange(s: State, factory: Address, start: nat, end: nat): State
  {
    State(map a | a in s.rows && !(s.rows[a].factory == factory && start <= s.rows[a].block <= end) :: s.rows[a],
          map b | b in s.cache && !(start <= b <= end) :: s.cache[b])
  }

  /** `deleteFails` and `dbFails` are the failures of the two accesses to the database. */
  ghost predicate RangeDeleted(start: nat, end: nat, deleteFails: bool)
  {
    !deleteFails && start <= I64_MAX && end <= I64_MAX
  }

  ghost function AfterReplace(s: State, factory: Address, events: seq<PoolEvent>, start: nat, end: nat,
                              deleteFails: bool, dbFails: bool): State
  {
    if RangeDeleted(start, end, deleteFails) then
      AfterAppend(WithoutRange(s, factory, start, end), factory, events, dbFails)
    else s
  }

  function Retained(amms: seq<Amm>, removed: seq<Address>): seq<Amm>
  {
    if amms == [] then []
    else
      var before, amm := Retained(amms[..|amms| - 1], removed), amms[|amms| - 1];
      if amm.address in removed then before else before + [amm]
  }

  function AfterRemove(s: State, removed: seq<Address>): State
  {
    s.(cache := map b | b in s.cache :: Retained(s.cache[b], removed))
  }

  // -------------------------------------------------------------------- in the code's form

  class AmmTable {
    var rows: map<Address, Row>

    /** One statement for a batch. */
    method Upsert(amms: seq<CowAmm>) returns (r: Result<(), Failure>)
      modifies this
      ensures r.Ok? <==> AddressesDiffer(amms)
      ensures rows == if r.Ok? then Overwrite(old(rows), amms) else old(rows)
    {
      var updated := rows;
      var touched: set<Address> := {};
      for i := 0 to |amms|
        invariant updated == Overwrite(old(rows), amms[..i]) && rows == old(rows)
        invariant forall a :: a in touched <==> exists j :: 0 <= j < i && amms[j].address == a
        invariant AddressesDiffer(amms[..i])
      {
        if amms[i].address in touched {
          return Err(Failure);
        }
        assert amms[..i + 1][..i] == amms[..i];
        touched := touched + {amms[i].address};
        updated := updated[amms[i].address := amms[i].row];
      }
      assert amms[..|amms|] == amms;
      rows := updated;
      return Ok(());
    }

    /** Batch after batch; on an error the rest is not tried and the caller's transaction is rolled back. */
    method UpsertBatched(amms: seq<CowAmm>) returns (r: Result<(), Failure>)
      modifies this
      ensures r.Ok? <==> BatchesAccepted(amms)
      ensures r.Ok? ==> rows == Overwrite(old(rows), amms)
    {
      var done := 0;
      while done < |amms|
        invariant 0 <= done <= |amms|
        invariant rows == Overwrite(old(rows), amms[..done])
        invariant BatchesAccepted(amms) <==> BatchesAccepted(amms[done..])
      {
        var n := if |amms| - done < BATCH_SIZE then |amms| - done else BATCH_SIZE;
        var batch := amms[done..done + n];
        assert batch == amms[done..][..n];
        assert amms[done..][n..] == amms[done + n..];
        BatchSplit(amms[done..], n);
        r := Upsert(batch);
        if r.Err? { return; }
        OverwriteAppend(old(rows), amms[..done], batch);
        assert amms[..done] + batch == amms[..done + n];
        done := done + n;
      }
      assert amms[..|amms|] == amms;
      return Ok(());
    }

    method DeleteByBlockRange(factory: Address, start: int, end: int)
      modifies this
      ensures rows == map a | && a in old(rows)
                              && !(old(rows)[a].factory == factory && start <= old(rows)[a].block <= end) ::
                        old(rows)[a]
    {
      rows := map a | a in rows && !(rows[a].factory == factory && start <= rows[a].block <= end) :: rows[a];
    }
  }

  lemma BatchSplit(amms: seq<CowAmm>, n: nat)
    requires amms != [] && n == if |amms| < BATCH_SIZE then |amms| else BATCH_SIZE
    ensures BatchesAccepted(amms) <==> AddressesDiffer(amms[..n]) && BatchesAccepted(amms[n..])
  {
    if |amms| <= BATCH_SIZE {
      assert amms[..n] == amms && amms[n..] == [];
    }
  }

  /** The rows are accepted exactly if no address is repeated among the first 200, the next 200, and so on. */
  lemma {:induction false} BatchesAcceptedIff(amms: seq<CowAmm>)
    ensures BatchesAccepted(amms) <==>
            forall i, j | 0 <= i < j < |amms| && i / 200 == j / 200 :: amms[i].address != amms[j].address
    decreases |amms|
  {
    if |amms| > 200 {
      var first, rest := amms[..200], amms[200..];
      BatchesAcceptedIff(rest);
      assert forall i | 0 <= i < |rest| :: rest[i] == amms[i + 200] && (i + 200) / 200 == i / 200 + 1;
      assert forall i | 200 <= i < |amms| :: amms[i] == rest[i - 200] && i / 200 == (i - 200) / 200 + 1;
    }
  }

  lemma {:induction false} OverwriteAppend(rows: map<Address, Row>, a: seq<CowAmm>, b: seq<CowAmm>)
    ensures Overwrite(rows, a + b) == Overwrite(Overwrite(rows, a), b)
    decreases |b|
  {
    if b == [] {
      assert a + b == a;
    } else {
      assert (a + b)[..|a + b| - 1] == a + b[..|b| - 1];
      OverwriteAppend(rows, a, b[..|b| - 1]);
    }
  }

  class Storage {
    const factory: Address
    const db: AmmTable
    var cache: Cache

    constructor (factory: Address, db: AmmTable)
      ensures this.factory == factory && this.db == db && cache == map[]
    {
      this.factory := factory;
      this.db := db;
      cache := map[];
    }

    function Contents(): State
      reads this, db
    {
      State(db.rows, cache)
    }

    /** `fetched` is the answer of the database, and `lookups` are those of the helper for each pool. */
    method InitializeFromDatabase(fetched: Result<seq<CowAmm>, Failure>, lookups: seq<Lookup>)
      returns (r: Result<(), Failure>)
      requires fetched.Ok? ==> |lookups| == |fetched.value|
      modifies this
      ensures r.Ok? <==> fetched.Ok? && forall i | 0 <= i < |lookups| ::
                           lookups[i].Supported? && fetched.value[i].row.block >= 0
      ensures cache == if r.Ok? then PushAll(old(cache), Restored(fetched.value, lookups)) else old(cache)
    {
      if fetched.Err? { return Err(Failure); }
      var pools := [];
      for i := 0 to |lookups|
        invariant forall j | 0 <= j < i :: lookups[j].Supported? && fetched.value[j].row.block >= 0
        invariant pools == Restored(fetched.value[..i], lookups[..i])
      {
        var stored := fetched.value[i];
        if !lookups[i].Supported? || stored.row.block < 0 { return Err(Failure); }
        assert fetched.value[..i + 1][..i] == fetched.value[..i] && lookups[..i + 1][..i] == lookups[..i];
        pools := pools + [Pool(stored.row.block, stored.row.txHash, Amm(stored.address, lookups[i].tokens))];
      }
      assert fetched.value[..|lookups|] == fetched.value && lookups[..|lookups|] == lookups;
      AddToCache(pools);
      return Ok(());
    }

    method AddToCache(pools: seq<Pool>)
      modifies this
      ensures cache == PushAll(old(cache), pools)
    {
      for i := 0 to |pools|
        invariant cache == PushAll(old(cache), pools[..i])
      {
        assert pools[..i + 1][..i] == pools[..i];
        cache := cache[pools[i].block := CachedAt(cache, pools[i].block) + [pools[i].amm]];
      }
      assert pools[..|pools|] == pools;
    }

    method AppendEvents(events: seq<PoolEvent>, dbFails: bool) returns (r: Result<(), Failure>)
      modifies this, db
      ensures r.Ok? <==> AppendSucceeds(factory, events, dbFails)
      ensures Contents() == AfterAppend(old(Contents()), factory, events, dbFails)
      ensures (exists e :: e in events && IsComplete(e) && e.lookup.TransportError?) ==> r.Err?
      ensures (exists e :: e in events && IsComplete(e) && e.lookup.Supported?) && dbFails ==> r.Err?
      ensures (forall e | e in events && IsComplete(e) :: e.lookup.Unsupported?) ==>
                r.Ok? && Contents() == old(Contents())
      ensures r.Ok? ==> CacheGained(old(cache), cache, events) && TableGained(old(db.rows), db.rows, factory, events)
      ensures r.Err? ==> Contents() == old(Contents())
    {
      AppendGains(Contents(), factory, events, dbFails);
      var pools := [];
      for i := 0 to |events|
        invariant Processed(events[..i]) == Ok(pools) && Contents() == old(Contents())
      {
        var e := events[i];
        assert events[..i + 1][..i] == events[..i];
        if e.block.None? || e.txHash.None? { continue; }
        match e.lookup
        case Supported(tokens) => pools := pools + [Pool(e.block.value, e.txHash.value, Amm(e.amm, tokens))];
        case TransportError =>
          AbortStays(events, i + 1);
          return Err(Failure);
        case Unsupported => continue;
      }
      assert events[..|events|] == events;
      if pools != [] {
        if dbFails { return Err(Failure); }
        var before := db.rows;
        var stored := db.UpsertBatched(DbRows(pools, factory));
        if stored.Err? {
          db.rows := before;
          return Err(Failure);
        }
      }
      AddToCache(pools);
      return Ok(());
    }

    method ReplaceEvents(events: seq<PoolEvent>, start: nat, end: nat, deleteFails: bool, dbFails: bool)
      returns (r: Result<(), Failure>)
      modifies this, db
      ensures r.Ok? <==> RangeDeleted(start, end, deleteFails) && AppendSucceeds(factory, events, dbFails)
      ensures deleteFails || start > I64_MAX || end > I64_MAX ==> r.Err? && Contents() == old(Contents())
      // once the range is deleted, a failing append leaves it deleted
      ensures r.Err? && !deleteFails && start <= I64_MAX && end <= I64_MAX ==>
                Contents() == WithoutRange(old(Contents()), factory, start, end)
      ensures Contents() == AfterReplace(old(Contents()), factory, events, start, end, deleteFails, dbFails)
    {
      if start > I64_MAX || end > I64_MAX || deleteFails { return Err(Failure); }
      db.DeleteByBlockRange(factory, start, end);
      RemoveBlocks(start, end);
      assert Contents() == WithoutRange(old(Contents()), factory, start, end);
      r := AppendEvents(events, dbFails);
    }

    method RemoveBlocks(start: nat, end: nat)
      modifies this
      ensures cache == map b | b in old(cache) && !(start <= b <= end) :: old(cache)[b]
    {
      var key := start;
      while key <= end
        invariant start <= key && (key <= end + 1 || key == start)
        invariant cache == map b | b in old(cache) && !(start <= b < key) :: old(cache)[b]
      {
        cache := cache - {key};
        key := key + 1;
      }
    }

    method RemoveAmms(removed: seq<Address>)
      modifies this
      ensures Contents() == AfterRemove(old(Contents()), removed)
    {
      var left := cache.Keys;
      while left != {}
        invariant left <= old(cache).Keys && cache.Keys == old(cache).Keys
        invariant forall b | b in left :: cache[b] == old(cache)[b]
        invariant forall b | b in cache && b !in left :: cache[b] == Retained(old(cache)[b], removed)
        decreases |left|
      {
        ghost var some := HasMember(left);
        var block :| block in left;
        var kept := RetainAmms(cache[block], removed);
        cache := cache[block := kept];
        left := left - {block};
      }
      RetainedEverywhere(old(cache), cache, removed);
    }

    static method RetainAmms(amms: seq<Amm>, removed: seq<Address>) returns (kept: seq<Amm>)
      ensures kept == Retained(amms, removed)
    {
      kept := [];
      for i := 0 to |amms|
        invariant kept == Retained(amms[..i], removed)
      {
        assert amms[..i + 1][..i] == amms[..i];
        if amms[i].address !in removed {
          kept := kept + [amms[i]];
        }
      }
      assert amms[..|amms|] == amms;
    }
  }

  lemma RetainedEverywhere(before: Cache, after: Cache, removed: seq<Address>)
    requires after.Keys == before.Keys && forall b | b in after :: after[b] == Retained(before[b], removed)
    ensures after == map b | b in before :: Retained(before[b], removed)
  {
    var expected := map b | b in before :: Retained(before[b], removed);
    forall b: int | b in after
      ensures after[b] == expected[b]
    {
    }
    MapsEqual(after, expected);
  }

  /** The pools put into the cache for the rows of the table. */
  function Restored(fetched: seq<CowAmm>, lookups: seq<Lookup>): seq<Pool>
    requires |fetched| == |lookups| && forall l | l in lookups :: l.Supported?
  {
    if fetched == [] then []
    else
      var last := |fetched| - 1;
      Restored(fetched[..last], lookups[..last]) +
      [Pool(fetched[last].row.block, fetched[last].row.txHash, Amm(fetched[last].address, lookups[last].tokens))]
  }

  lemma {:induction false} AbortStays(events: seq<PoolEvent>, n: nat)
    requires n <= |events| && Processed(events[..n]).Err?
    ensures Processed(events).Err?
    decreases |events|
  {
    if n == |events| {
      assert events[..n] == events;
    } else {
      assert events[..|events| - 1][..n] == events[..n];
      AbortStays(events[..|events| - 1], n);
    }
  }

  // ------------------------------------------------------------- which events become pools

  /** The event has its block and its transaction. */
  predicate IsComplete(e: PoolEvent)
  {
    e.block.Some? && e.txHash.Some?
  }

  /** The event creates this pool in this block. */
  predicate Creates(e: PoolEvent, block: int, amm: Amm)
  {
    IsComplete(e) && e.block.value == block && e.amm == amm.address && e.lookup == Supported(amm.tokens)
  }

  /** The positions of the events that create a pool in a block. */
  function Creations(events: seq<PoolEvent>, block: int, amm: Amm): set<int>
  {
    set i | 0 <= i < |events| && Creates(events[i], block, amm)
  }

  /** Processing fails if and only if a complete event could not be looked up for a transport error. */
  lemma {:induction false} ProcessedFailsIff(events: seq<PoolEvent>)
    ensures Processed(events).Err? <==> exists e :: e in events && IsComplete(e) && e.lookup.TransportError?
  {
    if events != [] {
      var init, last := events[..|events| - 1], events[|events| - 1];
      ProcessedFailsIff(init);
      assert events == init + [last];
    }
  }

  lemma CreationsExtended(events: seq<PoolEvent>, e: PoolEvent, block: int, amm: Amm)
    ensures |Creations(events + [e], block, amm)| ==
            |Creations(events, block, amm)| + if Creates(e, block, amm) then 1 else 0
  {
    var all := Creations(events + [e], block, amm);
    assert forall i | 0 <= i < |events| :: (events + [e])[i] == events[i];
    if Creates(e, block, amm) {
      SetsEqual(all, Creations(events, block, amm) + {|events|});
    } else {
      SetsEqual(all, Creations(events, block, amm));
    }
  }

  /** How often exactly this pool is cached for a block. */
  function Cached(cache: Cache, block: int, amm: Amm): nat
  {
    multiset(CachedAt(cache, block))[amm]
  }

  lemma PushAllExtended(cache: Cache, pools: seq<Pool>, p: Pool, block: int, amm: Amm)
    ensures Cached(PushAll(cache, pools + [p]), block, amm) ==
            Cached(PushAll(cache, pools), block, amm) + if p.block == block && p.amm == amm then 1 else 0
  {
    assert (pools + [p])[..|pools|] == pools;
  }

  lemma CacheAfterOne(cache: Cache, events: seq<PoolEvent>, e: PoolEvent, block: int, amm: Amm)
    requires Processed(events + [e]).Ok?
    ensures Processed(events).Ok?
    ensures Cached(PushAll(cache, Processed(events + [e]).value), block, amm) ==
            Cached(PushAll(cache, Processed(events).value), block, amm) + if Creates(e, block, amm) then 1 else 0
  {
    assert (events + [e])[..|events|] == events;
    if IsComplete(e) && e.lookup.Supported? {
      var p := Pool(e.block.value, e.txHash.value, Amm(e.amm, e.lookup.tokens));
      PushAllExtended(cache, Processed(events).value, p, block, amm);
    }
  }

  /** The cache gains a pool in a block as often as complete events create it there. */
  lemma {:induction false} CacheGains(cache: Cache, events: seq<PoolEvent>, block: int, amm: Amm)
    requires Processed(events).Ok?
    ensures Cached(PushAll(cache, Processed(events).value), block, amm) ==
            Cached(cache, block, amm) + |Creations(events, block, amm)|
  {
    if events == [] {
      SetsEqual(Creations(events, block, amm), {});
    } else {
      var init, e := events[..|events| - 1], events[|events| - 1];
      assert events == init + [e];
      CacheAfterOne(cache, init, e, block, amm);
      CacheGains(cache, init, block, amm);
      CreationsExtended(init, e, block, amm);
    }
  }

  ghost predicate CacheGained(before: Cache, after: Cache, events: seq<PoolEvent>)
  {
    forall block, amm ::
      Cached(after, block, amm) == Cached(before, block, amm) + |Creations(events, block, amm)|
  }

  /** The row an event leaves in the table, if it leaves one. */
  function RowFor(e: PoolEvent, factory: Address): Option<Row>
  {
    if IsComplete(e) && e.lookup.Supported? && e.block.value <= I64_MAX then
      Some(Row(factory, e.lookup.tokens, e.block.value, e.txHash.value))
    else None
  }

  /** The row is that of the last event of the pool, or the old one if there is no such event. */
  ghost predicate IsRowAfter(before: map<Address, Row>, factory: Address, events: seq<PoolEvent>, a: Address,
                             row: Option<Row>)
  {
    if exists k :: 0 <= k < |events| && events[k].amm == a && RowFor(events[k], factory).Some? then
      exists k :: 0 <= k < |events| && events[k].amm == a && row.Some? && row == RowFor(events[k], factory)
                  && forall j | k < j < |events| :: events[j].amm == a ==> RowFor(events[j], factory).None?
    else row == if a in before then Some(before[a]) else None
  }

  function RowIn(rows: map<Address, Row>, a: Address): Option<Row>
  {
    if a in rows then Some(rows[a]) else None
  }

  lemma RowAfterOne(before: map<Address, Row>, factory: Address, events: seq<PoolEvent>, e: PoolEvent, a: Address,
                    row: Option<Row>)
    requires IsRowAfter(before, factory, events, a, row)
    ensures IsRowAfter(before, factory, events + [e], a,
                       if e.amm == a && RowFor(e, factory).Some? then RowFor(e, factory) else row)
  {
    var all := events + [e];
    assert all[|events|] == e && forall k | 0 <= k < |events| :: all[k] == events[k];
    if !(e.amm == a && RowFor(e, factory).Some?) {
      if k :| 0 <= k < |events| && events[k].amm == a && RowFor(events[k], factory).Some? {
        var last :| 0 <= last < |events| && events[last].amm == a && row.Some? && row == RowFor(events[last], factory)
                    && forall j | last < j < |events| :: events[j].amm == a ==> RowFor(events[j], factory).None?;
        assert all[last].amm == a && row == RowFor(all[last], factory);
      }
    }
  }

  ghost function RowsAfter(rows: map<Address, Row>, factory: Address, events: seq<PoolEvent>): map<Address, Row>
    requires Processed(events).Ok?
  {
    Overwrite(rows, DbRows(Processed(events).value, factory))
  }

  lemma RowsAfterOne(rows: map<Address, Row>, factory: Address, events: seq<PoolEvent>, e: PoolEvent, a: Address)
    requires Processed(events + [e]).Ok?
    ensures Processed(events).Ok?
    ensures RowIn(RowsAfter(rows, factory, events + [e]), a) ==
            if e.amm == a && RowFor(e, factory).Some? then RowFor(e, factory)
            else RowIn(RowsAfter(rows, factory, events), a)
  {
    assert (events + [e])[..|events|] == events;
    if IsComplete(e) && e.lookup.Supported? {
      OneMoreRow(rows, factory, Processed(events).value,
                 Pool(e.block.value, e.txHash.value, Amm(e.amm, e.lookup.tokens)));
    }
  }

  /** Every pool has the row of the last event that created it and could be stored, and all others are unchanged. */
  lemma {:induction false} TableGains(rows: map<Address, Row>, factory: Address, events: seq<PoolEvent>, a: Address)
    requires Processed(events).Ok?
    ensures IsRowAfter(rows, factory, events, a, RowIn(RowsAfter(rows, factory, events), a))
  {
    if events != [] {
      var init, e := events[..|events| - 1], events[|events| - 1];
      assert events == init + [e];
      RowsAfterOne(rows, factory, init, e, a);
      TableGains(rows, factory, init, a);
      RowAfterOne(rows, factory, init, e, a, RowIn(RowsAfter(rows, factory, init), a));
    }
  }

  lemma OneMoreRow(rows: map<Address, Row>, factory: Address, pools: seq<Pool>, p: Pool)
    ensures Overwrite(rows, DbRows(pools + [p], factory)) ==
            if p.block <= I64_MAX then
              Overwrite(rows, DbRows(pools, factory))[
                p.amm.address := Row(factory, p.amm.tokens, p.block, p.txHash)]
            else Overwrite(rows, DbRows(pools, factory))
  {
    assert (pools + [p])[..|pools|] == pools;
    if p.block <= I64_MAX {
      var stored, one := DbRows(pools, factory), CowAmm(p.amm.address, Row(factory, p.amm.tokens, p.block, p.txHash));
      assert (stored + [one])[..|stored|] == stored;
    }
  }

  ghost predicate TableGained(before: map<Address, Row>, after: map<Address, Row>, factory: Address,
                              events: seq<PoolEvent>)
  {
    forall a :: IsRowAfter(before, factory, events, a, RowIn(after, a))
  }

  /** There is nothing to store exactly if no complete event is about a supported pool. */
  lemma {:induction false} NothingProcessedIff(events: seq<PoolEvent>)
    requires Processed(events).Ok?
    ensures Processed(events).value == [] <==> forall e | e in events :: !(IsComplete(e) && e.lookup.Supported?)
  {
    if events != [] {
      var init, last := events[..|events| - 1], events[|events| - 1];
      NothingProcessedIff(init);
      assert events == init + [last];
    }
  }

  lemma CacheGainsAll(cache: Cache, events: seq<PoolEvent>)
    requires Processed(events).Ok?
    ensures CacheGained(cache, PushAll(cache, Processed(events).value), events)
  {
    forall block, amm
      ensures Cached(PushAll(cache, Processed(events).value), block, amm) ==
              Cached(cache, block, amm) + |Creations(events, block, amm)|
    {
      CacheGains(cache, events, block, amm);
    }
  }

  lemma TableGainsAll(rows: map<Address, Row>, factory: Address, events: seq<PoolEvent>)
    requires Processed(events).Ok?
    ensures TableGained(rows, RowsAfter(rows, factory, events), factory, events)
  {
    forall a
      ensures IsRowAfter(rows, factory, events, a, RowIn(RowsAfter(rows, factory, events), a))
    {
      TableGains(rows, factory, events, a);
    }
  }

  lemma AppendGains(s: State, factory: Address, events: seq<PoolEvent>, dbFails: bool)
    ensures (exists e :: e in events && IsComplete(e) && e.lookup.TransportError?) ==>
              !AppendSucceeds(factory, events, dbFails)
    ensures (exists e :: e in events && IsComplete(e) && e.lookup.Supported?) && dbFails ==>
              !AppendSucceeds(factory, events, dbFails)
    ensures (forall e | e in events && IsComplete(e) :: e.lookup.Unsupported?) ==>
              AppendSucceeds(factory, events, dbFails) && AfterAppend(s, factory, events, dbFails) == s
    ensures AppendSucceeds(factory, events, dbFails) ==>
              var s' := AfterAppend(s, factory, events, dbFails);
              CacheGained(s.cache, s'.cache, events) && TableGained(s.rows, s'.rows, factory, events)
  {
    ProcessedFailsIff(events);
    if Processed(events).Ok? { NothingProcessedIff(events); }
    if AppendSucceeds(factory, events, dbFails) {
      CacheGainsAll(s.cache, events);
      TableGainsAll(s.rows, factory, events);
    }
  }

  // ---------------------------------------------------------------- cache against table

  /** How often a pool is cached for a block. */
  function Occurrences(amms: seq<Amm>, a: Address): nat
  {
    if amms == [] then 0
    else Occurrences(amms[..|amms| - 1], a) + if amms[|amms| - 1].address == a then 1 else 0
  }

  function InTable(rows: map<Address, Row>, factory: Address, b: int, a: Address): nat
  {
    if a in rows && rows[a].factory == factory && rows[a].block == b then 1 else 0
  }

  /** The cache has every pool of the factory once, for its block, and nothing else. */
  ghost predicate Agrees(s: State, factory: Address)
  {
    forall b, a :: Occurrences(CachedAt(s.cache, b), a) == InTable(s.rows, factory, b, a)
  }

  /** The cache has no pool that is not in the table, and none twice. */
  ghost predicate Within(s: State, factory: Address)
  {
    forall b, a :: Occurrences(CachedAt(s.cache, b), a) <= InTable(s.rows, factory, b, a)
  }

  ghost predicate RowsFit(rows: map<Address, Row>)
  {
    forall a | a in rows :: rows[a].block <= I64_MAX
  }

  // ------------------------------------------------------------------ effects of an append

  /** How often a pool is among the new ones for a block. */
  function Added(pools: seq<Pool>, b: int, a: Address): nat
  {
    if pools == [] then 0
    else
      var p := pools[|pools| - 1];
      Added(pools[..|pools| - 1], b, a) + if p.block == b && p.amm.address == a then 1 else 0
  }

  lemma OccurrencesExtended(amms: seq<Amm>, amm: Amm, a: Address)
    ensures Occurrences(amms + [amm], a) == Occurrences(amms, a) + if amm.address == a then 1 else 0
  {
    assert (amms + [amm])[..|amms|] == amms;
  }

  lemma {:induction false} PushAllAdds(cache: Cache, pools: seq<Pool>, b: int, a: Address)
    ensures Occurrences(CachedAt(PushAll(cache, pools), b), a) ==
            Occurrences(CachedAt(cache, b), a) + Added(pools, b, a)
  {
    if pools != [] {
      var before, p := pools[..|pools| - 1], pools[|pools| - 1];
      PushAllAdds(cache, before, b, a);
      if p.block == b {
        OccurrencesExtended(CachedAt(PushAll(cache, before), b), p.amm, a);
      } else {
        assert CachedAt(PushAll(cache, pools), b) == CachedAt(PushAll(cache, before), b);
      }
    }
  }

  /** A pool that is new is counted; one that is new twice is counted twice. */
  lemma {:induction false} AddedAtLeast(pools: seq<Pool>, i: nat)
    requires i < |pools|
    ensures Added(pools, pools[i].block, pools[i].amm.address) >= 1
  {
    if i < |pools| - 1 {
      AddedAtLeast(pools[..|pools| - 1], i);
    }
  }

  lemma {:induction false} AddedTwice(pools: seq<Pool>, i: nat, j: nat)
    requires i < j < |pools| && pools[i].block == pools[j].block && pools[i].amm.address == pools[j].amm.address
    ensures Added(pools, pools[i].block, pools[i].amm.address) >= 2
  {
    if j < |pools| - 1 {
      AddedTwice(pools[..|pools| - 1], i, j);
    } else {
      AddedAtLeast(pools[..|pools| - 1], i);
    }
  }

  ghost predicate HasPool(pools: seq<Pool>, a: Address)
  {
    exists i :: 0 <= i < |pools| && pools[i].amm.address == a
  }

  lemma {:induction false} AddedNone(pools: seq<Pool>, b: int, a: Address)
    requires !HasPool(pools, a)
    ensures Added(pools, b, a) == 0
  {
    if pools != [] {
      var before := pools[..|pools| - 1];
      assert HasPool(before, a) ==> HasPool(pools, a);
      AddedNone(before, b, a);
    }
  }

  ghost predicate PoolsDiffer(pools: seq<Pool>)
  {
    forall i, j | 0 <= i < j < |pools| :: pools[i].amm.address != pools[j].amm.address
  }

  lemma {:induction false} AddedOnce(pools: seq<Pool>, k: nat, b: int)
    requires k < |pools| && PoolsDiffer(pools)
    ensures Added(pools, b, pools[k].amm.address) == if pools[k].block == b then 1 else 0
  {
    var before := pools[..|pools| - 1];
    if k < |pools| - 1 {
      AddedOnce(before, k, b);
    } else {
      AddedNone(before, b, pools[k].amm.address);
    }
  }

  lemma {:induction false} OverwriteOthers(rows: map<Address, Row>, pools: seq<Pool>, factory: Address, a: Address)
    requires !HasPool(pools, a)
    ensures
      var rows' := Overwrite(rows, DbRows(pools, factory));
      (a in rows' <==> a in rows) && (a in rows ==> rows'[a] == rows[a])
  {
    if pools != [] {
      var before, p := pools[..|pools| - 1], pools[|pools| - 1];
      assert HasPool(before, a) ==> HasPool(pools, a);
      OverwriteOthers(rows, before, factory, a);
      OverwriteStep(rows, pools, factory);
    }
  }

  lemma OverwriteStep(rows: map<Address, Row>, pools: seq<Pool>, factory: Address)
    requires pools != []
    ensures
      var before, p := pools[..|pools| - 1], pools[|pools| - 1];
      var rows' := Overwrite(rows, DbRows(before, factory));
      Overwrite(rows, DbRows(pools, factory)) ==
      if p.block <= I64_MAX then rows'[p.amm.address := Row(factory, p.amm.tokens, p.block, p.txHash)] else rows'
  {
    var before, p := pools[..|pools| - 1], pools[|pools| - 1];
    if p.block <= I64_MAX {
      var amm := CowAmm(p.amm.address, Row(factory, p.amm.tokens, p.block, p.txHash));
      assert (DbRows(before, factory) + [amm])[..|DbRows(before, factory)|] == DbRows(before, factory);
    }
  }

  lemma {:induction false} OverwriteOnce(rows: map<Address, Row>, pools: seq<Pool>, factory: Address, k: nat)
    requires k < |pools| && PoolsDiffer(pools) && pools[k].block <= I64_MAX
    ensures
      var rows', a := Overwrite(rows, DbRows(pools, factory)), pools[k].amm.address;
      a in rows' && rows'[a].factory == factory && rows'[a].block == pools[k].block
  {
    OverwriteStep(rows, pools, factory);
    if k < |pools| - 1 {
      OverwriteOnce(rows, pools[..|pools| - 1], factory, k);
    }
  }

  lemma {:induction false} OverwriteFits(rows: map<Address, Row>, pools: seq<Pool>, factory: Address)
    requires RowsFit(rows)
    ensures RowsFit(Overwrite(rows, DbRows(pools, factory)))
  {
    if pools != [] {
      OverwriteFits(rows, pools[..|pools| - 1], factory);
      OverwriteStep(rows, pools, factory);
    }
  }

  // --------------------------------------------------------------------- when they agree

  /** Every new pool is created once, is not indexed already, and its block number can be stored. */
  ghost predicate CreatedOnce(s: State, factory: Address, pools: seq<Pool>)
  {
    && PoolsDiffer(pools)
    && (forall p | p in pools :: p.block <= I64_MAX)
    && (forall p | p in pools && p.amm.address in s.rows :: s.rows[p.amm.address].factory != factory)
  }

  /** Such pools are never refused by the database, in however many batches they are stored. */
  lemma CreatedOnceIsAccepted(s: State, factory: Address, pools: seq<Pool>)
    requires CreatedOnce(s, factory, pools)
    ensures BatchesAccepted(DbRows(pools, factory))
  {
    DbRowsDiffer(pools, factory);
    DifferentAccepted(DbRows(pools, factory));
  }

  lemma {:induction false} DbRowsDiffer(pools: seq<Pool>, factory: Address)
    requires PoolsDiffer(pools)
    ensures AddressesDiffer(DbRows(pools, factory))
    ensures forall amm | amm in DbRows(pools, factory) :: HasPool(pools, amm.address)
  {
    if pools != [] {
      var before, p := pools[..|pools| - 1], pools[|pools| - 1];
      DbRowsDiffer(before, factory);
      assert forall a | HasPool(before, a) :: HasPool(pools, a);
      assert HasPool(pools, p.amm.address) && !HasPool(before, p.amm.address);
    }
  }

  lemma {:induction false} DifferentAccepted(amms: seq<CowAmm>)
    requires AddressesDiffer(amms)
    ensures BatchesAccepted(amms)
  {
    if |amms| > BATCH_SIZE {
      DifferentAccepted(amms[BATCH_SIZE..]);
    }
  }

  /** What an append adds to the cache for a pool is what it adds to the table. */
  lemma AppendAt(s: State, factory: Address, pools: seq<Pool>, b: int, a: Address)
    requires CreatedOnce(s, factory, pools)
    ensures
      var s' := Appended(s, factory, pools);
      InTable(s'.rows, factory, b, a) - InTable(s.rows, factory, b, a) ==
      Occurrences(CachedAt(s'.cache, b), a) - Occurrences(CachedAt(s.cache, b), a)
  {
    PushAllAdds(s.cache, pools, b, a);
    if k :| 0 <= k < |pools| && pools[k].amm.address == a {
      assert pools[k] in pools;
      AddedOnce(pools, k, b);
      OverwriteOnce(s.rows, pools, factory, k);
    } else {
      AddedNone(pools, b, a);
      OverwriteOthers(s.rows, pools, factory, a);
    }
  }

  /** Blocks at which a pool is cached are the block it is stored with. */
  lemma OneBlockPerPool(s: State, factory: Address, a: Address, b: int, c: int)
    requires Agrees(s, factory)
    requires Occurrences(CachedAt(s.cache, b), a) >= 1 && Occurrences(CachedAt(s.cache, c), a) >= 1
    ensures b == c && a in s.rows && s.rows[a].block == b && Occurrences(CachedAt(s.cache, b), a) == 1
  {
    assert Occurrences(CachedAt(s.cache, b), a) == InTable(s.rows, factory, b, a);
    assert Occurrences(CachedAt(s.cache, c), a) == InTable(s.rows, factory, c, a);
  }

  /** A successful append keeps the agreement exactly if every new pool is created once and can be stored. */
  lemma AppendAgreesIff(s: State, factory: Address, pools: seq<Pool>)
    requires Agrees(s, factory) && RowsFit(s.rows)
    ensures Agrees(Appended(s, factory, pools), factory) <==> CreatedOnce(s, factory, pools)
  {
    var s' := Appended(s, factory, pools);
    if CreatedOnce(s, factory, pools) {
      forall b, a
        ensures Occurrences(CachedAt(s'.cache, b), a) == InTable(s'.rows, factory, b, a)
      {
        AppendAt(s, factory, pools, b, a);
      }
    }
    if Agrees(s', factory) {
      forall k | 0 <= k < |pools|
        ensures pools[k].block <= I64_MAX
        ensures pools[k].amm.address in s.rows ==> s.rows[pools[k].amm.address].factory != factory
      {
        NewPoolIsNew(s, factory, pools, k);
      }
      forall i, j | 0 <= i < j < |pools|
        ensures pools[i].amm.address != pools[j].amm.address
      {
        NewPoolsDiffer(s, factory, pools, i, j);
      }
    }
  }

  lemma NewPoolIsNew(s: State, factory: Address, pools: seq<Pool>, k: nat)
    requires Agrees(s, factory) && RowsFit(s.rows) && Agrees(Appended(s, factory, pools), factory) && k < |pools|
    ensures pools[k].block <= I64_MAX
    ensures pools[k].amm.address in s.rows ==> s.rows[pools[k].amm.address].factory != factory
  {
    var s', p := Appended(s, factory, pools), pools[k];
    var a := p.amm.address;
    AddedAtLeast(pools, k);
    PushAllAdds(s.cache, pools, p.block, a);
    OverwriteFits(s.rows, pools, factory);
    OneBlockPerPool(s', factory, a, p.block, p.block);
    if a in s.rows && s.rows[a].factory == factory {
      var b := s.rows[a].block;
      assert Occurrences(CachedAt(s.cache, b), a) == InTable(s.rows, factory, b, a);
      PushAllAdds(s.cache, pools, b, a);
      OneBlockPerPool(s', factory, a, b, p.block);
    }
  }

  lemma NewPoolsDiffer(s: State, factory: Address, pools: seq<Pool>, i: nat, j: nat)
    requires Agrees(Appended(s, factory, pools), factory) && i < j < |pools|
    ensures pools[i].amm.address != pools[j].amm.address
  {
    var s', a := Appended(s, factory, pools), pools[i].amm.address;
    if pools[j].amm.address == a {
      AddedAtLeast(pools, i);
      AddedAtLeast(pools, j);
      PushAllAdds(s.cache, pools, pools[i].block, a);
      PushAllAdds(s.cache, pools, pools[j].block, a);
      OneBlockPerPool(s', factory, a, pools[i].block, pools[j].block);
      AddedTwice(pools, i, j);
    }
  }

  // ------------------------------------------------------------------------- whole runs

  datatype Step =
    | Append(events: seq<PoolEvent>, dbFails: bool)
    | Replace(replaced: seq<PoolEvent>, start: nat, end: nat, deleteFails: bool, failsToo: bool)
    | Remove(removed: seq<Address>)

  ghost function Next(s: State, factory: Address, step: Step): State
  {
    match step
    case Append(events, dbFails) => AfterAppend(s, factory, events, dbFails)
    case Replace(events, start, end, deleteFails, dbFails) =>
      AfterReplace(s, factory, events, start, end, deleteFails, dbFails)
    case Remove(removed) => AfterRemove(s, removed)
  }

  /** The pools an append is about are created once, as seen from the state it is applied to. */
  ghost predicate ChainIsSound(s: State, factory: Address, step: Step)
  {
    match step
    case Append(events, _) => Processed(events).Ok? ==> CreatedOnce(s, factory, Processed(events).value)
    case Replace(events, start, end, _, _) =>
      Processed(events).Ok? ==> CreatedOnce(WithoutRange(s, factory, start, end), factory, Processed(events).value)
    case Remove(_) => true
  }

  ghost function Run(s: State, factory: Address, steps: seq<Step>): State
    decreases |steps|
  {
    if steps == [] then s else Run(Next(s, factory, steps[0]), factory, steps[1..])
  }

  ghost predicate ChainIsSoundFor(s: State, factory: Address, steps: seq<Step>)
    decreases |steps|
  {
    steps == [] ||
    (ChainIsSound(s, factory, steps[0]) && ChainIsSoundFor(Next(s, factory, steps[0]), factory, steps[1..]))
  }

  lemma AppendKeeps(s: State, factory: Address, pools: seq<Pool>)
    requires CreatedOnce(s, factory, pools)
    ensures Agrees(s, factory) ==> Agrees(Appended(s, factory, pools), factory)
    ensures Within(s, factory) ==> Within(Appended(s, factory, pools), factory)
  {
    forall b, a
      ensures
        var s' := Appended(s, factory, pools);
        InTable(s'.rows, factory, b, a) - InTable(s.rows, factory, b, a) ==
        Occurrences(CachedAt(s'.cache, b), a) - Occurrences(CachedAt(s.cache, b), a)
    {
      AppendAt(s, factory, pools, b, a);
    }
  }

  lemma RollbackKeeps(s: State, factory: Address, start: nat, end: nat)
    ensures Agrees(s, factory) ==> Agrees(WithoutRange(s, factory, start, end), factory)
    ensures Within(s, factory) ==> Within(WithoutRange(s, factory, start, end), factory)
  {
    var s' := WithoutRange(s, factory, start, end);
    forall b, a
      ensures start <= b <= end ==> Occurrences(CachedAt(s'.cache, b), a) == 0 == InTable(s'.rows, factory, b, a)
      ensures !(start <= b <= end) ==>
                && Occurrences(CachedAt(s'.cache, b), a) == Occurrences(CachedAt(s.cache, b), a)
                && InTable(s'.rows, factory, b, a) == InTable(s.rows, factory, b, a)
    {
    }
  }

  lemma {:induction false} RetainedOccurrences(amms: seq<Amm>, removed: seq<Address>, a: Address)
    ensures Occurrences(Retained(amms, removed), a) == if a in removed then 0 else Occurrences(amms, a)
  {
    if amms != [] {
      var before, amm := amms[..|amms| - 1], amms[|amms| - 1];
      RetainedOccurrences(before, removed, a);
      assert (Retained(before, removed) + [amm])[..|Retained(before, removed)|] == Retained(before, removed);
    }
  }

  lemma RemoveKeepsWithin(s: State, factory: Address, removed: seq<Address>)
    requires Within(s, factory)
    ensures Within(AfterRemove(s, removed), factory)
  {
    forall b, a
      ensures Occurrences(CachedAt(AfterRemove(s, removed).cache, b), a) <= InTable(s.rows, factory, b, a)
    {
      RetainedOccurrences(CachedAt(s.cache, b), removed, a);
      assert Occurrences(CachedAt(s.cache, b), a) <= InTable(s.rows, factory, b, a);
    }
  }

  /** A step on any of its exits: a removal may drop pools from the cache, all others keep it in agreement. */
  lemma StepKeeps(s: State, factory: Address, step: Step)
    requires ChainIsSound(s, factory, step)
    ensures Within(s, factory) ==> Within(Next(s, factory, step), factory)
    ensures Agrees(s, factory) && !step.Remove? ==> Agrees(Next(s, factory, step), factory)
  {
    match step
    case Append(events, dbFails) =>
      if AppendSucceeds(factory, events, dbFails) {
        AppendKeeps(s, factory, Processed(events).value);
      }
    case Replace(events, start, end, deleteFails, dbFails) =>
      RollbackKeeps(s, factory, start, end);
      if AppendSucceeds(factory, events, dbFails) {
        AppendKeeps(WithoutRange(s, factory, start, end), factory, Processed(events).value);
      }
    case Remove(removed) =>
      if Within(s, factory) {
        RemoveKeepsWithin(s, factory, removed);
      }
  }

  /** The cache is the table on every exit of every append and rollback; removals make it a part of the table. */
  lemma {:induction false} RunsKeep(s: State, factory: Address, steps: seq<Step>)
    requires ChainIsSoundFor(s, factory, steps) && Within(s, factory)
    ensures Within(Run(s, factory, steps), factory)
    ensures Agrees(s, factory) && (forall step | step in steps :: !step.Remove?) ==>
              Agrees(Run(s, factory, steps), factory)
    decreases |steps|
  {
    if steps != [] {
      StepKeeps(s, factory, steps[0]);
      RunsKeep(Next(s, factory, steps[0]), factory, steps[1..]);
    }
  }

  // --------------------------------------------------------------------------- deliveries

  /** The creation blocks of pools that were delivered and not rolled back since. */
  type Delivered = map<Address, int>

  function PoolBlocks(pools: seq<Pool>): Delivered
  {
    if pools == [] then map[]
    else PoolBlocks(pools[..|pools| - 1])[pools[|pools| - 1].amm.address := pools[|pools| - 1].block]
  }

  function RolledBack(d: Delivered, start: nat, end: nat): Delivered
  {
    map a | a in d && !(start <= d[a] <= end) :: d[a]
  }

  ghost function AfterDelivery(d: Delivered, factory: Address, events: seq<PoolEvent>, dbFails: bool): Delivered
  {
    if AppendSucceeds(factory, events, dbFails) then d + PoolBlocks(Processed(events).value) else d
  }

  /** What is delivered depends on the steps alone: a failed step may be repeated. */
  ghost function NextDelivered(d: Delivered, factory: Address, step: Step): Delivered
  {
    match step
    case Append(events, dbFails) => AfterDelivery(d, factory, events, dbFails)
    case Replace(events, start, end, deleteFails, dbFails) =>
      if RangeDeleted(start, end, deleteFails) then AfterDelivery(RolledBack(d, start, end), factory, events, dbFails)
      else d
    case Remove(_) => d
  }

  /** Pools that are created once on the chain and delivered once. */
  ghost predicate NewOnChain(d: Delivered, pools: seq<Pool>)
  {
    PoolsDiffer(pools) && forall p | p in pools :: p.block <= I64_MAX && p.amm.address !in d
  }

  ghost predicate DeliversOnce(d: Delivered, step: Step)
  {
    match step
    case Append(events, _) => Processed(events).Ok? ==> NewOnChain(d, Processed(events).value)
    case Replace(events, start, end, _, _) =>
      Processed(events).Ok? ==> NewOnChain(RolledBack(d, start, end), Processed(events).value)
    case Remove(_) => true
  }

  ghost predicate AllDeliverOnce(d: Delivered, factory: Address, steps: seq<Step>)
    decreases |steps|
  {
    steps == [] ||
    (DeliversOnce(d, steps[0]) && AllDeliverOnce(NextDelivered(d, factory, steps[0]), factory, steps[1..]))
  }

  lemma TwoDeliveries(d: Delivered, factory: Address, first: Step, second: Step)
    ensures AllDeliverOnce(d, factory, [first, second]) <==>
            DeliversOnce(d, first) && DeliversOnce(NextDelivered(d, factory, first), second)
  {
    var steps := [first, second];
    assert steps[1..] == [second] && [second][1..] == [];
    assert AllDeliverOnce(NextDelivered(d, factory, first), factory, [second]) <==>
           DeliversOnce(NextDelivered(d, factory, first), second);
  }

  lemma OneNewOnChain(d: Delivered, p: Pool)
    ensures NewOnChain(d, [p]) <==> p.block <= I64_MAX && p.amm.address !in d
  {
    assert [p][0] == p && p in [p];
  }

  /** A pool may be delivered again once its block is rolled back, and not without. */
  lemma RolledBackIsNew(e: PoolEvent, factory: Address, d: Delivered)
    requires IsComplete(e) && e.lookup.Supported? && e.block.value <= I64_MAX && e.amm !in d
    ensures AllDeliverOnce(d, factory, [Append([e], false), Replace([e], e.block.value, e.block.value, false, false)])
    ensures !AllDeliverOnce(d, factory, [Append([e], false), Append([e], false)])
  {
    var block := e.block.value;
    var p, again := Pool(block, e.txHash.value, Amm(e.amm, e.lookup.tokens)), d[e.amm := block];
    OneProcessed(e, p, factory);
    assert NextDelivered(d, factory, Append([e], false)) == again;
    OneNewOnChain(d, p);
    OneNewOnChain(again, p);
    OneNewOnChain(RolledBack(again, block, block), p);
    TwoDeliveries(d, factory, Append([e], false), Append([e], false));
    TwoDeliveries(d, factory, Append([e], false), Replace([e], block, block, false, false));
  }

  lemma OneProcessed(e: PoolEvent, p: Pool, factory: Address)
    requires IsComplete(e) && e.lookup.Supported? && e.block.value <= I64_MAX
    requires p == Pool(e.block.value, e.txHash.value, Amm(e.amm, e.lookup.tokens))
    ensures Processed([e]) == Ok([p]) && PoolBlocks([p]) == map[e.amm := e.block.value]
    ensures AppendSucceeds(factory, [e], false)
  {
    assert [e][..0] == [] && [p][..0] == [];
    assert Processed([e]) == Ok(Processed([]).value + [p]);
    assert Processed([]).value + [p] == [p];
    assert |DbRows([p], factory)| == |DbRows([], factory)| + 1;
  }

  /** Every pool in the table has been delivered with its block. */
  ghost predicate Tracks(d: Delivered, s: State, factory: Address)
  {
    forall a | a in s.rows && s.rows[a].factory == factory :: a in d && d[a] == s.rows[a].block
  }

  lemma NewOnChainIsCreatedOnce(d: Delivered, s: State, factory: Address, pools: seq<Pool>)
    requires Tracks(d, s, factory) && NewOnChain(d, pools)
    ensures CreatedOnce(s, factory, pools)
  {
  }

  lemma {:induction false} PoolBlocksOf(pools: seq<Pool>, a: Address)
    ensures a in PoolBlocks(pools) <==> HasPool(pools, a)
    ensures PoolsDiffer(pools) ==>
              forall k | 0 <= k < |pools| && pools[k].amm.address == a :: PoolBlocks(pools)[a] == pools[k].block
  {
    if pools != [] {
      var before := pools[..|pools| - 1];
      PoolBlocksOf(before, a);
      assert HasPool(pools, a) <==> HasPool(before, a) || pools[|pools| - 1].amm.address == a;
    }
  }

  lemma AppendTracks(d: Delivered, s: State, factory: Address, pools: seq<Pool>)
    requires Tracks(d, s, factory) && NewOnChain(d, pools)
    ensures Tracks(d + PoolBlocks(pools), Appended(s, factory, pools), factory)
  {
    var s' := Appended(s, factory, pools);
    forall a | a in s'.rows && s'.rows[a].factory == factory
      ensures a in d + PoolBlocks(pools) && (d + PoolBlocks(pools))[a] == s'.rows[a].block
    {
      PoolBlocksOf(pools, a);
      if k :| 0 <= k < |pools| && pools[k].amm.address == a {
        assert pools[k] in pools;
        OverwriteOnce(s.rows, pools, factory, k);
      } else {
        OverwriteOthers(s.rows, pools, factory, a);
      }
    }
  }

  lemma StepTracks(d: Delivered, s: State, factory: Address, step: Step)
    requires Tracks(d, s, factory) && DeliversOnce(d, step)
    ensures ChainIsSound(s, factory, step)
    ensures Tracks(NextDelivered(d, factory, step), Next(s, factory, step), factory)
  {
    match step
    case Append(events, dbFails) =>
      if Processed(events).Ok? {
        NewOnChainIsCreatedOnce(d, s, factory, Processed(events).value);
        AppendTracks(d, s, factory, Processed(events).value);
      }
    case Replace(events, start, end, deleteFails, dbFails) =>
      var d', s' := RolledBack(d, start, end), WithoutRange(s, factory, start, end);
      assert Tracks(d', s', factory);
      if Processed(events).Ok? {
        NewOnChainIsCreatedOnce(d', s', factory, Processed(events).value);
        AppendTracks(d', s', factory, Processed(events).value);
      }
    case Remove(_) =>
  }

  lemma {:induction false} DeliveriesAreSound(d: Delivered, s: State, factory: Address, steps: seq<Step>)
    requires Tracks(d, s, factory) && AllDeliverOnce(d, factory, steps)
    ensures ChainIsSoundFor(s, factory, steps)
    decreases |steps|
  {
    if steps != [] {
      StepTracks(d, s, factory, steps[0]);
      DeliveriesAreSound(NextDelivered(d, factory, steps[0]), Next(s, factory, steps[0]), factory, steps[1..]);
    }
  }

  /**
   On a chain that creates each pool once, with every creation delivered once until its block is rolled
   back: the cache is the table on every exit of every append and rollback, and with removals a part of it.
   */
  lemma DeliveriesKeep(d: Delivered, s: State, factory: Address, steps: seq<Step>)
    requires Tracks(d, s, factory) && AllDeliverOnce(d, factory, steps) && Within(s, factory)
    ensures Within(Run(s, factory, steps), factory)
    ensures Agrees(s, factory) && (forall step | step in steps :: !step.Remove?) ==>
              Agrees(Run(s, factory, steps), factory)
  {
    DeliveriesAreSound(d, s, factory, steps);
    RunsKeep(s, factory, steps);
  }

  /** A pool whose block number cannot be stored is in the cache and not in the table. */
  lemma UnstorablePoolDisagrees(factory: Address, amm: Amm, tx: Hash)
    ensures !Agrees(Appended(State(map[], map[]), factory, [Pool(I64_MAX + 1, tx, amm)]), factory)
  {
    var s, pools := State(map[], map[]), [Pool(I64_MAX + 1, tx, amm)];
    assert Agrees(s, factory);
    assert pools[0] in pools && !CreatedOnce(s, factory, pools);
    AppendAgreesIff(s, factory, pools);
  }

  /** A pool that is delivered again without a rollback is in the cache twice. */
  lemma RedeliveredPoolDisagrees(s: State, factory: Address, p: Pool)
    requires Agrees(s, factory) && RowsFit(s.rows)
    requires p.amm.address in s.rows && s.rows[p.amm.address].factory == factory
    ensures !Agrees(Appended(s, factory, [p]), factory)
  {
    assert [p][0] in [p] && !CreatedOnce(s, factory, [p]);
    AppendAgreesIff(s, factory, [p]);
  }

  // ----------------------------------------------------------------------- initialisation

  /** The answer of the query: every row of the factory once, in any order. */
  ghost predicate IsListing(fetched: seq<CowAmm>, rows: map<Address, Row>, factory: Address)
  {
    && AddressesDiffer(fetched)
    && (forall amm | amm in fetched ::
          amm.address in rows && rows[amm.address] == amm.row && amm.row.factory == factory)
    && (forall a | a in rows && rows[a].factory == factory :: CowAmm(a, rows[a]) in fetched)
  }

  lemma {:induction false} RestoredPools(fetched: seq<CowAmm>, lookups: seq<Lookup>)
    requires |fetched| == |lookups| && forall l | l in lookups :: l.Supported?
    ensures |Restored(fetched, lookups)| == |fetched|
    ensures forall i | 0 <= i < |fetched| ::
              && Restored(fetched, lookups)[i].amm.address == fetched[i].address
              && Restored(fetched, lookups)[i].block == fetched[i].row.block
  {
    if fetched != [] {
      RestoredPools(fetched[..|fetched| - 1], lookups[..|fetched| - 1]);
    }
  }

  /** A successful initialisation of the empty cache brings it into agreement with the table. */
  lemma InitializedAgrees(rows: map<Address, Row>, factory: Address, fetched: seq<CowAmm>, lookups: seq<Lookup>)
    requires IsListing(fetched, rows, factory)
    requires |fetched| == |lookups| && forall l | l in lookups :: l.Supported?
    ensures Agrees(State(rows, PushAll(map[], Restored(fetched, lookups))), factory)
  {
    var pools := Restored(fetched, lookups);
    RestoredPools(fetched, lookups);
    forall b, a
      ensures Occurrences(CachedAt(PushAll(map[], pools), b), a) == InTable(rows, factory, b, a)
    {
      PushAllAdds(map[], pools, b, a);
      if k :| 0 <= k < |fetched| && fetched[k].address == a {
        assert fetched[k] in fetched;
        AddedOnce(pools, k, b);
      } else {
        AddedNone(pools, b, a);
      }
    }
  }
}

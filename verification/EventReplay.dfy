/**
 The four tables of settlement contract events, filled by `append` and cut by `delete` when the
 chain reorganises.
 */
module EventReplay {
  import opened Common
  import opened Sequences
  import opened Tables

  datatype Trade = Trade(uid: OrderUid, sellAmount: int, buyAmount: int, feeAmount: int)
  datatype Invalidation = Invalidation(uid: OrderUid)
  datatype Settlement = Settlement(solver: Address, txHash: Hash)
  datatype PreSignature = PreSignature(owner: Address, uid: OrderUid, signed: bool)

  datatype Event =
    | TradeEvent(trade: Trade)
    | InvalidationEvent(invalidation: Invalidation)
    | SettlementEvent(settlement: Settlement)
    | PreSignatureEvent(preSignature: PreSignature)

  datatype Entry = Entry(index: Index, event: Event)

  datatype EventTables = EventTables(
    trades: map<Index, Trade>,
    invalidations: map<Index, Invalidation>,
    settlements: map<Index, Settlement>,
    preSignatures: map<Index, PreSignature>)

  function InsertEvent(t: EventTables, e: Entry): EventTables
  {
    match e.event
    case TradeEvent(row) => t.(trades := InsertIfAbsent(t.trades, e.index, row))
    case InvalidationEvent(row) => t.(invalidations := InsertIfAbsent(t.invalidations, e.index, row))
    case SettlementEvent(row) => t.(settlements := InsertIfAbsent(t.settlements, e.index, row))
    case PreSignatureEvent(row) => t.(preSignatures := InsertIfAbsent(t.preSignatures, e.index, row))
  }

  function Append(t: EventTables, events: seq<Entry>): EventTables
  {
    if events == [] then t
    else InsertEvent(Append(t, events[..|events| - 1]), events[|events| - 1])
  }

  /** Block numbers are stored as signed 64-bit integers; a larger one is cut to the largest. */
  function FirstDeleted(from: nat): int
  {
    if from <= I64_MAX then from else I64_MAX
  }

  function Below<V>(table: map<Index, V>, block: int): map<Index, V>
  {
    map i | i in table && i.block < block :: table[i]
  }

  function Delete(t: EventTables, from: nat): EventTables
  {
    var block := FirstDeleted(from);
    EventTables(Below(t.trades, block), Below(t.invalidations, block), Below(t.settlements, block),
                Below(t.preSignatures, block))
  }

  // -------------------------------------------------------------------- in the code's form

  class EventStore {
    var trades: map<Index, Trade>
    var invalidations: map<Index, Invalidation>
    var settlements: map<Index, Settlement>
    var preSignatures: map<Index, PreSignature>

    function Contents(): EventTables
      reads this
    {
      EventTables(trades, invalidations, settlements, preSignatures)
    }

    method AppendEvents(events: seq<Entry>)
      modifies this
      ensures Contents() == Append(old(Contents()), events)
    {
      for k := 0 to |events|
        invariant Contents() == Append(old(Contents()), events[..k])
      {
        assert events[..k + 1][..k] == events[..k];
        var index := events[k].index;
        match events[k].event
        case TradeEvent(row) => trades := InsertIfAbsent(trades, index, row);
        case InvalidationEvent(row) => invalidations := InsertIfAbsent(invalidations, index, row);
        case SettlementEvent(row) => settlements := InsertIfAbsent(settlements, index, row);
        case PreSignatureEvent(row) => preSignatures := InsertIfAbsent(preSignatures, index, row);
      }
      assert events[..|events|] == events;
    }

    method DeleteEvents(from: nat)
      modifies this
      ensures Contents() == Delete(old(Contents()), from)
    {
      var block := if from <= I64_MAX then from else I64_MAX;
      invalidations := map i | i in invalidations && i.block < block :: invalidations[i];
      trades := map i | i in trades && i.block < block :: trades[i];
      settlements := map i | i in settlements && i.block < block :: settlements[i];
      preSignatures := map i | i in preSignatures && i.block < block :: preSignatures[i];
    }
  }

  // ------------------------------------------------------------------- the tables by slot

  datatype Kind = Trades | Invalidations | Settlements | PreSignatures

  function KindOf(e: Event): Kind
  {
    match e
    case TradeEvent(_) => Trades
    case InvalidationEvent(_) => Invalidations
    case SettlementEvent(_) => Settlements
    case PreSignatureEvent(_) => PreSignatures
  }

  /** The event stored at a position of a table. */
  function At(t: EventTables, kind: Kind, i: Index): Option<Event>
  {
    match kind
    case Trades => if i in t.trades then Some(TradeEvent(t.trades[i])) else None
    case Invalidations => if i in t.invalidations then Some(InvalidationEvent(t.invalidations[i])) else None
    case Settlements => if i in t.settlements then Some(SettlementEvent(t.settlements[i])) else None
    case PreSignatures => if i in t.preSignatures then Some(PreSignatureEvent(t.preSignatures[i])) else None
  }

  lemma EqualAtAllSlots(t: EventTables, u: EventTables)
    requires forall kind, i :: At(t, kind, i) == At(u, kind, i)
    ensures t == u
  {
    forall i
      ensures i in t.trades <==> i in u.trades
      ensures i in t.trades ==> t.trades[i] == u.trades[i]
      ensures i in t.invalidations <==> i in u.invalidations
      ensures i in t.invalidations ==> t.invalidations[i] == u.invalidations[i]
      ensures i in t.settlements <==> i in u.settlements
      ensures i in t.settlements ==> t.settlements[i] == u.settlements[i]
      ensures i in t.preSignatures <==> i in u.preSignatures
      ensures i in t.preSignatures ==> t.preSignatures[i] == u.preSignatures[i]
    {
      assert At(t, Trades, i) == At(u, Trades, i);
      assert At(t, Invalidations, i) == At(u, Invalidations, i);
      assert At(t, Settlements, i) == At(u, Settlements, i);
      assert At(t, PreSignatures, i) == At(u, PreSignatures, i);
    }
    assert t.trades == u.trades && t.invalidations == u.invalidations;
    assert t.settlements == u.settlements && t.preSignatures == u.preSignatures;
  }

  predicate Fits(e: Entry, kind: Kind, i: Index)
  {
    KindOf(e.event) == kind && e.index == i
  }

  /** The first of the events for a slot. */
  function First(events: seq<Entry>, kind: Kind, i: Index): Option<Event>
  {
    if events == [] then None
    else
      var before := First(events[..|events| - 1], kind, i);
      var last := events[|events| - 1];
      if before.Some? then before else if Fits(last, kind, i) then Some(last.event) else None
  }

  lemma InsertAt(t: EventTables, e: Entry, kind: Kind, i: Index)
    ensures At(InsertEvent(t, e), kind, i) ==
            if At(t, kind, i).Some? then At(t, kind, i) else if Fits(e, kind, i) then Some(e.event) else None
  {
  }

  lemma {:induction false} AppendKeepsFirst(t: EventTables, events: seq<Entry>, kind: Kind, i: Index)
    ensures At(Append(t, events), kind, i) == if At(t, kind, i).Some? then At(t, kind, i) else First(events, kind, i)
  {
    if events != [] {
      AppendKeepsFirst(t, events[..|events| - 1], kind, i);
      InsertAt(Append(t, events[..|events| - 1]), events[|events| - 1], kind, i);
    }
  }

  lemma DeleteAt(t: EventTables, from: nat, kind: Kind, i: Index)
    ensures At(Delete(t, from), kind, i) == if i.block < FirstDeleted(from) then At(t, kind, i) else None
  {
  }

  // ----------------------------------------------------------------- replay after a reorg

  function From(block: int): Entry -> bool
  {
    (e: Entry) => e.index.block >= block
  }

  function Until(block: int): Entry -> bool
  {
    (e: Entry) => e.index.block < block
  }

  lemma FirstOfExtended(events: seq<Entry>, e: Entry, kind: Kind, i: Index)
    ensures First(events + [e], kind, i) ==
            var before := First(events, kind, i);
            if before.Some? then before else if Fits(e, kind, i) then Some(e.event) else None
  {
    assert (events + [e])[..|events|] == events;
  }

  lemma {:induction false} FirstOfFiltered(events: seq<Entry>, keep: Entry -> bool, kind: Kind, i: Index)
    requires forall e: Entry | e.index == i :: keep(e)
    ensures First(Filter(events, keep), kind, i) == First(events, kind, i)
  {
    if events != [] {
      var before, last := events[..|events| - 1], events[|events| - 1];
      FirstOfFiltered(before, keep, kind, i);
      assert events == before + [last];
      FilterAppend(before, [last], keep);
      if keep(last) {
        assert Filter([last], keep) == [last];
        FirstOfExtended(Filter(before, keep), last, kind, i);
      } else {
        assert Filter(before, keep) + [] == Filter(before, keep);
      }
    }
  }

  lemma {:induction false} NoneOfFiltered(events: seq<Entry>, kind: Kind, i: Index)
    requires forall e | e in events :: e.index != i
    ensures First(events, kind, i).None?
  {
    if events != [] {
      NoneOfFiltered(events[..|events| - 1], kind, i);
    }
  }

  /** Events before `from` in the tables the chain is appended to, and block numbers of the database's type. */
  ghost predicate Indexed(t: EventTables, from: nat, canonical: seq<Entry>)
  {
    && (forall kind, i | At(t, kind, i).Some? :: i.block < FirstDeleted(from))
    && (forall e | e in canonical :: e.index.block <= I64_MAX)
  }

  function Replayed(t: EventTables, orphaned: seq<Entry>, from: nat, canonical: seq<Entry>): EventTables
  {
    Append(Delete(Append(t, orphaned), from), Filter(canonical, From(from)))
  }

  lemma ReplayedAt(t: EventTables, orphaned: seq<Entry>, from: nat, canonical: seq<Entry>, kind: Kind, i: Index)
    requires Indexed(t, from, canonical) && Filter(orphaned, Until(from)) == Filter(canonical, Until(from))
    requires i.block < FirstDeleted(from) || i.block >= from
    ensures At(Replayed(t, orphaned, from, canonical), kind, i) == At(Append(t, canonical), kind, i)
  {
    var kept := Delete(Append(t, orphaned), from);
    AppendKeepsFirst(kept, Filter(canonical, From(from)), kind, i);
    AppendKeepsFirst(t, orphaned, kind, i);
    AppendKeepsFirst(t, canonical, kind, i);
    DeleteAt(Append(t, orphaned), from, kind, i);
    if i.block < from {
      FirstOfFiltered(orphaned, Until(from), kind, i);
      FirstOfFiltered(canonical, Until(from), kind, i);
      NoneOfFiltered(Filter(canonical, From(from)), kind, i);
    } else {
      FirstOfFiltered(canonical, From(from), kind, i);
    }
  }

  /**
   Two chains agree below block `from`. Indexing the old one, deleting from `from` on and appending
   the rest of the new one gives the tables of the new one, as if the old one had never been seen.
   The exception is a block number that does not fit the database's type: then the last
   representable block is deleted although it is below `from`, and is not appended again.
   */
  lemma ReplayIff(t: EventTables, orphaned: seq<Entry>, from: nat, canonical: seq<Entry>)
    requires Indexed(t, from, canonical) && Filter(orphaned, Until(from)) == Filter(canonical, Until(from))
    ensures Replayed(t, orphaned, from, canonical) == Append(t, canonical) <==>
            (from <= I64_MAX || forall e | e in canonical :: e.index.block != I64_MAX)
  {
    if from <= I64_MAX || forall e | e in canonical :: e.index.block != I64_MAX {
      forall kind, i
        ensures At(Replayed(t, orphaned, from, canonical), kind, i) == At(Append(t, canonical), kind, i)
      {
        if FirstDeleted(from) <= i.block < from {
          assert forall e | e in canonical :: e.index != i;
          AppendKeepsFirst(t, canonical, kind, i);
          NoneOfFiltered(canonical, kind, i);
          AppendKeepsFirst(Delete(Append(t, orphaned), from), Filter(canonical, From(from)), kind, i);
          NoneOfFiltered(Filter(canonical, From(from)), kind, i);
          DeleteAt(Append(t, orphaned), from, kind, i);
        } else {
          ReplayedAt(t, orphaned, from, canonical, kind, i);
        }
      }
      EqualAtAllSlots(Replayed(t, orphaned, from, canonical), Append(t, canonical));
    } else {
      var e :| e in canonical && e.index.block == I64_MAX;
      var kind, i := KindOf(e.event), e.index;
      AppendKeepsFirst(t, canonical, kind, i);
      FirstFound(canonical, e);
      AppendKeepsFirst(Delete(Append(t, orphaned), from), Filter(canonical, From(from)), kind, i);
      NoneOfFiltered(Filter(canonical, From(from)), kind, i);
      DeleteAt(Append(t, orphaned), from, kind, i);
    }
  }

  /** For a block number that is too large, replaying a chain with an event in the last block loses that event. */
  lemma LastBlockIsLost(event: Event, log: int)
    ensures
      var t, chain := EventTables(map[], map[], map[], map[]), [Entry(Index(I64_MAX, log), event)];
      Replayed(t, chain, I64_MAX + 1, chain) != Append(t, chain)
  {
    var t, chain := EventTables(map[], map[], map[], map[]), [Entry(Index(I64_MAX, log), event)];
    assert chain[0] in chain && chain[0].index.block == I64_MAX;
    ReplayIff(t, chain, I64_MAX + 1, chain);
  }

  lemma {:induction false} FirstFound(events: seq<Entry>, e: Entry)
    requires e in events
    ensures First(events, KindOf(e.event), e.index).Some?
  {
    var before := events[..|events| - 1];
    if e in before {
      FirstFound(before, e);
    } else {
      assert events == before + [events[|events| - 1]];
    }
  }

  // --------------------------------------------------------------- several writers at once

  /** One insert of one of several writers that append the same events. */
  datatype Write = Write(writer: nat, entry: Entry)

  function Entries(writes: seq<Write>): seq<Entry>
  {
    if writes == [] then [] else Entries(writes[..|writes| - 1]) + [writes[|writes| - 1].entry]
  }

  function Of(writes: seq<Write>, writer: nat): seq<Entry>
  {
    if writes == [] then []
    else
      var last := writes[|writes| - 1];
      Of(writes[..|writes| - 1], writer) + if last.writer == writer then [last.entry] else []
  }

  /** Every writer appends the events in their order and may have stopped anywhere. */
  ghost predicate Interleaved(writes: seq<Write>, events: seq<Entry>)
  {
    forall w: nat :: Of(writes, w) <= events
  }

  lemma {:induction false} FirstOfPrefix(a: seq<Entry>, b: seq<Entry>, kind: Kind, i: Index)
    requires a <= b && First(a, kind, i).Some?
    ensures First(b, kind, i) == First(a, kind, i)
    decreases |b|
  {
    if |a| < |b| {
      FirstOfPrefix(a, b[..|b| - 1], kind, i);
    } else {
      assert a == b;
    }
  }

  lemma {:induction false} OwnWritesNone(writes: seq<Write>, w: nat, kind: Kind, i: Index)
    requires First(Entries(writes), kind, i).None?
    ensures First(Of(writes, w), kind, i).None?
  {
    if writes != [] {
      var before, last := writes[..|writes| - 1], writes[|writes| - 1];
      assert Entries(writes)[..|Entries(before)|] == Entries(before);
      OwnWritesNone(before, w, kind, i);
      if last.writer == w {
        assert Of(writes, w)[..|Of(before, w)|] == Of(before, w);
      } else {
        assert Of(writes, w) == Of(before, w);
      }
    }
  }

  lemma {:induction false} InterleavedFirst(writes: seq<Write>, events: seq<Entry>, kind: Kind, i: Index)
    requires Interleaved(writes, events) && First(Entries(writes), kind, i).Some?
    ensures First(Entries(writes), kind, i) == First(events, kind, i)
  {
    var before, last := writes[..|writes| - 1], writes[|writes| - 1];
    assert Entries(writes)[..|Entries(before)|] == Entries(before);
    forall w: nat
      ensures Of(before, w) <= events
    {
      assert Of(before, w) <= Of(writes, w) <= events;
    }
    if First(Entries(before), kind, i).Some? {
      InterleavedFirst(before, events, kind, i);
    } else {
      OwnWritesNone(before, last.writer, kind, i);
      assert Of(writes, last.writer)[..|Of(before, last.writer)|] == Of(before, last.writer);
      FirstOfPrefix(Of(writes, last.writer), events, kind, i);
    }
  }

  /**
   Any number of writers append the same events in any interleaving, each getting as far as it
   gets. Once one of them is done the tables are those of a single append.
   */
  lemma WritersAgree(t: EventTables, writes: seq<Write>, events: seq<Entry>, done: nat)
    requires Interleaved(writes, events) && Of(writes, done) == events
    ensures Append(t, Entries(writes)) == Append(t, events)
  {
    forall kind, i
      ensures At(Append(t, Entries(writes)), kind, i) == At(Append(t, events), kind, i)
    {
      AppendKeepsFirst(t, Entries(writes), kind, i);
      AppendKeepsFirst(t, events, kind, i);
      if First(Entries(writes), kind, i).Some? {
        InterleavedFirst(writes, events, kind, i);
      } else {
        OwnWritesNone(writes, done, kind, i);
      }
    }
    EqualAtAllSlots(Append(t, Entries(writes)), Append(t, events));
  }
}

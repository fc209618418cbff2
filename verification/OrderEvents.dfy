/** The log of what happened to each order, in which an event that repeats the last label is left out. */
module OrderEvents {
  import opened Common
  import opened Sequences

  datatype Label = Created | Ready | Filtered | Invalid | Executing | Considered | Traded | Cancelled

  datatype OrderEvent = OrderEvent(uid: OrderUid, timestamp: int, kind: Label)

  function OfOrder(uid: OrderUid): OrderEvent -> bool
  {
    (e: OrderEvent) => e.uid == uid
  }

  function Since(t: int): OrderEvent -> bool
  {
    (e: OrderEvent) => e.timestamp >= t
  }

  function LogOf(rows: seq<OrderEvent>, uid: OrderUid): seq<OrderEvent>
  {
    Filter(rows, OfOrder(uid))
  }

  /** `ORDER BY timestamp DESC LIMIT 1`; of rows with equal timestamps the one inserted last. */
  function Latest(log: seq<OrderEvent>): (r: Option<OrderEvent>)
    ensures r.None? <==> log == []
    ensures r.Some? ==> r.value in log && forall e | e in log :: e.timestamp <= r.value.timestamp
  {
    if log == [] then None
    else
      var before, last := Latest(log[..|log| - 1]), log[|log| - 1];
      if before.Some? && before.value.timestamp > last.timestamp then before else Some(last)
  }

  datatype Step = Insert(event: OrderEvent) | DeleteBefore(timestamp: int)

  function Apply(rows: seq<OrderEvent>, step: Step): seq<OrderEvent>
  {
    match step
    case Insert(e) =>
      var latest := Latest(LogOf(rows, e.uid));
      if latest.Some? && latest.value.kind == e.kind then rows else rows + [e]
    case DeleteBefore(t) => Filter(rows, Since(t))
  }

  function Run(steps: seq<Step>): seq<OrderEvent>
  {
    if steps == [] then [] else Apply(Run(steps[..|steps| - 1]), steps[|steps| - 1])
  }

  // -------------------------------------------------------------------- in the code's form

  class Log {
    var rows: seq<OrderEvent>

    method InsertOrderEvent(event: OrderEvent)
      modifies this
      ensures rows == Apply(old(rows), Insert(event))
    {
      var latest := GetLatest(event.uid);
      if latest.None? || latest.value.kind != event.kind {
        rows := rows + [event];
      }
    }

    method DeleteOrderEventsBefore(timestamp: int) returns (deleted: nat)
      modifies this
      ensures rows == Apply(old(rows), DeleteBefore(timestamp))
      ensures deleted == |old(rows)| - |rows|
    {
      var kept := Filter(rows, Since(timestamp));
      deleted := |rows| - |kept|;
      rows := kept;
    }

    /** One pass over the table, remembering the newest row of the order. */
    method GetLatest(uid: OrderUid) returns (latest: Option<OrderEvent>)
      ensures latest == Latest(LogOf(rows, uid))
    {
      latest := None;
      for k := 0 to |rows|
        invariant latest == Latest(LogOf(rows[..k], uid))
      {
        assert rows[..k + 1] == rows[..k] + [rows[k]];
        LogOfExtended(rows[..k], rows[k], uid);
        if rows[k].uid == uid && (latest.None? || latest.value.timestamp <= rows[k].timestamp) {
          latest := Some(rows[k]);
        }
      }
      assert rows[..|rows|] == rows;
    }
  }

  lemma LogOfExtended(rows: seq<OrderEvent>, e: OrderEvent, uid: OrderUid)
    ensures LogOf(rows + [e], uid) == if e.uid == uid then LogOf(rows, uid) + [e] else LogOf(rows, uid)
    ensures (LogOf(rows, uid) + [e])[..|LogOf(rows, uid)|] == LogOf(rows, uid)
  {
    FilterAppend(rows, [e], OfOrder(uid));
    assert Filter([e], OfOrder(uid)) == if e.uid == uid then [e] else [];
  }

  // ----------------------------------------------------------------- no label is repeated

  /** The inserted events of one order come with strictly increasing timestamps. */
  ghost predicate TimestampsIncrease(steps: seq<Step>)
  {
    forall i, j | && 0 <= i < j < |steps| && steps[i].Insert? && steps[j].Insert?
                  && steps[i].event.uid == steps[j].event.uid ::
      steps[i].event.timestamp < steps[j].event.timestamp
  }

  ghost predicate Chronological(log: seq<OrderEvent>)
  {
    forall i, j | 0 <= i < j < |log| :: log[i].timestamp < log[j].timestamp
  }

  ghost predicate NoRepeats(log: seq<OrderEvent>)
  {
    forall i | 0 < i < |log| :: log[i - 1].kind != log[i].kind
  }

  lemma LatestIsLast(log: seq<OrderEvent>)
    requires Chronological(log) && log != []
    ensures Latest(log) == Some(log[|log| - 1])
  {
    var r := Latest(log).value;
    var i :| 0 <= i < |log| && log[i] == r;
    assert log[|log| - 1] in log;
  }

  lemma {:induction false} FiltersCommute(rows: seq<OrderEvent>, uid: OrderUid, t: int)
    ensures LogOf(Filter(rows, Since(t)), uid) == Filter(LogOf(rows, uid), Since(t))
  {
    if rows != [] {
      FiltersCommute(rows[1..], uid, t);
    }
  }

  /** Deleting by age cuts the beginning of a log. */
  lemma {:induction false} DeletionKeepsEnd(log: seq<OrderEvent>, t: int) returns (k: nat)
    requires Chronological(log)
    ensures k <= |log| && Filter(log, Since(t)) == log[k..]
  {
    if log == [] {
      k := 0;
    } else if log[0].timestamp >= t {
      k := 0;
      AllKept(log, t);
    } else {
      k := DeletionKeepsEnd(log[1..], t);
      k := k + 1;
    }
  }

  lemma {:induction false} AllKept(log: seq<OrderEvent>, t: int)
    requires forall e | e in log :: e.timestamp >= t
    ensures Filter(log, Since(t)) == log
  {
    if log != [] {
      AllKept(log[1..], t);
    }
  }

  lemma {:induction false} RowsWereInserted(steps: seq<Step>, e: OrderEvent)
    requires e in Run(steps)
    ensures Insert(e) in steps
  {
    var before, last := steps[..|steps| - 1], steps[|steps| - 1];
    if last != Insert(e) {
      RowsWereInserted(before, e);
    }
  }

  /** What an insert does to a log in chronological order. */
  function Push(log: seq<OrderEvent>, e: OrderEvent): seq<OrderEvent>
  {
    if log != [] && log[|log| - 1].kind == e.kind then log else log + [e]
  }

  lemma InsertPushes(rows: seq<OrderEvent>, e: OrderEvent, uid: OrderUid)
    requires Chronological(LogOf(rows, e.uid))
    ensures LogOf(Apply(rows, Insert(e)), uid) == if e.uid == uid then Push(LogOf(rows, uid), e) else LogOf(rows, uid)
  {
    LogOfExtended(rows, e, uid);
    if LogOf(rows, e.uid) != [] {
      LatestIsLast(LogOf(rows, e.uid));
    }
  }

  ghost predicate Collapsed(log: seq<OrderEvent>)
  {
    Chronological(log) && NoRepeats(log)
  }

  lemma PushKeepsCollapsed(log: seq<OrderEvent>, e: OrderEvent)
    requires Collapsed(log) && forall r | r in log :: r.timestamp < e.timestamp
    ensures Collapsed(Push(log, e))
  {
  }

  lemma DeletionKeepsCollapsed(rows: seq<OrderEvent>, uid: OrderUid, t: int)
    requires Collapsed(LogOf(rows, uid))
    ensures Collapsed(LogOf(Apply(rows, DeleteBefore(t)), uid))
  {
    FiltersCommute(rows, uid, t);
    var k := DeletionKeepsEnd(LogOf(rows, uid), t);
  }

  /** Any mix of inserts and deletions keeps every order's log in order and free of repeated labels. */
  lemma {:induction false} LogsStayCollapsed(steps: seq<Step>, uid: OrderUid)
    requires TimestampsIncrease(steps)
    ensures Collapsed(LogOf(Run(steps), uid))
  {
    if steps != [] {
      var before, last := steps[..|steps| - 1], steps[|steps| - 1];
      LogsStayCollapsed(before, uid);
      match last
      case DeleteBefore(t) =>
        DeletionKeepsCollapsed(Run(before), uid, t);
      case Insert(e) =>
        LogsStayCollapsed(before, e.uid);
        InsertPushes(Run(before), e, uid);
        assert steps == before + [Insert(e)];
        NewerThanLog(before, e);
        if e.uid == uid {
          PushKeepsCollapsed(LogOf(Run(before), uid), e);
        }
    }
  }

  lemma NewerThanLog(before: seq<Step>, e: OrderEvent)
    requires TimestampsIncrease(before + [Insert(e)])
    ensures forall r | r in LogOf(Run(before), e.uid) :: r.timestamp < e.timestamp
  {
    var steps := before + [Insert(e)];
    forall r | r in LogOf(Run(before), e.uid)
      ensures r.timestamp < e.timestamp
    {
      RowsWereInserted(before, r);
      var i :| 0 <= i < |before| && before[i] == Insert(r);
      assert steps[i] == Insert(r) && steps[|before|] == Insert(e);
    }
  }

  // ------------------------------------------------------------------- without deletions

  /** The events inserted for an order. */
  function Inputs(steps: seq<Step>, uid: OrderUid): seq<OrderEvent>
  {
    if steps == [] then []
    else
      var last := steps[|steps| - 1];
      Inputs(steps[..|steps| - 1], uid) + if last.Insert? && last.event.uid == uid then [last.event] else []
  }

  /** The events whose label differs from the one before. */
  function Collapse(events: seq<OrderEvent>): seq<OrderEvent>
  {
    if |events| <= 1 then events
    else
      var last := events[|events| - 1];
      Collapse(events[..|events| - 1]) + if events[|events| - 2].kind == last.kind then [] else [last]
  }

  lemma {:induction false} CollapseEndsLikeInput(events: seq<OrderEvent>)
    requires events != []
    ensures Collapse(events) != []
    ensures Collapse(events)[|Collapse(events)| - 1].kind == events[|events| - 1].kind
  {
    if |events| > 1 {
      CollapseEndsLikeInput(events[..|events| - 1]);
      var last := events[|events| - 1];
      if events[|events| - 2].kind == last.kind {
        assert Collapse(events) == Collapse(events[..|events| - 1]);
      }
    }
  }

  /** Without deletions an order's log is its input with repeated labels collapsed. */
  lemma {:induction false} LogIsCollapsedInput(steps: seq<Step>, uid: OrderUid)
    requires TimestampsIncrease(steps) && forall step | step in steps :: step.Insert?
    ensures LogOf(Run(steps), uid) == Collapse(Inputs(steps, uid))
  {
    if steps != [] {
      var before, last := steps[..|steps| - 1], steps[|steps| - 1];
      LogIsCollapsedInput(before, uid);
      var e, inputs := last.event, Inputs(before, uid);
      LogsStayCollapsed(before, e.uid);
      InsertPushes(Run(before), e, uid);
      if e.uid == uid {
        assert Inputs(steps, uid) == inputs + [e];
        CollapseExtended(inputs, e);
      } else {
        assert Inputs(steps, uid) == inputs;
      }
    }
  }

  lemma CollapseExtended(events: seq<OrderEvent>, e: OrderEvent)
    ensures Collapse(events + [e]) == Push(Collapse(events), e)
  {
    assert (events + [e])[..|events|] == events;
    if events != [] {
      CollapseEndsLikeInput(events);
      assert Collapse(events) + [] == Collapse(events);
    }
  }

  predicate SameEnd(log: seq<OrderEvent>, inputs: seq<OrderEvent>)
  {
    if inputs == [] then log == [] else log != [] && log[|log| - 1].kind == inputs[|inputs| - 1].kind
  }

  lemma LogEndsLikeInput(steps: seq<Step>, uid: OrderUid, log: seq<OrderEvent>)
    requires TimestampsIncrease(steps) && forall step | step in steps :: step.Insert?
    requires log == LogOf(Run(steps), uid)
    ensures SameEnd(log, Inputs(steps, uid)) && Chronological(log)
  {
    LogIsCollapsedInput(steps, uid);
    LogsStayCollapsed(steps, uid);
    if Inputs(steps, uid) != [] {
      CollapseEndsLikeInput(Inputs(steps, uid));
    }
  }

  lemma LatestOfSameEnd(log: seq<OrderEvent>, inputs: seq<OrderEvent>)
    requires SameEnd(log, inputs) && Chronological(log)
    ensures Latest(log).Some? <==> inputs != []
    ensures inputs != [] ==> Latest(log).value.kind == inputs[|inputs| - 1].kind
  {
    if log != [] {
      LatestIsLast(log);
    }
  }

  /** And the latest event has the label that was inserted last. */
  lemma LatestHasLastLabel(steps: seq<Step>, uid: OrderUid, inputs: seq<OrderEvent>, log: seq<OrderEvent>)
    requires TimestampsIncrease(steps) && forall step | step in steps :: step.Insert?
    requires inputs == Inputs(steps, uid) && log == LogOf(Run(steps), uid)
    ensures Latest(log).Some? <==> inputs != []
    ensures inputs != [] ==> Latest(log).value.kind == inputs[|inputs| - 1].kind
  {
    LogEndsLikeInput(steps, uid, log);
    LatestOfSameEnd(log, inputs);
  }

  // ------------------------------------------------------------------------ late events

  function ByTime(): OrderEvent -> int
  {
    (e: OrderEvent) => e.timestamp
  }

  /** The log as it reads in time, whatever the order of the inserts. */
  function InTimeOrder(log: seq<OrderEvent>): seq<OrderEvent>
  {
    SortBy(log, ByTime())
  }

  ghost predicate TimesDiffer(log: seq<OrderEvent>)
  {
    forall i, j | 0 <= i < j < |log| :: log[i].timestamp != log[j].timestamp
  }

  /** Where an event belongs among events in time order. */
  function Place(log: seq<OrderEvent>, e: OrderEvent): (k: nat)
    ensures k <= |log| && (forall i | 0 <= i < k :: log[i].timestamp < e.timestamp)
    ensures k < |log| ==> e.timestamp <= log[k].timestamp
  {
    if log == [] || e.timestamp <= log[0].timestamp then 0 else 1 + Place(log[1..], e)
  }

  lemma {:induction false} InsertedAtPlace(log: seq<OrderEvent>, e: OrderEvent)
    ensures Sequences.Insert(e, log, ByTime()) == log[..Place(log, e)] + [e] + log[Place(log, e)..]
  {
    if log != [] && e.timestamp > log[0].timestamp {
      InsertedAtPlace(log[1..], e);
    }
  }

  /** The events just before and just after it in time have other labels. */
  predicate FitsIn(log: seq<OrderEvent>, e: OrderEvent)
  {
    var k := Place(log, e);
    (k > 0 ==> log[k - 1].kind != e.kind) && (k < |log| ==> log[k].kind != e.kind)
  }

  lemma NoRepeatsAround(log: seq<OrderEvent>, e: OrderEvent, k: nat)
    requires NoRepeats(log) && k <= |log|
    ensures NoRepeats(log[..k] + [e] + log[k..]) <==>
            (k > 0 ==> log[k - 1].kind != e.kind) && (k < |log| ==> log[k].kind != e.kind)
  {
    var r := log[..k] + [e] + log[k..];
    assert r[k] == e && (k > 0 ==> r[k - 1] == log[k - 1]) && (k < |log| ==> r[k + 1] == log[k]);
    assert forall i | 0 <= i < k :: r[i] == log[i];
    assert forall i | k < i < |r| :: r[i] == log[i - 1];
    if NoRepeats(r) {
      assert k < |log| ==> r[k + 1 - 1].kind != r[k + 1].kind;
    }
  }

  lemma TimeOrderExtended(log: seq<OrderEvent>, e: OrderEvent)
    requires TimesDiffer(log + [e])
    ensures InTimeOrder(log + [e]) == Sequences.Insert(e, InTimeOrder(log), ByTime())
  {
    assert forall i, j | 0 <= i < j < |log| :: (log + [e])[i] == log[i] && (log + [e])[j] == log[j];
    SortByStrictly(log, ByTime());
    SortByPermutes(log, ByTime());
    forall r | r in InTimeOrder(log)
      ensures r.timestamp != e.timestamp
    {
      var i :| 0 <= i < |log| && log[i] == r;
      assert (log + [e])[i] == r && (log + [e])[|log|] == e;
    }
    InsertStrictlySorted(e, InTimeOrder(log), ByTime());
    InsertPermutes(e, InTimeOrder(log), ByTime());
    SortByMultiset(log + [e], ByTime());
    SortBySorts(log + [e], ByTime());
    SortedUnique(InTimeOrder(log + [e]), Sequences.Insert(e, InTimeOrder(log), ByTime()), ByTime());
  }

  /**
   For events that arrive in any order: an insert leaves the log, read in time order, free of equal
   neighbours if and only if the event is left out or differs from both of its neighbours in time.
   */
  lemma InsertKeepsNeighboursIff(rows: seq<OrderEvent>, e: OrderEvent)
    requires TimesDiffer(LogOf(rows, e.uid) + [e]) && NoRepeats(InTimeOrder(LogOf(rows, e.uid)))
    ensures
      var log := LogOf(rows, e.uid);
      NoRepeats(InTimeOrder(LogOf(Apply(rows, Insert(e)), e.uid))) <==>
      (log != [] && Latest(log).value.kind == e.kind) || FitsIn(InTimeOrder(log), e)
  {
    var log := LogOf(rows, e.uid);
    LogOfExtended(rows, e, e.uid);
    if log == [] || Latest(log).value.kind != e.kind {
      TimeOrderExtended(log, e);
      InsertedAtPlace(InTimeOrder(log), e);
      NoRepeatsAround(InTimeOrder(log), e, Place(InTimeOrder(log), e));
    }
  }

  lemma TwoEvents(a: OrderEvent, b: OrderEvent)
    requires a.uid == b.uid && a.timestamp < b.timestamp
    ensures LogOf([a, b], a.uid) == [a, b] && InTimeOrder([a, b]) == [a, b]
  {
    LogOfExtended([], a, a.uid);
    LogOfExtended([a], b, a.uid);
    assert [] + [a] == [a] && [a] + [b] == [a, b];
    SortByMultiset([a, b], ByTime());
    SortBySorts([a, b], ByTime());
    SortedUnique(InTimeOrder([a, b]), [a, b], ByTime());
  }

  /** An event between two others in time that arrives last can repeat the label of the first. */
  lemma LateEventRepeatsLabel(a: OrderEvent, b: OrderEvent, late: OrderEvent)
    requires a.uid == b.uid == late.uid && a.timestamp < late.timestamp < b.timestamp
    requires a.kind == late.kind != b.kind
    ensures !NoRepeats(InTimeOrder(LogOf(Apply([a, b], Insert(late)), late.uid)))
  {
    TwoEvents(a, b);
    LatestIsLast([a, b]);
    BetweenTwo(a, b, late);
    InsertKeepsNeighboursIff([a, b], late);
  }

  lemma BetweenTwo(a: OrderEvent, b: OrderEvent, late: OrderEvent)
    requires a.timestamp < late.timestamp < b.timestamp && a.kind == late.kind
    ensures !FitsIn([a, b], late)
  {
    var log := [a, b];
    var k := Place(log, late);
    assert log[0] == a && log[1] == b;
    assert late.timestamp < log[1].timestamp;
    assert forall i | 0 <= i < k :: log[i].timestamp < late.timestamp;
    assert k == 1;
  }
}

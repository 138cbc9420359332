/**
 The telemetry ingest (services/telemetry/service.py): each event of a batch is
 validated on its own, and the valid ones are stored once per event id.
 */
module TelemetryIngest {
  import opened Common

  datatype Json =
    | Null | Bool(value: bool) | Int(number: int) | Float(finite: bool) | Text(text: string)
    | List(items: seq<Json>) | Dict(entries: seq<(string, Json)>)

  datatype TelemetryEvent = TelemetryEvent(eventId: string, eventType: string, properties: Json)

  /** What the envelope's model makes of one raw element: an event, or the first problem. */
  datatype Raw = Malformed(problem: string) | Parsed(event: TelemetryEvent)

  datatype Row = Row(id: string, eventType: string, payload: Json)

  datatype Receipt = Receipt(received: nat, stored: nat, rejected: nat)

  const NOT_STORABLE: string := "properties:not_storable"
  const DUPLICATE_IN_BATCH: string := "eventId:duplicate_in_batch"

  // --- What JSONB can hold -------------------------------------------------------------

  predicate HasNoNul(s: string) { '\0' !in s }

  predicate FitsJsonb(j: Json) {
    match j
    case Float(finite) => finite
    case Text(text) => HasNoNul(text)
    case Dict(entries) => forall i :: 0 <= i < |entries| ==> HasNoNul(entries[i].0) && FitsJsonb(entries[i].1)
    case List(items) => forall i :: 0 <= i < |items| ==> FitsJsonb(items[i])
    case _ => true
  }

  /** Every text and number anywhere inside a value, keys included. */
  function Atoms(j: Json): set<Json> {
    match j
    case Dict(entries) =>
      (set i | 0 <= i < |entries| :: Text(entries[i].0))
      + set i, a | 0 <= i < |entries| && a in Atoms(entries[i].1) :: a
    case List(items) => set i, a | 0 <= i < |items| && a in Atoms(items[i]) :: a
    case _ => {j}
  }

  /** One bad atom at any depth, or in any key, makes a value unstorable, and nothing else does. */
  lemma {:induction false} FitsIffEveryAtomDoes(j: Json)
    ensures FitsJsonb(j) <==>
            forall a :: a in Atoms(j) ==> !(a.Float? && !a.finite) && !(a.Text? && !HasNoNul(a.text))
  {
    match j
    case Dict(entries) =>
      forall i | 0 <= i < |entries|
        ensures FitsJsonb(entries[i].1) <==>
                forall a :: a in Atoms(entries[i].1) ==> !(a.Float? && !a.finite) && !(a.Text? && !HasNoNul(a.text))
        ensures Text(entries[i].0) in Atoms(j)
      {
        FitsIffEveryAtomDoes(entries[i].1);
      }
    case List(items) =>
      forall i | 0 <= i < |items|
        ensures FitsJsonb(items[i]) <==>
                forall a :: a in Atoms(items[i]) ==> !(a.Float? && !a.finite) && !(a.Text? && !HasNoNul(a.text))
      {
        FitsIffEveryAtomDoes(items[i]);
      }
    case _ =>
  }

  // --- Validation ----------------------------------------------------------------------

  function IdsOf(events: seq<TelemetryEvent>): set<string> {
    set e | e in events :: e.eventId
  }

  predicate IsStorable(raw: Raw) {
    raw.Parsed? && FitsJsonb(raw.event.properties)
  }

  /** The events of the batch that are stored: well formed, storable, first of their id. */
  function AcceptedEvents(raws: seq<Raw>): seq<TelemetryEvent> {
    if raws == [] then []
    else
      var before, raw := AcceptedEvents(raws[..|raws| - 1]), raws[|raws| - 1];
      if IsStorable(raw) && raw.event.eventId !in IdsOf(before) then before + [raw.event] else before
  }

  function Problem(raw: Raw): string {
    if raw.Malformed? then raw.problem
    else if !FitsJsonb(raw.event.properties) then NOT_STORABLE
    else DUPLICATE_IN_BATCH
  }

  /** The reasons of the others, each as often as it applies. */
  function Rejections(raws: seq<Raw>): multiset<string> {
    if raws == [] then multiset{}
    else
      var front, raw := raws[..|raws| - 1], raws[|raws| - 1];
      if IsStorable(raw) && raw.event.eventId !in IdsOf(AcceptedEvents(front)) then Rejections(front)
      else Rejections(front) + multiset{Problem(raw)}
  }

  lemma {:induction false} EveryRawIsCounted(raws: seq<Raw>)
    ensures |AcceptedEvents(raws)| + |Rejections(raws)| == |raws|
  {
    if raws != [] {
      EveryRawIsCounted(raws[..|raws| - 1]);
    }
  }

  lemma NextRaw(raws: seq<Raw>, i: nat)
    requires i < |raws|
    ensures var before, raw := AcceptedEvents(raws[..i]), raws[i];
            var accepted := IsStorable(raw) && raw.event.eventId !in IdsOf(before);
            && AcceptedEvents(raws[..i + 1]) == (if accepted then before + [raw.event] else before)
            && Rejections(raws[..i + 1])
               == if accepted then Rejections(raws[..i]) else Rejections(raws[..i]) + multiset{Problem(raw)}
  {
    assert raws[..i + 1][..i] == raws[..i];
  }

  lemma IdsGrow(events: seq<TelemetryEvent>, e: TelemetryEvent)
    ensures IdsOf(events + [e]) == IdsOf(events) + {e.eventId}
  {
    assert forall x :: x in events + [e] <==> x in events || x == e;
  }

  method ValidateEvents(raws: seq<Raw>) returns (valid: seq<TelemetryEvent>, rejected: multiset<string>)
    ensures valid == AcceptedEvents(raws) && rejected == Rejections(raws)
    ensures |valid| + |rejected| == |raws|
  {
    EveryRawIsCounted(raws);
    valid, rejected := [], multiset{};
    var seen: set<string> := {};
    for i := 0 to |raws|
      invariant valid == AcceptedEvents(raws[..i]) && rejected == Rejections(raws[..i])
      invariant seen == IdsOf(valid)
    {
      NextRaw(raws, i);
      match raws[i] {
        case Malformed(problem) =>
          rejected := rejected + multiset{problem};
        case Parsed(event) =>
          if !FitsJsonb(event.properties) {
            rejected := rejected + multiset{NOT_STORABLE};
          } else if event.eventId in seen {
            rejected := rejected + multiset{DUPLICATE_IN_BATCH};
          } else {
            IdsGrow(valid, event);
            seen := seen + {event.eventId};
            valid := valid + [event];
          }
      }
    }
    assert raws[..|raws|] == raws;
  }

  predicate DistinctEventIds(events: seq<TelemetryEvent>) {
    forall i, j :: 0 <= i < j < |events| ==> events[i].eventId != events[j].eventId
  }

  predicate IsFirstOfItsId(raws: seq<Raw>, i: nat)
    requires i < |raws|
  {
    && IsStorable(raws[i])
    && forall j :: 0 <= j < i && IsStorable(raws[j]) ==> raws[j].event.eventId != raws[i].event.eventId
  }

  predicate IsRepeated(raws: seq<Raw>, i: nat, id: string) {
    i < |raws| && IsStorable(raws[i]) && raws[i].event.eventId == id
  }

  predicate IsItsEvent(raws: seq<Raw>, i: nat, event: TelemetryEvent) {
    i < |raws| && IsFirstOfItsId(raws, i) && raws[i].event == event
  }

  lemma {:induction false} AcceptedIdsIff(raws: seq<Raw>, id: string)
    ensures id in IdsOf(AcceptedEvents(raws)) <==> exists i :: IsRepeated(raws, i, id)
  {
    if raws != [] {
      var front, last := raws[..|raws| - 1], raws[|raws| - 1];
      AcceptedIdsIff(front, id);
      assert forall i :: IsRepeated(raws, i, id) ==> IsRepeated(front, i, id) || i == |front|;
      assert forall i :: IsRepeated(front, i, id) ==> IsRepeated(raws, i, id);
      assert IsRepeated(raws, |front|, id) <==> IsStorable(last) && last.event.eventId == id;
    }
  }

  lemma FirstInFrontIsFirst(raws: seq<Raw>, i: nat)
    requires raws != [] && i < |raws| - 1
    ensures IsFirstOfItsId(raws[..|raws| - 1], i) <==> IsFirstOfItsId(raws, i)
  {
  }

  lemma LastIsFirstIff(raws: seq<Raw>)
    requires raws != []
    ensures var front, last := raws[..|raws| - 1], raws[|raws| - 1];
            IsFirstOfItsId(raws, |raws| - 1) <==>
              IsStorable(last) && last.event.eventId !in IdsOf(AcceptedEvents(front))
  {
    var front, last := raws[..|raws| - 1], raws[|raws| - 1];
    if IsStorable(last) {
      AcceptedIdsIff(front, last.event.eventId);
      if !IsFirstOfItsId(raws, |raws| - 1) {
        var j :| 0 <= j < |front| && IsStorable(raws[j]) && raws[j].event.eventId == last.event.eventId;
        assert IsRepeated(front, j, last.event.eventId);
      }
    }
  }

  /** The first storable event of each id is accepted, and nothing else is. */
  lemma {:induction false} AcceptedIff(raws: seq<Raw>, event: TelemetryEvent)
    ensures event in AcceptedEvents(raws) <==> exists i :: IsItsEvent(raws, i, event)
  {
    if raws != [] {
      var front, last := raws[..|raws| - 1], raws[|raws| - 1];
      AcceptedIff(front, event);
      LastIsFirstIff(raws);
      forall i: nat
        ensures i < |front| ==> (IsItsEvent(raws, i, event) <==> IsItsEvent(front, i, event))
      {
        if i < |front| {
          FirstInFrontIsFirst(raws, i);
        }
      }
      assert IsItsEvent(raws, |front|, event) <==> IsFirstOfItsId(raws, |front|) && last.event == event;
    }
  }

  /** No id is accepted twice. */
  lemma {:induction false} AcceptedIdsDiffer(raws: seq<Raw>)
    ensures DistinctEventIds(AcceptedEvents(raws))
  {
    if raws != [] {
      AcceptedIdsDiffer(raws[..|raws| - 1]);
    }
  }

  /** Why an element is refused: what its model found, else a bad value, else an earlier event of its id. */
  predicate IsRefusedFor(raws: seq<Raw>, i: nat, reason: string)
    requires i < |raws|
  {
    match raws[i]
    case Malformed(problem) => reason == problem
    case Parsed(event) =>
      if !FitsJsonb(event.properties) then reason == "properties:not_storable"
      else reason == "eventId:duplicate_in_batch" && exists j :: 0 <= j < i && IsRepeated(raws, j, event.eventId)
  }

  lemma RefusalInFront(raws: seq<Raw>, i: nat, reason: string)
    requires raws != [] && i < |raws| - 1
    ensures IsRefusedFor(raws[..|raws| - 1], i, reason) <==> IsRefusedFor(raws, i, reason)
  {
    var front := raws[..|raws| - 1];
    forall j: nat, id | j < i
      ensures IsRepeated(front, j, id) <==> IsRepeated(raws, j, id)
    {}
  }

  lemma RefusalOfLast(raws: seq<Raw>, reason: string)
    requires raws != []
    ensures var front, last := raws[..|raws| - 1], raws[|raws| - 1];
            IsRefusedFor(raws, |raws| - 1, reason) <==>
              !(IsStorable(last) && last.event.eventId !in IdsOf(AcceptedEvents(front))) && Problem(last) == reason
  {
    var front, last := raws[..|raws| - 1], raws[|raws| - 1];
    if last.Parsed? {
      AcceptedIdsIff(front, last.event.eventId);
      assert forall j: nat, id :: j < |front| ==> (IsRepeated(front, j, id) <==> IsRepeated(raws, j, id));
    }
  }

  function Refused(raws: seq<Raw>, reason: string): set<nat> {
    set i: nat | i < |raws| && IsRefusedFor(raws, i, reason)
  }

  lemma NextRefused(raws: seq<Raw>, reason: string)
    requires raws != []
    ensures var front, n := raws[..|raws| - 1], |raws| - 1;
            Refused(raws, reason) == Refused(front, reason) + if IsRefusedFor(raws, n, reason) then {n} else {}
  {
    var n := |raws| - 1;
    forall i: nat | i < n
      ensures IsRefusedFor(raws[..n], i, reason) <==> IsRefusedFor(raws, i, reason)
    {
      RefusalInFront(raws, i, reason);
    }
  }

  /** Each reason is counted once for every element refused for it. */
  lemma {:induction false} RejectionsCountRefusals(raws: seq<Raw>, reason: string)
    ensures Rejections(raws)[reason] == |Refused(raws, reason)|
  {
    if raws != [] {
      RejectionsCountRefusals(raws[..|raws| - 1], reason);
      RefusalOfLast(raws, reason);
      NextRefused(raws, reason);
      assert |raws| - 1 !in Refused(raws[..|raws| - 1], reason);
    }
  }

  // --- Storage -------------------------------------------------------------------------

  function ToRow(event: TelemetryEvent): Row {
    Row(event.eventId, event.eventType, event.properties)
  }

  predicate HasId(table: seq<Row>, id: string) {
    exists i :: 0 <= i < |table| && table[i].id == id
  }

  /** One statement: rows whose id is new are added, the others are skipped. */
  function Stored(table: seq<Row>, events: seq<TelemetryEvent>): seq<Row> {
    if events == [] then table
    else
      var before, e := Stored(table, events[..|events| - 1]), events[|events| - 1];
      if HasId(before, e.eventId) then before else before + [ToRow(e)]
  }

  predicate UniqueIds(table: seq<Row>) {
    forall i, j :: 0 <= i < j < |table| ==> table[i].id != table[j].id
  }

  function Ingested(table: seq<Row>, raws: seq<Raw>): seq<Row> {
    Stored(table, AcceptedEvents(raws))
  }

  /** Storing only adds, keeps ids unique, and leaves one row for every event of the batch. */
  lemma {:induction false} StoredHolds(table: seq<Row>, events: seq<TelemetryEvent>)
    ensures table <= Stored(table, events)
    ensures UniqueIds(table) ==> UniqueIds(Stored(table, events))
    ensures forall e :: e in events ==> HasId(Stored(table, events), e.eventId)
    ensures forall r :: r in Stored(table, events) ==> r in table || exists e :: e in events && r == ToRow(e)
  {
    if events != [] {
      var front, last := events[..|events| - 1], events[|events| - 1];
      StoredHolds(table, front);
      var before, after := Stored(table, front), Stored(table, events);
      forall id | HasId(before, id)
        ensures HasId(after, id)
      {
        var i :| 0 <= i < |before| && before[i].id == id;
        assert after[i].id == id;
      }
      if !HasId(before, last.eventId) {
        assert after[|after| - 1].id == last.eventId;
      }
    }
  }

  lemma {:induction false} NothingNewToStore(table: seq<Row>, events: seq<TelemetryEvent>)
    requires forall e :: e in events ==> HasId(table, e.eventId)
    ensures Stored(table, events) == table
  {
    if events != [] {
      NothingNewToStore(table, events[..|events| - 1]);
    }
  }

  /** The row an accepted event leaves. */
  predicate IsRowOf(row: Row, event: TelemetryEvent) {
    row.id == event.eventId && row.eventType == event.eventType && row.payload == event.properties
  }

  /** A row is added exactly for an event whose id the table does not hold, with the event's own fields. */
  lemma {:induction false} AddedRowIff(table: seq<Row>, events: seq<TelemetryEvent>, row: Row)
    requires DistinctEventIds(events)
    ensures row in Stored(table, events) <==>
              row in table || exists e :: e in events && !HasId(table, e.eventId) && IsRowOf(row, e)
  {
    if events != [] {
      var front, last := events[..|events| - 1], events[|events| - 1];
      AddedRowIff(table, front, row);
      LastIdIsHeldIff(table, front, last);
      assert forall e :: e in events <==> e in front || e == last;
      assert IsRowOf(row, last) <==> row == ToRow(last);
    }
  }

  lemma LastIdIsHeldIff(table: seq<Row>, front: seq<TelemetryEvent>, last: TelemetryEvent)
    requires DistinctEventIds(front + [last])
    ensures HasId(Stored(table, front), last.eventId) <==> HasId(table, last.eventId)
  {
    StoredHolds(table, front);
    var before := Stored(table, front);
    if i :| 0 <= i < |table| && table[i].id == last.eventId {
      assert before[i].id == last.eventId;
    }
    forall e | e in front
      ensures e.eventId != last.eventId
    {
      var events := front + [last];
      var j :| 0 <= j < |front| && front[j] == e;
      assert events[j].eventId != events[|front|].eventId;
    }
    if k :| 0 <= k < |before| && before[k].id == last.eventId {
      assert before[k] in before && before[k] in table;
    }
  }

  /**
   A row is new exactly when it carries the id, type and payload of the first
   storable event of an id the table does not hold.
   */
  lemma NewRowsCarryTheirEvents(table: seq<Row>, raws: seq<Raw>, row: Row)
    ensures row in Ingested(table, raws) <==>
              row in table
              || exists i: nat :: i < |raws| && IsFirstOfItsId(raws, i) && IsRowOf(row, raws[i].event)
                                  && !HasId(table, row.id)
  {
    AcceptedIdsDiffer(raws);
    AddedRowIff(table, AcceptedEvents(raws), row);
    forall e
      ensures e in AcceptedEvents(raws) <==> exists i :: IsItsEvent(raws, i, e)
    {
      AcceptedIff(raws, e);
    }
    if i: nat :| i < |raws| && IsFirstOfItsId(raws, i) && IsRowOf(row, raws[i].event) && !HasId(table, row.id) {
      assert IsItsEvent(raws, i, raws[i].event);
    }
  }

  /** A batch sent again after anything else was stored in between adds nothing. */
  lemma RetryStoresNothing(table: seq<Row>, raws: seq<Raw>, later: seq<Row>)
    requires Ingested(table, raws) <= later
    ensures Ingested(later, raws) == later
  {
    var events := AcceptedEvents(raws);
    StoredHolds(table, events);
    NothingNewToStore(later, events);
  }

  /** The endpoint with its table. The storage call may fail, storing nothing. */
  class IngestService {
    var table: seq<Row>

    constructor ()
      ensures table == []
    {
      table := [];
    }

    method StoreEvents(events: seq<TelemetryEvent>, available: bool) returns (inserted: Option<nat>)
      requires UniqueIds(table)
      modifies this
      ensures UniqueIds(table)
      ensures available ==> table == Stored(old(table), events) && inserted == Some(|table| - |old(table)|)
      ensures !available ==> table == old(table) && inserted == None
    {
      if !available {
        return None;
      }
      StoredHolds(table, events);
      var before := |table|;
      table := Stored(table, events);
      return Some(|table| - before);
    }

    /** A receipt always accounts for every event it received. */
    method Ingest(raws: seq<Raw>, available: bool) returns (receipt: Option<Receipt>)
      requires UniqueIds(table)
      modifies this
      ensures UniqueIds(table)
      ensures receipt.None? ==> table == old(table) && !available
      ensures receipt.Some? ==>
                && table == Ingested(old(table), raws)
                && receipt.value.received == |raws| == receipt.value.stored + receipt.value.rejected
                && receipt.value.stored == |AcceptedEvents(raws)| && receipt.value.rejected == |Rejections(raws)|
    {
      var valid, rejected := ValidateEvents(raws);
      if valid != [] {
        var inserted := StoreEvents(valid, available);
        if inserted.None? {
          return None;
        }
      }
      return Some(Receipt(|raws|, |valid|, |rejected|));
    }
  }
}

/**
 Which events count (data/process/weekly_rollup.py): typing, the owner of each
 event, the first exclusion reason and the business-key duplicates.
 */
module RollupEvents {
  import opened Common
  import opened Sequences
  import opened Weeks

  datatype EventType = Inbound | Outbound | Threshold | Discrepancy

  function TypeName(t: EventType): string {
    match t
    case Inbound => "inbound_order_created"
    case Outbound => "outbound_order_created"
    case Threshold => "stock_threshold_triggered"
    case Discrepancy => "inventory_discrepancy_detected"
  }

  /** One extracted event: payload fields still text. */
  datatype RawEvent = RawEvent(
    id: string,
    timestamp: Time,
    createdAt: Time,
    eventType: EventType,
    warehouse: Option<string>,
    clientId: Option<string>,
    productId: Option<string>,
    quantity: Option<string>,
    orderId: Option<string>,
    triggeringOrderId: Option<string>,
    thresholdBand: Option<string>,
    reconciliationId: Option<string>)

  datatype Product = Product(productId: string, clientId: Option<string>, warehouse: string)

  datatype Event = Event(
    id: string,
    timestamp: Time,
    createdAt: Time,
    effectiveTime: Time,
    week: Date,
    eventType: EventType,
    warehouse: Option<string>,
    clientId: Option<string>,
    productId: Option<string>,
    quantity: Option<int>,
    orderId: Option<string>,
    triggeringOrderId: Option<string>,
    thresholdBand: Option<string>,
    reconciliationId: Option<string>)

  /** The fields a KPI reads. */
  datatype Countable = Countable(
    eventType: EventType, warehouse: Option<string>, clientId: Option<string>, week: Date,
    quantity: Option<int>)

  datatype Reason =
    | UnknownWarehouse | InvalidQuantity | MissingClientId | UnknownThresholdBand | OutsideWindow
    | DuplicateBusinessKey

  datatype Exclusion = Exclusion(eventId: string, reason: Reason)

  datatype PreparedEvents = PreparedEvents(
    countable: seq<Countable>, exclusions: seq<Exclusion>, eventsRead: nat,
    eventsExcluded: map<Reason, nat>)

  const WAREHOUSES: set<string> := {"Monterrey", "Zaragoza"}
  const THRESHOLD_BANDS: set<string> := {"low", "out_of_stock"}
  const CLIENT_ID_MAX_LENGTH: nat := 64

  // --- Text ----------------------------------------------------------------------------

  predicate IsBlank(c: char) { c == ' ' || '\t' <= c <= '\r' }

  function StripLeft(s: string): string {
    if s != [] && IsBlank(s[0]) then StripLeft(s[1..]) else s
  }

  function StripRight(s: string): string {
    if s != [] && IsBlank(s[|s| - 1]) then StripRight(s[..|s| - 1]) else s
  }

  /** A blank text field reads as missing. */
  function Clean(text: Option<string>): Option<string> {
    match text
    case None => None
    case Some(s) =>
      var stripped := StripRight(StripLeft(s));
      if stripped == "" then None else Some(stripped)
  }

  function LowerChar(c: char): char {
    if 'A' <= c <= 'Z' then (c as int + 32) as char else c
  }

  function Lower(s: string): string {
    MapSeq(s, LowerChar)
  }

  predicate IsDigit(c: char) { '0' <= c <= '9' }

  function DigitsValue(s: string): int
    requires forall i :: 0 <= i < |s| ==> IsDigit(s[i])
  {
    if s == [] then 0 else 10 * DigitsValue(s[..|s| - 1]) + (s[|s| - 1] as int - '0' as int)
  }

  predicate IsShortNumber(s: string) {
    1 <= |s| <= 9 && forall i :: 0 <= i < |s| ==> IsDigit(s[i])
  }

  /** The whole number a quantity's text stands for, if it is one. */
  function ParseQuantity(text: Option<string>): Option<int> {
    match text
    case None => None
    case Some(s) =>
      if IsShortNumber(s) then Some(DigitsValue(s))
      else if s != [] && s[0] == '-' && IsShortNumber(s[1..]) then Some(-DigitsValue(s[1..]))
      else None
  }

  predicate IsSlugChar(c: char) { 'a' <= c <= 'z' || IsDigit(c) || c == '-' }

  /** A lowercase slug: words of letters and digits joined by single hyphens. */
  predicate IsClientId(s: string) {
    && 0 < |s| <= CLIENT_ID_MAX_LENGTH
    && s[0] != '-' && s[|s| - 1] != '-'
    && (forall i :: 0 <= i < |s| ==> IsSlugChar(s[i]))
    && (forall i :: 0 < i < |s| ==> s[i - 1] != '-' || s[i] != '-')
  }

  predicate HasClientId(text: Option<string>) {
    text.Some? && IsClientId(text.value)
  }

  // --- Typing and owners ---------------------------------------------------------------

  /** Event time is trusted only up to arrival. */
  function EffectiveTime(timestamp: Time, createdAt: Time): Time {
    if timestamp <= createdAt then timestamp else createdAt
  }

  function NormalizeEvent(raw: RawEvent): Event {
    var effective := EffectiveTime(raw.timestamp, raw.createdAt);
    var productId := Clean(raw.productId);
    Event(
      raw.id, raw.timestamp, raw.createdAt, effective, WeekStartOf(effective), raw.eventType,
      Clean(raw.warehouse), Clean(raw.clientId),
      if productId.Some? then Some(Lower(productId.value)) else None,
      ParseQuantity(Clean(raw.quantity)),
      Clean(raw.orderId), Clean(raw.triggeringOrderId), Clean(raw.thresholdBand), Clean(raw.reconciliationId))
  }

  /** The first product of that id with a valid owner. */
  function OwnerOf(products: seq<Product>, productId: string): Option<string> {
    if products == [] then None
    else if Lower(products[0].productId) == productId && HasClientId(products[0].clientId)
    then products[0].clientId
    else OwnerOf(products[1..], productId)
  }

  function ResolveClient(event: Event, products: seq<Product>): Event {
    if HasClientId(event.clientId) then event
    else event.(clientId := if event.productId.Some? then OwnerOf(products, event.productId.value) else None)
  }

  function Normalizer(products: seq<Product>): RawEvent -> Event {
    raw => ResolveClient(NormalizeEvent(raw), products)
  }

  function Normalized(events: seq<RawEvent>, products: seq<Product>): seq<Event> {
    MapSeq(events, Normalizer(products))
  }

  lemma {:induction false} OwnersAreValid(products: seq<Product>, productId: string)
    ensures OwnerOf(products, productId).Some? ==> IsClientId(OwnerOf(products, productId).value)
  {
    if products != [] {
      OwnersAreValid(products[1..], productId);
    }
  }

  lemma ResolvedClientsAreValid(event: Event, products: seq<Product>)
    ensures var resolved := ResolveClient(event, products);
            resolved.clientId.Some? ==> IsClientId(resolved.clientId.value)
  {
    if event.productId.Some? {
      OwnersAreValid(products, event.productId.value);
    }
  }

  // --- Exclusion -----------------------------------------------------------------------

  const CHECKS: seq<Reason> := [UnknownWarehouse, InvalidQuantity, MissingClientId, UnknownThresholdBand, OutsideWindow]

  predicate Fails(check: Reason, e: Event, weeks: seq<Date>) {
    match check
    case UnknownWarehouse => e.warehouse.None? || e.warehouse.value !in WAREHOUSES
    case InvalidQuantity => e.eventType.Inbound? && !(e.quantity.Some? && e.quantity.value >= 1)
    case MissingClientId => e.clientId.None?
    case UnknownThresholdBand =>
      e.eventType.Threshold? && (e.thresholdBand.None? || e.thresholdBand.value !in THRESHOLD_BANDS)
    case OutsideWindow => e.week !in weeks
    case DuplicateBusinessKey => false
  }

  /** The first of `checks` the event fails. */
  function FirstFailing(checks: seq<Reason>, e: Event, weeks: seq<Date>): (r: Option<Reason>)
    ensures r.None? <==> forall i :: 0 <= i < |checks| ==> !Fails(checks[i], e, weeks)
    ensures r.Some? ==> exists i :: 0 <= i < |checks| && checks[i] == r.value && Fails(r.value, e, weeks)
                                    && forall j :: 0 <= j < i ==> !Fails(checks[j], e, weeks)
  {
    if checks == [] then None
    else
      var earlier := FirstFailing(checks[..|checks| - 1], e, weeks);
      var last := checks[|checks| - 1];
      if earlier.Some? then earlier
      else if Fails(last, e, weeks) then Some(last)
      else None
  }

  function FirstReason(e: Event, weeks: seq<Date>): Option<Reason> {
    FirstFailing(CHECKS, e, weeks)
  }

  /** `exclusion_reasons`: one pass over the whole frame for each check, in order. */
  method ExclusionReasons(events: seq<Event>, weeks: seq<Date>) returns (reasons: seq<Option<Reason>>)
    ensures |reasons| == |events|
    ensures forall j :: 0 <= j < |events| ==> reasons[j] == FirstReason(events[j], weeks)
  {
    reasons := seq(|events|, _ => None);
    for i := 0 to |CHECKS|
      invariant |reasons| == |events|
      invariant forall j :: 0 <= j < |events| ==> reasons[j] == FirstFailing(CHECKS[..i], events[j], weeks)
    {
      assert CHECKS[..i + 1][..i] == CHECKS[..i];
      reasons := seq(|events|, j requires 0 <= j < |events| && |reasons| == |events| =>
        if reasons[j].None? && Fails(CHECKS[i], events[j], weeks) then Some(CHECKS[i]) else reasons[j]);
    }
    assert CHECKS[..|CHECKS|] == CHECKS;
  }

  // --- Business keys -------------------------------------------------------------------

  function BusinessKey(e: Event): string {
    match e.eventType
    case Inbound | Outbound =>
      if e.orderId.Some? then "order:" + TypeName(e.eventType) + ":" + e.orderId.value else "event:" + e.id
    case Threshold =>
      if e.triggeringOrderId.Some? && e.thresholdBand.Some?
      then "threshold:" + e.triggeringOrderId.value + ":" + e.thresholdBand.value
      else "event:" + e.id
    case Discrepancy =>
      if e.reconciliationId.Some? && e.productId.Some?
      then "discrepancy:" + e.reconciliationId.value + ":" + e.productId.value
      else "event:" + e.id
  }

  /** The business fact an event reports; an event without a business id is its own fact. */
  datatype Fact =
    | OrderFact(eventType: EventType, orderId: string)
    | CrossingFact(orderId: string, band: string)
    | CountFact(reconciliationId: string, productId: string)
    | OwnFact(id: string)

  function FactOf(e: Event): Fact {
    match e.eventType
    case Inbound | Outbound =>
      if e.orderId.Some? then OrderFact(e.eventType, e.orderId.value) else OwnFact(e.id)
    case Threshold =>
      if e.triggeringOrderId.Some? && e.thresholdBand.Some?
      then CrossingFact(e.triggeringOrderId.value, e.thresholdBand.value)
      else OwnFact(e.id)
    case Discrepancy =>
      if e.reconciliationId.Some? && e.productId.Some?
      then CountFact(e.reconciliationId.value, e.productId.value)
      else OwnFact(e.id)
  }

  predicate DistinctIds(events: seq<Event>) {
    forall i, j :: 0 <= i < j < |events| ==> events[i].id != events[j].id
  }

  lemma KeyTags(e: Event)
    ensures var key := BusinessKey(e);
            match FactOf(e)
            case OrderFact(_, _) => |key| > 6 && key[0] == 'o' && key[6] == (if e.eventType.Inbound? then 'i' else 'o')
            case CrossingFact(_, _) => |key| > 0 && key[0] == 't'
            case CountFact(_, _) => |key| > 0 && key[0] == 'd'
            case OwnFact(_) => |key| >= 6 && key[0] == 'e' && key[6..] == e.id
  {
    if FactOf(e).OrderFact? {
      assert BusinessKey(e)[6..] == TypeName(e.eventType) + ":" + e.orderId.value;
      assert BusinessKey(e)[6] == BusinessKey(e)[6..][0];
    }
  }

  /**
   A key group holds events of a single type, although keep-first or keep-last
   is chosen event by event.
   */
  lemma KeyGroupsHaveOneType(events: seq<Event>, i: nat, j: nat)
    requires DistinctIds(events) && i < |events| && j < |events|
    requires BusinessKey(events[i]) == BusinessKey(events[j])
    ensures events[i].eventType == events[j].eventType
  {
    KeyTags(events[i]);
    KeyTags(events[j]);
  }

  // --- Duplicates ----------------------------------------------------------------------

  /** The order `(timestamp, created_at, id)`. */
  predicate EventLeq(a: Event, b: Event) {
    if a.timestamp != b.timestamp then a.timestamp < b.timestamp
    else if a.createdAt != b.createdAt then a.createdAt < b.createdAt
    else TextLeq(a.id, b.id)
  }

  lemma EventsAreOrdered(events: seq<Event>)
    requires DistinctIds(events)
    ensures TotalOn(Elements(events), EventLeq)
  {
    forall a, b | a in Elements(events) && b in Elements(events)
      ensures EventLeq(a, b) || EventLeq(b, a)
      ensures EventLeq(a, b) && EventLeq(b, a) ==> a == b
    {
      TextLeqTotal(a.id, b.id);
    }
    forall a, b, c | a in Elements(events) && b in Elements(events) && c in Elements(events)
                     && EventLeq(a, b) && EventLeq(b, c)
      ensures EventLeq(a, c)
    {
      if a.timestamp == b.timestamp == c.timestamp && a.createdAt == b.createdAt == c.createdAt {
        TextLeqTransitive(a.id, b.id, c.id);
      }
    }
  }

  /** `key.duplicated(keep="last")` for discrepancies, `keep="first"` for the rest. */
  predicate DuplicatedAt(ordered: seq<Event>, p: nat)
    requires p < |ordered|
  {
    if ordered[p].eventType.Discrepancy?
    then exists q :: p < q < |ordered| && BusinessKey(ordered[q]) == BusinessKey(ordered[p])
    else exists q :: 0 <= q < p && BusinessKey(ordered[q]) == BusinessKey(ordered[p])
  }

  /** `duplicate_mask` at one event: its place in the sorted frame is marked. */
  predicate IsSuperseded(events: seq<Event>, e: Event) {
    var ordered := Sort(events, EventLeq);
    exists p :: 0 <= p < |ordered| && ordered[p] == e && DuplicatedAt(ordered, p)
  }

  /** `winner` is reported before (a discrepancy: after) every other event of its key. */
  predicate Outranks(winner: Event, loser: Event) {
    && BusinessKey(winner) == BusinessKey(loser)
    && if winner.eventType.Discrepancy? then EventLeq(loser, winner) else EventLeq(winner, loser)
  }

  /** Another report of the same key that comes first (for a discrepancy: last). */
  predicate IsBetterReport(o: Event, e: Event) {
    && o != e && BusinessKey(o) == BusinessKey(e)
    && if e.eventType.Discrepancy? then EventLeq(e, o) else EventLeq(o, e)
  }

  lemma OrderedPositions(events: seq<Event>, ordered: seq<Event>, p: nat, q: nat)
    requires DistinctIds(events) && ordered == Sort(events, EventLeq)
    requires p < |ordered| && q < |ordered| && p != q
    ensures ordered[p] in events && ordered[q] in events && ordered[p] != ordered[q]
    ensures EventLeq(ordered[p], ordered[q]) <==> p < q
  {
    EventsAreOrdered(events);
    SortMembers(events, EventLeq);
  }

  lemma SortedHasAll(events: seq<Event>, e: Event) returns (p: nat)
    requires DistinctIds(events) && e in events
    ensures p < |Sort(events, EventLeq)| && Sort(events, EventLeq)[p] == e
  {
    EventsAreOrdered(events);
    SortMembers(events, EventLeq);
    p :| 0 <= p < |Sort(events, EventLeq)| && Sort(events, EventLeq)[p] == e;
  }

  lemma BetterReportSupersedes(events: seq<Event>, o: Event, e: Event)
    requires DistinctIds(events) && e in events && o in events && IsBetterReport(o, e)
    ensures IsSuperseded(events, e)
  {
    var ordered := Sort(events, EventLeq);
    var p := SortedHasAll(events, e);
    var q := SortedHasAll(events, o);
    OrderedPositions(events, ordered, p, q);
    OrderedPositions(events, ordered, q, p);
  }

  lemma SupersededHasABetterReport(events: seq<Event>, e: Event) returns (o: Event)
    requires DistinctIds(events) && IsSuperseded(events, e)
    ensures o in events && IsBetterReport(o, e)
  {
    var ordered := Sort(events, EventLeq);
    var at :| 0 <= at < |ordered| && ordered[at] == e && DuplicatedAt(ordered, at);
    var q :| 0 <= q < |ordered| && q != at && BusinessKey(ordered[q]) == BusinessKey(e)
             && if e.eventType.Discrepancy? then at < q else q < at;
    OrderedPositions(events, ordered, at, q);
    OrderedPositions(events, ordered, q, at);
    o := ordered[q];
  }

  lemma BetterReportIff(events: seq<Event>, e: Event)
    requires DistinctIds(events) && e in events
    ensures IsSuperseded(events, e) <==> exists o :: o in events && IsBetterReport(o, e)
  {
    if o :| o in events && IsBetterReport(o, e) {
      BetterReportSupersedes(events, o, e);
    }
    if IsSuperseded(events, e) {
      var o := SupersededHasABetterReport(events, e);
    }
  }

  /** `a` was reported before `b`: by the event's own time, then by arrival, then by id. */
  predicate ReportedBefore(a: Event, b: Event) {
    || a.timestamp < b.timestamp
    || (a.timestamp == b.timestamp && a.createdAt < b.createdAt)
    || (a.timestamp == b.timestamp && a.createdAt == b.createdAt && TextBefore(a.id, b.id))
  }

  lemma EventLeqIff(a: Event, b: Event)
    requires a.id != b.id
    ensures EventLeq(a, b) <==> ReportedBefore(a, b)
  {
    TextLeqIff(a.id, b.id);
  }

  /**
   An event is marked as a duplicate exactly when another report of its key was made
   before it, or, for a discrepancy, after it.
   */
  lemma SupersededIff(events: seq<Event>, e: Event)
    requires DistinctIds(events) && e in events
    ensures IsSuperseded(events, e) <==>
              exists o :: o in events && o != e && BusinessKey(o) == BusinessKey(e)
                          && if e.eventType.Discrepancy? then ReportedBefore(e, o) else ReportedBefore(o, e)
  {
    BetterReportIff(events, e);
    forall o | o in events && o != e
      ensures EventLeq(o, e) <==> ReportedBefore(o, e)
      ensures EventLeq(e, o) <==> ReportedBefore(e, o)
    {
      EventLeqIff(o, e);
      EventLeqIff(e, o);
    }
  }

  /**
   Exactly one event survives per business key: the first report of an order or a
   threshold crossing, the latest report of a discrepancy.
   */
  lemma OneSurvivorPerKey(events: seq<Event>, key: string) returns (winner: Event)
    requires DistinctIds(events)
    requires exists e :: e in events && BusinessKey(e) == key
    ensures winner in events && BusinessKey(winner) == key && !IsSuperseded(events, winner)
    ensures forall e :: e in events && BusinessKey(e) == key && e != winner ==>
              && IsSuperseded(events, e)
              && e.eventType == winner.eventType
              && if winner.eventType.Discrepancy? then ReportedBefore(e, winner) else ReportedBefore(winner, e)
  {
    var start :| start in events && BusinessKey(start) == key;
    winner := Champion(events, events, start);
    EventsAreOrdered(events);
    BetterReportIff(events, winner);
    forall e | e in events && BusinessKey(e) == key && e != winner
      ensures IsSuperseded(events, e) && e.eventType == winner.eventType
      ensures if winner.eventType.Discrepancy? then ReportedBefore(e, winner) else ReportedBefore(winner, e)
    {
      SameType(events, winner, e);
      BetterReportIff(events, e);
      EventLeqIff(e, winner);
      EventLeqIff(winner, e);
    }
  }

  lemma SameType(events: seq<Event>, a: Event, b: Event)
    requires DistinctIds(events) && a in events && b in events && BusinessKey(a) == BusinessKey(b)
    ensures a.eventType == b.eventType
  {
    var i :| 0 <= i < |events| && events[i] == a;
    var j :| 0 <= j < |events| && events[j] == b;
    KeyGroupsHaveOneType(events, i, j);
  }

  /** Folds over `rest`, keeping the best report of the key so far. */
  lemma {:induction false} Champion(events: seq<Event>, rest: seq<Event>, best: Event) returns (winner: Event)
    requires DistinctIds(events) && best in events && (forall e :: e in rest ==> e in events)
    ensures winner in events && Outranks(winner, best)
    ensures forall e :: e in rest && BusinessKey(e) == BusinessKey(best) ==> Outranks(winner, e)
  {
    EventsAreOrdered(events);
    if rest == [] {
      winner := best;
    } else {
      var e := rest[0];
      var next := best;
      if BusinessKey(e) == BusinessKey(best) {
        SameType(events, e, best);
        next := if Outranks(best, e) then best else e;
      }
      winner := Champion(events, rest[1..], next);
      SameType(events, winner, next);
    }
  }
}

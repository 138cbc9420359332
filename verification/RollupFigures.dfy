/**
 The four KPIs and the assembly of the destination rows
 (data/process/weekly_rollup.py), with the aggregate each row stands for.
 */
module RollupFigures {
  import opened Common
  import opened Sequences
  import opened Weeks
  import opened WeeklyLoad
  import opened RollupEvents
  import opened RollupPrepare

  datatype Kpi = InboundVolume | OutboundThroughput | StockoutFrequency | DiscrepancyRate

  /** A KPI refuses events it cannot count and says how many there are. */
  datatype KpiInputError = WithoutKey(kpi: Kpi, events: nat) | NotAUnitCount(events: nat)

  /** One row of a KPI's frame. */
  datatype Figure<V> = Figure(key: Key, value: V)

  datatype DiscrepancyFigures = DiscrepancyFigures(events: int, rate: int)

  datatype Rollup = Rollup(
    rows: seq<Record>, exclusions: seq<Exclusion>, eventsRead: nat, eventsExcluded: map<Reason, nat>)

  // --- Counting per key ----------------------------------------------------------------

  predicate HasKey(c: Countable) {
    c.warehouse.Some? && c.clientId.Some?
  }

  function KeyOf(c: Countable): Key {
    Key(if c.warehouse.Some? then c.warehouse.value else "", if c.clientId.Some? then c.clientId.value else "", c.week)
  }

  function OfType(t: EventType): Countable -> bool { (c: Countable) => c.eventType == t }

  predicate IsUnitCount(quantity: Option<int>) {
    quantity.Some? && quantity.value >= 1
  }

  /** What one event adds to its KPI: its units when inbound, itself otherwise. */
  function Amount(c: Countable): int {
    if !c.eventType.Inbound? then 1
    else if c.quantity.Some? then c.quantity.value
    else 0
  }

  /** The order of a KPI's frame. */
  predicate KeyLeq(a: Key, b: Key) {
    if a.warehouse != b.warehouse then TextLeq(a.warehouse, b.warehouse)
    else if a.clientId != b.clientId then TextLeq(a.clientId, b.clientId)
    else a.weekStart <= b.weekStart
  }

  function FrameOf<V>(keys: seq<Key>, value: Key -> V): seq<Figure<V>> {
    MapSeq(keys, k => Figure(k, value(k)))
  }

  function KeysOf<V>(frame: seq<Figure<V>>): seq<Key> {
    MapSeq(frame, (f: Figure<V>) => f.key)
  }

  /** A left join on the key, with what stands for a missing row. */
  function Lookup<V>(frame: seq<Figure<V>>, key: Key, missing: V): V {
    if frame == [] then missing
    else if frame[0].key == key then frame[0].value
    else Lookup(frame[1..], key, missing)
  }

  function EventsOf(countable: seq<Countable>, t: EventType, kpi: Kpi): Result<seq<Countable>, KpiInputError> {
    var events := Filter(countable, OfType(t));
    var keyless := Filter(events, (c: Countable) => !HasKey(c));
    if keyless == [] then Success(events) else Failure(WithoutKey(kpi, |keyless|))
  }

  /** `groupby(KEY)`: the keys that have an event, sorted. */
  function GroupKeys(events: seq<Countable>): seq<Key> {
    Sort(Dedupe(MapSeq(events, KeyOf)), KeyLeq)
  }

  function CountPerKey(events: seq<Countable>): seq<Figure<int>> {
    FrameOf(GroupKeys(events), CountIn(events, KeyOf))
  }

  // --- The four KPIs -------------------------------------------------------------------

  function Inbounds(countable: seq<Countable>): Result<seq<Figure<int>>, KpiInputError> {
    match EventsOf(countable, Inbound, InboundVolume)
    case Failure(e) => Failure(e)
    case Success(events) =>
      var unusable := Filter(events, (c: Countable) => !IsUnitCount(c.quantity));
      if unusable != [] then Failure(NotAUnitCount(|unusable|))
      else Success(FrameOf(GroupKeys(events), SumIn(events, KeyOf, Amount)))
  }

  function Outbounds(countable: seq<Countable>): Result<seq<Figure<int>>, KpiInputError> {
    match EventsOf(countable, Outbound, OutboundThroughput)
    case Failure(e) => Failure(e)
    case Success(events) => Success(CountPerKey(events))
  }

  function Stockouts(countable: seq<Countable>): Result<seq<Figure<int>>, KpiInputError> {
    match EventsOf(countable, Threshold, StockoutFrequency)
    case Failure(e) => Failure(e)
    case Success(events) => Success(CountPerKey(events))
  }

  /** `n / d` rounded to the nearest whole number, ties to the even one. */
  function RoundHalfEven(n: int, d: int): int
    requires d > 0
  {
    var q, r := n / d, n % d;
    if 2 * r < d || (2 * r == d && q % 2 == 0) then q else q + 1
  }

  /** The discrepancy rate in ten-thousandths, 0 without orders. */
  function Rate(discrepancies: int, orders: int): int {
    if orders > 0 then RoundHalfEven(10_000 * discrepancies, orders) else 0
  }

  function RateFigures(found: seq<Figure<int>>, orders: seq<Figure<int>>): Key -> DiscrepancyFigures {
    k => DiscrepancyFigures(Lookup(found, k, 0), Rate(Lookup(found, k, 0), Lookup(orders, k, 0)))
  }

  /** An outer join of the discrepancies with the outbound orders. */
  function Discrepancies(countable: seq<Countable>, orders: seq<Figure<int>>)
    : Result<seq<Figure<DiscrepancyFigures>>, KpiInputError>
  {
    match EventsOf(countable, Discrepancy, DiscrepancyRate)
    case Failure(e) => Failure(e)
    case Success(events) =>
      var found := CountPerKey(events);
      Success(FrameOf(Sort(Dedupe(KeysOf(found) + KeysOf(orders)), KeyLeq), RateFigures(found, orders)))
  }

  // --- Assembly ------------------------------------------------------------------------

  predicate OwnsGrid(p: Product) {
    p.warehouse in WAREHOUSES && HasClientId(p.clientId)
  }

  function PairOf(p: Product): (string, string) {
    (p.warehouse, if p.clientId.Some? then p.clientId.value else "")
  }

  function KeysOfPair(pair: (string, string), weeks: seq<Date>): seq<Key> {
    MapSeq(weeks, w => Key(pair.0, pair.1, w))
  }

  function Cross(pairs: seq<(string, string)>, weeks: seq<Date>): seq<Key> {
    if pairs == [] then [] else KeysOfPair(pairs[0], weeks) + Cross(pairs[1..], weeks)
  }

  /** Every pair that owns products, for every week. */
  function Grid(products: seq<Product>, weeks: seq<Date>): seq<Key> {
    Cross(Dedupe(MapSeq(Filter(products, OwnsGrid), PairOf)), weeks)
  }

  /** The order of the destination rows. */
  predicate RowLeq(a: Record, b: Record) {
    if a.key.weekStart != b.key.weekStart then a.key.weekStart < b.key.weekStart
    else if a.key.warehouse != b.key.warehouse then TextLeq(a.key.warehouse, b.key.warehouse)
    else TextLeq(a.key.clientId, b.key.clientId)
  }

  function RowFor(
    inbound: seq<Figure<int>>, outbound: seq<Figure<int>>, stockouts: seq<Figure<int>>,
    discrepancies: seq<Figure<DiscrepancyFigures>>): Key -> Record
  {
    k =>
      var found := Lookup(discrepancies, k, DiscrepancyFigures(0, 0));
      Record(k, Figures(Lookup(inbound, k, 0), Lookup(outbound, k, 0), Lookup(stockouts, k, 0), found.events,
            found.rate))
  }

  function AssembleRows(
    inbound: seq<Figure<int>>, outbound: seq<Figure<int>>, stockouts: seq<Figure<int>>,
    discrepancies: seq<Figure<DiscrepancyFigures>>, products: seq<Product>, weeks: seq<Date>): seq<Record>
  {
    var keys := Dedupe(Grid(products, weeks) + KeysOf(inbound) + KeysOf(outbound) + KeysOf(stockouts)
                       + KeysOf(discrepancies));
    Sort(MapSeq(keys, RowFor(inbound, outbound, stockouts, discrepancies)), RowLeq)
  }

  function EventsIn(f: DiscrepancyFigures): int { f.events }

  function RateIn(f: DiscrepancyFigures): int { f.rate }

  /** One column of a frame. */
  function ColumnFrame<V>(frame: seq<Figure<V>>, column: V -> int): seq<Figure<int>> {
    if frame == [] then [] else [Figure(frame[0].key, column(frame[0].value))] + ColumnFrame(frame[1..], column)
  }

  lemma {:induction false} ColumnLookup<V>(frame: seq<Figure<V>>, column: V -> int, key: Key, missing: V)
    ensures Lookup(ColumnFrame(frame, column), key, column(missing)) == column(Lookup(frame, key, missing))
  {
    if frame != [] {
      ColumnLookup(frame[1..], column, key, missing);
    }
  }

  function Joined(frame: seq<Figure<int>>): Key -> int { k => Lookup(frame, k, 0) }

  /** `assemble_rows`: the keys once, then one left join per frame, then the order. */
  method Assemble(
    inbound: seq<Figure<int>>, outbound: seq<Figure<int>>, stockouts: seq<Figure<int>>,
    discrepancies: seq<Figure<DiscrepancyFigures>>, products: seq<Product>, weeks: seq<Date>)
    returns (rows: seq<Record>)
    ensures rows == AssembleRows(inbound, outbound, stockouts, discrepancies, products, weeks)
  {
    var keys := Dedupe(Grid(products, weeks) + KeysOf(inbound) + KeysOf(outbound) + KeysOf(stockouts)
                       + KeysOf(discrepancies));
    if keys == [] {
      return [];
    }
    var figures := [inbound, outbound, stockouts, ColumnFrame(discrepancies, EventsIn),
          ColumnFrame(discrepancies, RateIn)];
    var columns: seq<seq<int>> := [];
    for n := 0 to |figures|
      invariant |columns| == n
      invariant forall m :: 0 <= m < n ==> columns[m] == MapSeq(keys, Joined(figures[m]))
    {
      columns := columns + [MapSeq(keys, Joined(figures[n]))];
    }
    var unsorted := seq(|keys|, i requires 0 <= i < |keys| && |columns| == 5
                                           && (forall m :: 0 <= m < 5 ==> |columns[m]| == |keys|) =>
      Record(keys[i], Figures(columns[0][i], columns[1][i], columns[2][i], columns[3][i], columns[4][i])));
    ghost var rowFor := RowFor(inbound, outbound, stockouts, discrepancies);
    forall i | 0 <= i < |keys|
      ensures unsorted[i] == rowFor(keys[i])
    {
      ColumnLookup(discrepancies, EventsIn, keys[i], DiscrepancyFigures(0, 0));
      ColumnLookup(discrepancies, RateIn, keys[i], DiscrepancyFigures(0, 0));
    }
    assert unsorted == MapSeq(keys, rowFor);
    rows := Sort(unsorted, RowLeq);
  }

  function RowsOf(countable: seq<Countable>, products: seq<Product>, weeks: seq<Date>)
    : Result<seq<Record>, KpiInputError>
  {
    var outbound :- Outbounds(countable);
    var inbound :- Inbounds(countable);
    var stockouts :- Stockouts(countable);
    var discrepancies :- Discrepancies(countable, outbound);
    Success(AssembleRows(inbound, outbound, stockouts, discrepancies, products, weeks))
  }

  function BuildRollup(events: seq<RawEvent>, products: seq<Product>, weeks: seq<Date>): Result<Rollup, KpiInputError> {
    var prepared := PrepareEvents(events, products, weeks);
    var rows :- RowsOf(prepared.countable, products, weeks);
    Success(Rollup(rows, prepared.exclusions, prepared.eventsRead, prepared.eventsExcluded))
  }

  // --- The aggregate a row stands for --------------------------------------------------

  function Feeds(t: EventType, key: Key): Countable -> bool {
    (c: Countable) => c.eventType == t && KeyOf(c) == key
  }

  /** The total of one KPI under one key, straight from the events. */
  function Column(countable: seq<Countable>, t: EventType, key: Key): int {
    SumOf(countable, Where(Feeds(t, key), Amount))
  }

  function Aggregate(countable: seq<Countable>, key: Key): Figures {
    var orders := Column(countable, Outbound, key);
    var found := Column(countable, Discrepancy, key);
    Figures(Column(countable, Inbound, key), orders, Column(countable, Threshold, key), found, Rate(found, orders))
  }

  /** The pair owns products and the week is computed. */
  predicate InGrid(products: seq<Product>, weeks: seq<Date>, key: Key) {
    && key.weekStart in weeks
    && exists p :: p in products && OwnsGrid(p) && p.warehouse == key.warehouse && p.clientId == Some(key.clientId)
  }

  predicate HasEvent(countable: seq<Countable>, key: Key) {
    exists c :: c in countable && KeyOf(c) == key
  }

  /** Every event is one the KPIs may count. */
  predicate AllCountable(countable: seq<Countable>) {
    forall c :: c in countable ==> HasKey(c) && (c.eventType.Inbound? ==> IsUnitCount(c.quantity))
  }
}

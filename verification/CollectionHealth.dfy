/**
 Collection health (data/process/collection_health.py): what the telemetry behind
 a report counted per day, against the orders the inventory tables hold.
 */
module CollectionHealth {
  import opened Common
  import opened Sequences
  import opened Weeks
  import opened WeeklyLoad
  import opened RollupEvents
  import opened RollupPrepare
  import opened RollupFigures
  import opened RollupValidation
  import opened RollupTheorems

  datatype StatKey = StatKey(warehouse: string, day: Date, eventType: EventType)

  datatype WeekKey = WeekKey(warehouse: string, week: Date, eventType: EventType)

  /** One row of the inventory's own count of orders. */
  datatype OrderCount = OrderCount(key: StatKey, orders: nat)

  datatype Stat = Stat(key: StatKey, telemetryEvents: nat, countedEvents: nat, inventoryOrders: Option<int>)

  datatype Quality = Ok | Degraded

  datatype Health = Health(stats: seq<Stat>, quality: Quality)

  // The accepted range of counted events per hundred inventory orders.
  const COVERAGE_LOW: int := 95
  const COVERAGE_HIGH: int := 105

  predicate IsOrderEvent(t: EventType) { t.Inbound? || t.Outbound? }

  function StatKeyOf(e: Event): StatKey {
    StatKey(if e.warehouse.Some? then e.warehouse.value else "", DateOf(e.effectiveTime), e.eventType)
  }

  function WeekKeyOf(key: StatKey): WeekKey {
    WeekKey(key.warehouse, WeekStartOfDay(key.day), key.eventType)
  }

  function InScope(weeks: seq<Date>): Event -> bool {
    (e: Event) => e.warehouse.Some? && e.warehouse.value in WAREHOUSES && e.week in weeks
  }

  function NotListed(exclusions: seq<Exclusion>): Event -> bool {
    (e: Event) => !IsListed(exclusions, e.id)
  }

  function ScopedEvents(events: seq<RawEvent>, weeks: seq<Date>): seq<Event> {
    Filter(MapSeq(events, NormalizeEvent), InScope(weeks))
  }

  function CountedEvents(events: seq<RawEvent>, exclusions: seq<Exclusion>, weeks: seq<Date>): seq<Event> {
    Filter(ScopedEvents(events, weeks), NotListed(exclusions))
  }

  function OrderKey(o: OrderCount): StatKey { o.key }

  function IsOrderIn(weeks: seq<Date>): OrderCount -> bool {
    (o: OrderCount) => WeekStartOfDay(o.key.day) in weeks
  }

  function OrdersInWeeks(orders: seq<OrderCount>, weeks: seq<Date>): seq<OrderCount> {
    Filter(orders, IsOrderIn(weeks))
  }

  function OrdersAt(orders: seq<OrderCount>, key: StatKey): int {
    if orders == [] then 0
    else if orders[0].key == key then orders[0].orders
    else OrdersAt(orders[1..], key)
  }

  function StatFor(scoped: seq<Event>, counted: seq<Event>, orders: seq<OrderCount>): StatKey -> Stat {
    (key: StatKey) =>
      Stat(key, |Filter(scoped, InGroup(StatKeyOf, key))|, |Filter(counted, InGroup(StatKeyOf, key))|,
           if IsOrderEvent(key.eventType) then Some(OrdersAt(orders, key)) else None)
  }

  /** The keys of the outer join. The source also sorts them; no figure depends on that. */
  function StatKeys(scoped: seq<Event>, orders: seq<OrderCount>): seq<StatKey> {
    Dedupe(MapSeq(scoped, StatKeyOf) + MapSeq(orders, OrderKey))
  }

  function StatsOf(
    events: seq<RawEvent>, exclusions: seq<Exclusion>, orderCounts: seq<OrderCount>, weeks: seq<Date>): seq<Stat>
  {
    var scoped := ScopedEvents(events, weeks);
    var orders := OrdersInWeeks(orderCounts, weeks);
    MapSeq(StatKeys(scoped, orders), StatFor(scoped, CountedEvents(events, exclusions, weeks), orders))
  }

  function CountedIn(s: Stat): int { s.countedEvents }

  function OrdersIn(s: Stat): int { if s.inventoryOrders.Some? then s.inventoryOrders.value else 0 }

  function WeekOfStat(s: Stat): WeekKey { WeekKeyOf(s.key) }

  predicate IsOrderStat(s: Stat) { IsOrderEvent(s.key.eventType) }

  function WeekOfOrder(o: OrderCount): WeekKey { WeekKeyOf(o.key) }

  /** Counted events against inventory orders, per hundred. */
  predicate InRange(counted: int, orders: int) {
    || (counted == 0 && orders == 0)
    || (orders > 0 && COVERAGE_LOW * orders <= 100 * counted <= COVERAGE_HIGH * orders)
  }

  /** Every warehouse, week and order type keeps its weekly totals in range. */
  predicate CoverageHolds(orderStats: seq<Stat>) {
    forall s :: s in orderStats ==>
      InRange(SumIn(orderStats, WeekOfStat, CountedIn)(WeekOfStat(s)),
              SumIn(orderStats, WeekOfStat, OrdersIn)(WeekOfStat(s)))
  }

  function Compute(
    events: seq<RawEvent>, exclusions: seq<Exclusion>, orderCounts: seq<OrderCount>, weeks: seq<Date>): Health
  {
    var stats := StatsOf(events, exclusions, orderCounts, weeks);
    var orderStats := Filter(stats, IsOrderStat);
    Health(stats, if CoverageHolds(orderStats) then Ok else Degraded)
  }

  // --- The stats count what the KPIs counted -------------------------------------------

  function KeySelected(chosen: StatKey -> bool): Stat -> bool { (s: Stat) => chosen(s.key) }

  function EventSelected(chosen: StatKey -> bool): Event -> bool { e => chosen(StatKeyOf(e)) }

  lemma ScopedKeysAreListed(scoped: seq<Event>, orders: seq<OrderCount>)
    ensures NoDuplicates(StatKeys(scoped, orders))
    ensures forall e :: e in scoped ==> StatKeyOf(e) in StatKeys(scoped, orders)
    ensures forall o :: o in orders ==> o.key in StatKeys(scoped, orders)
  {
    var all := MapSeq(scoped, StatKeyOf) + MapSeq(orders, OrderKey);
    DedupeHolds(all);
  }

  /** Summing the counted events of chosen keys counts each chosen event once. */
  lemma CountedOverDays(
    events: seq<RawEvent>, exclusions: seq<Exclusion>, orderCounts: seq<OrderCount>, weeks: seq<Date>,
    chosen: StatKey -> bool)
    ensures SumOf(StatsOf(events, exclusions, orderCounts, weeks), Where(KeySelected(chosen), CountedIn))
         == |Filter(CountedEvents(events, exclusions, weeks), EventSelected(chosen))|
  {
    var scoped, counted := ScopedEvents(events, weeks), CountedEvents(events, exclusions, weeks);
    var orders := OrdersInWeeks(orderCounts, weeks);
    var keys := StatKeys(scoped, orders);
    var statFor := StatFor(scoped, counted, orders);
    var value: StatKey -> int := SumIn(counted, StatKeyOf, Where(EventSelected(chosen), One()));
    ScopedKeysAreListed(scoped, orders);
    FilterHolds(scoped, NotListed(exclusions));
    SumOfMapped(keys, statFor, Where(KeySelected(chosen), CountedIn));
    forall k | k in keys
      ensures After(statFor, Where(KeySelected(chosen), CountedIn))(k) == value(k)
    {
      ChosenGroup(counted, chosen, k);
    }
    SumSame(keys, After(statFor, Where(KeySelected(chosen), CountedIn)), value);
    SumByGroup(counted, keys, StatKeyOf, Where(EventSelected(chosen), One()));
    SumSame(counted, Where(InGroups(StatKeyOf, keys), Where(EventSelected(chosen), One())),
            Where(EventSelected(chosen), One()));
    CountOfFilter(counted, EventSelected(chosen));
  }

  lemma ChosenGroup(counted: seq<Event>, chosen: StatKey -> bool, key: StatKey)
    ensures SumIn(counted, StatKeyOf, Where(EventSelected(chosen), One()))(key)
         == if chosen(key) then |Filter(counted, InGroup(StatKeyOf, key))| else 0
  {
    var grouped := Where(InGroup(StatKeyOf, key), Where(EventSelected(chosen), One()));
    if chosen(key) {
      CountOfFilter(counted, InGroup(StatKeyOf, key));
      SumSame(counted, grouped, Where(InGroup(StatKeyOf, key), One()));
    } else {
      SumSame(counted, grouped, Zero());
      SumZero(counted);
    }
  }

  // --- The same raw events count on both sides -----------------------------------------

  function TransformCounts(events: seq<RawEvent>, products: seq<Product>, weeks: seq<Date>): RawEvent -> bool {
    var normalized := Normalized(events, products);
    raw => FinalReason(normalized, weeks)(Normalizer(products)(raw)).None?
  }

  function HealthCounts(exclusions: seq<Exclusion>, weeks: seq<Date>): RawEvent -> bool {
    raw => InScope(weeks)(NormalizeEvent(raw)) && NotListed(exclusions)(NormalizeEvent(raw))
  }

  lemma SameEventCounts(events: seq<RawEvent>, products: seq<Product>, weeks: seq<Date>, at: nat)
    requires DistinctRawIds(events) && at < |events|
    ensures HealthCounts(PrepareEvents(events, products, weeks).exclusions, weeks)(events[at])
         == TransformCounts(events, products, weeks)(events[at])
  {
    var normalized := Normalized(events, products);
    var reasonOf := FinalReason(normalized, weeks);
    var e := normalized[at];
    NormalizedKeepsIds(events, products);
    EveryEventIsAccountedFor(normalized, reasonOf, e);
    assert NotListed(ExclusionsOf(normalized, reasonOf))(NormalizeEvent(events[at])) == reasonOf(e).None?;
    if reasonOf(e).None? {
      UnexcludedIsScreened(events[at], products, weeks);
    }
  }

  /** How many raw events satisfy a condition and count. */
  lemma CountedAsRaw(events: seq<RawEvent>, exclusions: seq<Exclusion>, weeks: seq<Date>, chosen: StatKey -> bool)
    ensures |Filter(CountedEvents(events, exclusions, weeks), EventSelected(chosen))|
         == SumOf(events,
               Where(HealthCounts(exclusions, weeks), After(NormalizeEvent, Where(EventSelected(chosen), One()))))
  {
    var all := MapSeq(events, NormalizeEvent);
    var one: Event -> int := Where(EventSelected(chosen), One());
    CountOfFilter(CountedEvents(events, exclusions, weeks), EventSelected(chosen));
    SumOverFilter(ScopedEvents(events, weeks), NotListed(exclusions), one);
    SumOverFilter(all, InScope(weeks), Where(NotListed(exclusions), one));
    SumOfMapped(events, NormalizeEvent, Where(InScope(weeks), Where(NotListed(exclusions), one)));
    SumSame(events, After(NormalizeEvent, Where(InScope(weeks), Where(NotListed(exclusions), one))),
            Where(HealthCounts(exclusions, weeks), After(NormalizeEvent, one)));
  }

  function CountableSelected(chosen: WeekKey -> bool): Countable -> bool {
    (c: Countable) => chosen(WeekKey(KeyOf(c).warehouse, c.week, c.eventType))
  }

  function ByWeek(chosen: WeekKey -> bool): StatKey -> bool { (k: StatKey) => chosen(WeekKeyOf(k)) }

  lemma ResolvingKeepsTheRest(raw: RawEvent, products: seq<Product>)
    ensures var e, n := NormalizeEvent(raw), Normalizer(products)(raw);
            e.id == n.id && StatKeyOf(e) == StatKeyOf(n) && e.week == n.week && e.warehouse == n.warehouse
            && e.week == WeekStartOfDay(StatKeyOf(e).day)
  {
  }

  lemma SameSelection(raw: RawEvent, products: seq<Product>, chosen: WeekKey -> bool)
    ensures CountableSelected(chosen)(CountableOf(Normalizer(products)(raw)))
         == EventSelected(ByWeek(chosen))(NormalizeEvent(raw))
  {
    ResolvingKeepsTheRest(raw, products);
    var e, n := NormalizeEvent(raw), Normalizer(products)(raw);
    assert WeekKeyOf(StatKeyOf(e)) == WeekKey(KeyOf(CountableOf(n)).warehouse, n.week, n.eventType);
  }

  lemma CountableAsRaw(events: seq<RawEvent>, products: seq<Product>, weeks: seq<Date>, chosen: WeekKey -> bool)
    ensures |Filter(CountableEvents(events, products, weeks), CountableSelected(chosen))|
         == SumOf(events, Where(TransformCounts(events, products, weeks),
                                After(NormalizeEvent, Where(EventSelected(ByWeek(chosen)), One()))))
  {
    var normalized := Normalized(events, products);
    var reasonOf := FinalReason(normalized, weeks);
    var one: Countable -> int := Where(CountableSelected(chosen), One());
    CountOfFilter(CountableEvents(events, products, weeks), CountableSelected(chosen));
    SumOfMapped(Counted(normalized, reasonOf), CountableOf, one);
    SumOverFilter(normalized, Unexcluded(reasonOf), After(CountableOf, one));
    SumOfMapped(events, Normalizer(products), Where(Unexcluded(reasonOf), After(CountableOf, one)));
    forall raw | raw in events
      ensures After(Normalizer(products), Where(Unexcluded(reasonOf), After(CountableOf, one)))(raw)
           == Where(TransformCounts(events, products, weeks),
                    After(NormalizeEvent, Where(EventSelected(ByWeek(chosen)), One())))(raw)
    {
      SameSelection(raw, products, chosen);
    }
    SumSame(events, After(Normalizer(products), Where(Unexcluded(reasonOf), After(CountableOf, one))),
            Where(TransformCounts(events, products, weeks),
                  After(NormalizeEvent, Where(EventSelected(ByWeek(chosen)), One()))));
  }

  /**
   Through exclusions by id, grouping per day and the outer join, the health
   check counts exactly the events the KPIs counted, for any choice of
   warehouses, weeks and event types.
   */
  lemma HealthCountsWhatTheKpisCount(
    events: seq<RawEvent>, products: seq<Product>, orderCounts: seq<OrderCount>, weeks: seq<Date>,
    chosen: WeekKey -> bool)
    requires DistinctRawIds(events)
    ensures SumOf(StatsOf(events, PrepareEvents(events, products, weeks).exclusions, orderCounts, weeks),
                  Where(KeySelected(ByWeek(chosen)), CountedIn))
         == |Filter(CountableEvents(events, products, weeks), CountableSelected(chosen))|
  {
    var exclusions := PrepareEvents(events, products, weeks).exclusions;
    CountedOverDays(events, exclusions, orderCounts, weeks, ByWeek(chosen));
    CountedAsRaw(events, exclusions, weeks, ByWeek(chosen));
    CountableAsRaw(events, products, weeks, chosen);
    var one: RawEvent -> int := After(NormalizeEvent, Where(EventSelected(ByWeek(chosen)), One()));
    forall raw | raw in events
      ensures HealthCounts(exclusions, weeks)(raw) == TransformCounts(events, products, weeks)(raw)
    {
      var at :| 0 <= at < |events| && events[at] == raw;
      SameEventCounts(events, products, weeks, at);
    }
    SumSame(events, Where(HealthCounts(exclusions, weeks), one), Where(TransformCounts(events, products, weeks), one));
  }

  // --- Coverage in the report's terms --------------------------------------------------

  function Only(key: WeekKey): WeekKey -> bool { k => k == key }

  lemma OnlyIts(week: WeekKey, key: StatKey)
    ensures ByWeek(Only(week))(key) <==> WeekKeyOf(key) == week
  {
  }

  function AtWarehouseWeek(warehouse: string, week: Date): Key -> bool {
    (k: Key) => k.warehouse == warehouse && k.weekStart == week
  }

  lemma CountedOutbound(countable: seq<Countable>, warehouse: string, week: Date)
    ensures |Filter(countable, CountableSelected(Only(WeekKey(warehouse, week, Outbound))))|
         == SumOf(countable, Where(CountableUnder(AtWarehouseWeek(warehouse, week)), AmountOf(Outbound)))
  {
    var selected := CountableSelected(Only(WeekKey(warehouse, week, Outbound)));
    forall c: Countable
      ensures Where(selected, One())(c)
            == Where(CountableUnder(AtWarehouseWeek(warehouse, week)), AmountOf(Outbound))(c)
    {
      var key := WeekKey(KeyOf(c).warehouse, c.week, c.eventType);
    }
  }

  /**
   Per warehouse and week, the health check's counted outbound events over the
   days are the report's outbound orders over the clients.
   */
  lemma CountedOutboundIsReportedOutbound(
    events: seq<RawEvent>, products: seq<Product>, orderCounts: seq<OrderCount>, weeks: seq<Date>,
    warehouse: string, week: Date)
    requires DistinctRawIds(events)
    ensures BuildRollup(events, products, weeks).Success?
    ensures SumOf(StatsOf(events, PrepareEvents(events, products, weeks).exclusions, orderCounts, weeks),
                  Where(KeySelected(ByWeek(Only(WeekKey(warehouse, week, Outbound)))), CountedIn))
         == SumOf(BuildRollup(events, products, weeks).value.rows,
                  Where(RowSelected(AtWarehouseWeek(warehouse, week)), Published(Outbound)))
  {
    HealthCountsWhatTheKpisCount(events, products, orderCounts, weeks, Only(WeekKey(warehouse, week, Outbound)));
    CountedOutbound(CountableEvents(events, products, weeks), warehouse, week);
    ScreenedAreCountable(events, products, weeks);
    ColumnsAddUp(CountableEvents(events, products, weeks), products, weeks, Outbound, AtWarehouseWeek(warehouse, week));
  }

  /** The extraction groups orders by warehouse, day and type, so each is listed once. */
  predicate IsOrderCountFrame(orders: seq<OrderCount>) {
    && (forall i, j :: 0 <= i < j < |orders| ==> orders[i].key != orders[j].key)
    && (forall o :: o in orders ==> IsOrderEvent(o.key.eventType))
  }

  function Orders(o: OrderCount): int { o.orders }

  function OrdersOfWeek(orderCounts: seq<OrderCount>, weeks: seq<Date>, key: WeekKey): int {
    SumOf(OrdersInWeeks(orderCounts, weeks), Where(InGroup(WeekOfOrder, key), Orders))
  }

  lemma {:induction false} FilterKeepsFrame(orders: seq<OrderCount>, p: OrderCount -> bool)
    requires IsOrderCountFrame(orders)
    ensures IsOrderCountFrame(Filter(orders, p))
  {
    if orders != [] {
      FilterKeepsFrame(orders[1..], p);
      FilterHolds(orders[1..], p);
      assert forall o :: o in orders[1..] ==> o in orders && o.key != orders[0].key;
    }
  }

  lemma {:induction false} LookupIsGroupSum(orders: seq<OrderCount>, key: StatKey)
    requires IsOrderCountFrame(orders)
    ensures OrdersAt(orders, key) == SumIn(orders, OrderKey, Orders)(key)
  {
    if orders != [] {
      var rest := orders[1..];
      var grouped: OrderCount -> int := Where(InGroup(OrderKey, key), Orders);
      if orders[0].key == key {
        SumSame(rest, grouped, Zero());
        SumZero(rest);
      } else {
        LookupIsGroupSum(rest, key);
      }
    }
  }

  function OrderSelected(chosen: StatKey -> bool): OrderCount -> bool { (o: OrderCount) => chosen(o.key) }

  lemma OrderGroup(orders: seq<OrderCount>, chosen: StatKey -> bool, key: StatKey)
    requires IsOrderCountFrame(orders)
    ensures SumIn(orders, OrderKey, Where(OrderSelected(chosen), Orders))(key)
         == if chosen(key) then OrdersAt(orders, key) else 0
  {
    var grouped := Where(InGroup(OrderKey, key), Where(OrderSelected(chosen), Orders));
    if chosen(key) {
      LookupIsGroupSum(orders, key);
      SumSame(orders, grouped, Where(InGroup(OrderKey, key), Orders));
    } else {
      SumSame(orders, grouped, Zero());
      SumZero(orders);
    }
  }

  lemma OrdersOverKeys(orders: seq<OrderCount>, keys: seq<StatKey>, key: WeekKey)
    requires NoDuplicates(keys) && forall o :: o in orders ==> o.key in keys
    ensures SumOf(keys, SumIn(orders, OrderKey, Where(OrderSelected(ByWeek(Only(key))), Orders)))
         == SumOf(orders, Where(InGroup(WeekOfOrder, key), Orders))
  {
    var chosen := ByWeek(Only(key));
    SumByGroup(orders, keys, OrderKey, Where(OrderSelected(chosen), Orders));
    SumSame(orders, Where(InGroups(OrderKey, keys), Where(OrderSelected(chosen), Orders)),
            Where(InGroup(WeekOfOrder, key), Orders));
  }

  lemma OrdersOfKey(
    scoped: seq<Event>, counted: seq<Event>, orders: seq<OrderCount>, week: WeekKey, key: StatKey)
    requires IsOrderCountFrame(orders) && IsOrderEvent(week.eventType)
    ensures After(StatFor(scoped, counted, orders), Where(KeySelected(ByWeek(Only(week))), OrdersIn))(key)
         == SumIn(orders, OrderKey, Where(OrderSelected(ByWeek(Only(week))), Orders))(key)
  {
    OrderGroup(orders, ByWeek(Only(week)), key);
    OnlyIts(week, key);
  }

  /** The outer join loses no inventory order. */
  lemma OrdersOverDays(
    events: seq<RawEvent>, exclusions: seq<Exclusion>, orderCounts: seq<OrderCount>, weeks: seq<Date>, key: WeekKey)
    requires IsOrderCountFrame(orderCounts) && IsOrderEvent(key.eventType)
    ensures SumOf(StatsOf(events, exclusions, orderCounts, weeks), Where(KeySelected(ByWeek(Only(key))), OrdersIn))
         == OrdersOfWeek(orderCounts, weeks, key)
  {
    var scoped, counted := ScopedEvents(events, weeks), CountedEvents(events, exclusions, weeks);
    var orders := OrdersInWeeks(orderCounts, weeks);
    var keys := StatKeys(scoped, orders);
    var ofStat: Stat -> int := Where(KeySelected(ByWeek(Only(key))), OrdersIn);
    var ofOrders: StatKey -> int := SumIn(orders, OrderKey, Where(OrderSelected(ByWeek(Only(key))), Orders));
    FilterKeepsFrame(orderCounts, IsOrderIn(weeks));
    ScopedKeysAreListed(scoped, orders);
    SumOfMapped(keys, StatFor(scoped, counted, orders), ofStat);
    forall k | k in keys
      ensures After(StatFor(scoped, counted, orders), ofStat)(k) == ofOrders(k)
    {
      OrdersOfKey(scoped, counted, orders, key, k);
    }
    SumSame(keys, After(StatFor(scoped, counted, orders), ofStat), ofOrders);
    OrdersOverKeys(orders, keys, key);
  }

  lemma WeeklyTotal(stats: seq<Stat>, value: Stat -> int, key: WeekKey)
    requires IsOrderEvent(key.eventType)
    ensures SumIn(Filter(stats, IsOrderStat), WeekOfStat, value)(key)
         == SumOf(stats, Where(KeySelected(ByWeek(Only(key))), value))
  {
    SumOverFilter(stats, IsOrderStat, Where(InGroup(WeekOfStat, key), value));
    forall s: Stat
      ensures Where(IsOrderStat, Where(InGroup(WeekOfStat, key), value))(s)
           == Where(KeySelected(ByWeek(Only(key))), value)(s)
    {
      OnlyIts(key, s.key);
    }
    SumSame(stats, Where(IsOrderStat, Where(InGroup(WeekOfStat, key), value)),
            Where(KeySelected(ByWeek(Only(key))), value));
  }

  lemma NothingInWeek(stats: seq<Stat>, value: Stat -> int, key: WeekKey)
    requires forall s :: s in stats ==> WeekOfStat(s) != key
    ensures SumIn(stats, WeekOfStat, value)(key) == 0
  {
    SumSame(stats, Where(InGroup(WeekOfStat, key), value), Zero());
    SumZero(stats);
  }

  lemma CoverageIff(orderStats: seq<Stat>)
    ensures CoverageHolds(orderStats) <==>
            forall k: WeekKey ::
              InRange(SumIn(orderStats, WeekOfStat, CountedIn)(k), SumIn(orderStats, WeekOfStat, OrdersIn)(k))
  {
    if CoverageHolds(orderStats) {
      forall k: WeekKey
        ensures InRange(SumIn(orderStats, WeekOfStat, CountedIn)(k), SumIn(orderStats, WeekOfStat, OrdersIn)(k))
      {
        if s :| s in orderStats && WeekOfStat(s) == k {
        } else {
          NothingInWeek(orderStats, CountedIn, k);
          NothingInWeek(orderStats, OrdersIn, k);
        }
      }
    }
  }

  lemma OtherTypesAreEmpty(stats: seq<Stat>, value: Stat -> int, key: WeekKey)
    requires !IsOrderEvent(key.eventType)
    ensures SumIn(Filter(stats, IsOrderStat), WeekOfStat, value)(key) == 0
  {
    FilterHolds(stats, IsOrderStat);
    NothingInWeek(Filter(stats, IsOrderStat), value, key);
  }

  /** The events of a type the KPIs counted for a warehouse in a week. */
  function IsCountOf(key: WeekKey): Countable -> bool {
    (c: Countable) => c.eventType == key.eventType && c.warehouse == Some(key.warehouse) && c.week == key.week
  }

  /** The inventory orders of a type of a warehouse on the seven days of a week. */
  function IsOrderOf(key: WeekKey): OrderCount -> bool {
    (o: OrderCount) =>
      o.key.eventType == key.eventType && o.key.warehouse == key.warehouse && key.week <= o.key.day < key.week + 7
  }

  predicate IsCovered(countable: seq<Countable>, orderCounts: seq<OrderCount>, key: WeekKey) {
    var counted, orders := |Filter(countable, IsCountOf(key))|, SumOf(Filter(orderCounts, IsOrderOf(key)), Orders);
    (counted == 0 && orders == 0) || (orders > 0 && 95 * orders <= 100 * counted <= 105 * orders)
  }

  /** The weeks the run computes, and the orders the inventory holds. */
  predicate IsChecked(weeks: seq<Date>, key: WeekKey) {
    (key.eventType == Inbound || key.eventType == Outbound) && IsMonday(key.week) && key.week in weeks
  }

  lemma CountsOfKey(events: seq<RawEvent>, products: seq<Product>, weeks: seq<Date>, key: WeekKey)
    ensures var countable := CountableEvents(events, products, weeks);
            && |Filter(countable, IsCountOf(key))| == |Filter(countable, CountableSelected(Only(key)))|
            && (!IsMonday(key.week) || key.week !in weeks ==> Filter(countable, IsCountOf(key)) == [])
  {
    var countable := CountableEvents(events, products, weeks);
    CountableAreScreened(events, products, weeks);
    forall c | c in countable
      ensures IsCountOf(key)(c) == CountableSelected(Only(key))(c)
    {
      assert IsScreened(c, weeks);
      assert WeekKey(KeyOf(c).warehouse, c.week, c.eventType) == key
        <==> c.warehouse.value == key.warehouse && c.week == key.week && c.eventType == key.eventType;
    }
    FilterSame(countable, IsCountOf(key), CountableSelected(Only(key)));
    FilterIsEmptyIff(countable, IsCountOf(key));
  }

  lemma OrdersOfWeekKey(orderCounts: seq<OrderCount>, weeks: seq<Date>, key: WeekKey)
    requires IsMonday(key.week) && key.week in weeks
    ensures OrdersOfWeek(orderCounts, weeks, key) == SumOf(Filter(orderCounts, IsOrderOf(key)), Orders)
  {
    var ofWeek: OrderCount -> int := Where(InGroup(WeekOfOrder, key), Orders);
    SumOverFilter(orderCounts, IsOrderIn(weeks), ofWeek);
    SumOverFilter(orderCounts, IsOrderOf(key), Orders);
    forall o | o in orderCounts
      ensures Where(IsOrderIn(weeks), ofWeek)(o) == Where(IsOrderOf(key), Orders)(o)
    {
      assert WeekStartOfDay(o.key.day) == key.week <==> key.week <= o.key.day < key.week + 7;
      assert WeekOfOrder(o) == key <==> IsOrderOf(key)(o);
    }
    SumSame(orderCounts, Where(IsOrderIn(weeks), ofWeek), Where(IsOrderOf(key), Orders));
  }

  lemma NoOrdersOfOtherWeeks(orderCounts: seq<OrderCount>, weeks: seq<Date>, key: WeekKey)
    requires !IsMonday(key.week) || key.week !in weeks
    ensures OrdersOfWeek(orderCounts, weeks, key) == 0
  {
    var orders := OrdersInWeeks(orderCounts, weeks);
    FilterHolds(orderCounts, IsOrderIn(weeks));
    SumSame(orders, Where(InGroup(WeekOfOrder, key), Orders), Zero());
    SumZero(orders);
  }

  lemma CoveredIff(
    events: seq<RawEvent>, products: seq<Product>, orderCounts: seq<OrderCount>, weeks: seq<Date>, key: WeekKey)
    requires IsOrderEvent(key.eventType)
    ensures var countable := CountableEvents(events, products, weeks);
            InRange(|Filter(countable, CountableSelected(Only(key)))|, OrdersOfWeek(orderCounts, weeks, key))
            <==> (IsChecked(weeks, key) ==> IsCovered(countable, orderCounts, key))
  {
    CountsOfKey(events, products, weeks, key);
    if IsMonday(key.week) && key.week in weeks {
      OrdersOfWeekKey(orderCounts, weeks, key);
    } else {
      NoOrdersOfOtherWeeks(orderCounts, weeks, key);
    }
  }

  /**
   A run's verdict is `ok` exactly when, for every warehouse, computed week and order
   type, the events the KPIs counted are between 95 and 105 per hundred inventory
   orders of the week's seven days (or there are neither).
   */
  lemma QualityIsOkIff(
    events: seq<RawEvent>, products: seq<Product>, orderCounts: seq<OrderCount>, weeks: seq<Date>)
    requires DistinctRawIds(events) && IsOrderCountFrame(orderCounts)
    ensures Compute(events, PrepareEvents(events, products, weeks).exclusions, orderCounts, weeks).quality.Ok?
       <==> forall key: WeekKey :: IsChecked(weeks, key)
                                   ==> IsCovered(CountableEvents(events, products, weeks), orderCounts, key)
  {
    var exclusions := PrepareEvents(events, products, weeks).exclusions;
    var stats := StatsOf(events, exclusions, orderCounts, weeks);
    var orderStats := Filter(stats, IsOrderStat);
    CoverageIff(orderStats);
    forall key: WeekKey
      ensures InRange(SumIn(orderStats, WeekOfStat, CountedIn)(key), SumIn(orderStats, WeekOfStat, OrdersIn)(key))
         <==> (IsChecked(weeks, key) ==> IsCovered(CountableEvents(events, products, weeks), orderCounts, key))
    {
      if IsOrderEvent(key.eventType) {
        WeeklyTotal(stats, CountedIn, key);
        WeeklyTotal(stats, OrdersIn, key);
        HealthCountsWhatTheKpisCount(events, products, orderCounts, weeks, Only(key));
        OrdersOverDays(events, exclusions, orderCounts, weeks, key);
        CoveredIff(events, products, orderCounts, weeks, key);
      } else {
        OtherTypesAreEmpty(stats, CountedIn, key);
        OtherTypesAreEmpty(stats, OrdersIn, key);
      }
    }
  }

  /** An event of the type that happened that day, in one of the two warehouses and a computed week. */
  function HappenedAt(key: StatKey, weeks: seq<Date>): RawEvent -> bool {
    (raw: RawEvent) =>
      && raw.eventType == key.eventType && Clean(raw.warehouse) == Some(key.warehouse)
      && key.warehouse in {"Monterrey", "Zaragoza"}
      && Midnight(key.day) <= EffectiveTime(raw.timestamp, raw.createdAt) < Midnight(key.day + 1)
      && exists w :: w in weeks && IsMonday(w) && w <= key.day < w + 7
  }

  lemma HappenedThere(raw: RawEvent, key: StatKey, weeks: seq<Date>)
    ensures HappenedAt(key, weeks)(raw)
       <==> InScope(weeks)(NormalizeEvent(raw)) && InGroup(StatKeyOf, key)(NormalizeEvent(raw))
  {
    var e := NormalizeEvent(raw);
    assert DateOf(e.effectiveTime) == key.day <==> Midnight(key.day) <= e.effectiveTime < Midnight(key.day + 1);
    forall w | IsMonday(w)
      ensures w == WeekStartOfDay(key.day) <==> w <= key.day < w + 7
    {}
    assert StatKeyOf(e).day == key.day ==> e.week == WeekStartOfDay(key.day) && IsMonday(e.week);
  }

  /** The telemetry column of a day counts every event that happened, counted or not. */
  lemma TelemetryCountsWhatHappened(
    events: seq<RawEvent>, exclusions: seq<Exclusion>, orderCounts: seq<OrderCount>, weeks: seq<Date>, s: Stat)
    requires s in StatsOf(events, exclusions, orderCounts, weeks)
    ensures s.telemetryEvents == |Filter(events, HappenedAt(s.key, weeks))|
  {
    var typed := MapSeq(events, NormalizeEvent);
    var there := (e: Event) => InScope(weeks)(e) && InGroup(StatKeyOf, s.key)(e);
    FilterWhere(typed, InScope(weeks), InGroup(StatKeyOf, s.key), there);
    CountOfFilter(typed, there);
    SumOfMapped(events, NormalizeEvent, Where(there, One()));
    forall raw: RawEvent
      ensures After(NormalizeEvent, Where(there, One()))(raw) == Where(HappenedAt(s.key, weeks), One<RawEvent>())(raw)
    {
      HappenedThere(raw, s.key, weeks);
    }
    SumSame(events, After(NormalizeEvent, Where(there, One())), Where(HappenedAt(s.key, weeks), One()));
    CountOfFilter(events, HappenedAt(s.key, weeks));
  }
}

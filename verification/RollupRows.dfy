/**
 What the rows of the weekly rollup mean (data/process/weekly_rollup.py): exactly
 the grid and the keys with events, each once, each with the totals of its events.
 */
module RollupRows {
  import opened Common
  import opened Sequences
  import opened Weeks
  import opened WeeklyLoad
  import opened RollupEvents
  import opened RollupFigures

  // --- Frames --------------------------------------------------------------------------

  lemma FrameKeys<V>(keys: seq<Key>, value: Key -> V)
    ensures KeysOf(FrameOf(keys, value)) == keys
  {
  }

  lemma {:induction false} FrameLookup<V>(keys: seq<Key>, value: Key -> V, key: Key, missing: V)
    ensures Lookup(FrameOf(keys, value), key, missing) == if key in keys then value(key) else missing
  {
    if keys != [] {
      FrameLookup(keys[1..], value, key, missing);
    }
  }

  lemma KeysAreOrdered(domain: set<Key>)
    ensures TotalOn(domain, KeyLeq)
  {
    forall a, b | a in domain && b in domain
      ensures KeyLeq(a, b) || KeyLeq(b, a)
      ensures KeyLeq(a, b) && KeyLeq(b, a) ==> a == b
    {
      TextLeqTotal(a.warehouse, b.warehouse);
      TextLeqTotal(a.clientId, b.clientId);
    }
    forall a, b, c | a in domain && b in domain && c in domain && KeyLeq(a, b) && KeyLeq(b, c)
      ensures KeyLeq(a, c)
    {
      KeyLeqTransitive(a, b, c);
    }
  }

  lemma KeyLeqTransitive(a: Key, b: Key, c: Key)
    requires KeyLeq(a, b) && KeyLeq(b, c)
    ensures KeyLeq(a, c)
  {
    TextLeqTotal(b.warehouse, c.warehouse);
    TextLeqTotal(b.clientId, c.clientId);
    if TextLeq(a.warehouse, b.warehouse) && TextLeq(b.warehouse, c.warehouse) {
      TextLeqTransitive(a.warehouse, b.warehouse, c.warehouse);
    }
    if TextLeq(a.clientId, b.clientId) && TextLeq(b.clientId, c.clientId) {
      TextLeqTransitive(a.clientId, b.clientId, c.clientId);
    }
  }

  lemma GroupKeysHold(events: seq<Countable>)
    ensures NoDuplicates(GroupKeys(events))
    ensures forall k :: k in GroupKeys(events) <==> HasEvent(events, k)
  {
    var all := MapSeq(events, KeyOf);
    var keys := Dedupe(all);
    DedupeHolds(all);
    KeysAreOrdered(Elements(keys));
    SortMembers(keys, KeyLeq);
  }

  // --- The KPIs are the aggregates -----------------------------------------------------

  lemma GroupSumIsColumn(countable: seq<Countable>, t: EventType, key: Key)
    ensures SumIn(Filter(countable, OfType(t)), KeyOf, Amount)(key) == Column(countable, t, key)
  {
    var inGroup: Countable -> int := Where(InGroup(KeyOf, key), Amount);
    SumOverFilter(countable, OfType(t), inGroup);
    SumSame(countable, Where(OfType(t), inGroup), Where(Feeds(t, key), Amount));
  }

  lemma GroupCountIsColumn(countable: seq<Countable>, t: EventType, key: Key)
    requires !t.Inbound?
    ensures CountIn(Filter(countable, OfType(t)), KeyOf)(key) == Column(countable, t, key)
  {
    var events := Filter(countable, OfType(t));
    FilterHolds(countable, OfType(t));
    CountOfFilter(events, InGroup(KeyOf, key));
    SumSame(events, Where(InGroup(KeyOf, key), One()), Where(InGroup(KeyOf, key), Amount));
    GroupSumIsColumn(countable, t, key);
  }

  lemma EmptyColumn(countable: seq<Countable>, t: EventType, key: Key)
    requires !HasEvent(Filter(countable, OfType(t)), key)
    ensures Column(countable, t, key) == 0
  {
    FilterHolds(countable, OfType(t));
    SumSame(countable, Where(Feeds(t, key), Amount), Zero());
    SumZero(countable);
  }

  lemma CountFrameLookup(countable: seq<Countable>, t: EventType, key: Key)
    requires !t.Inbound?
    ensures Lookup(CountPerKey(Filter(countable, OfType(t))), key, 0) == Column(countable, t, key)
  {
    var events := Filter(countable, OfType(t));
    FrameLookup(GroupKeys(events), CountIn(events, KeyOf), key, 0);
    GroupKeysHold(events);
    GroupCountIsColumn(countable, t, key);
    if key !in GroupKeys(events) {
      EmptyColumn(countable, t, key);
    }
  }

  lemma InboundFrameLookup(countable: seq<Countable>, key: Key)
    ensures var events := Filter(countable, OfType(Inbound));
            Lookup(FrameOf(GroupKeys(events), SumIn(events, KeyOf, Amount)), key, 0) == Column(countable, Inbound, key)
  {
    var events := Filter(countable, OfType(Inbound));
    FrameLookup(GroupKeys(events), SumIn(events, KeyOf, Amount), key, 0);
    GroupKeysHold(events);
    GroupSumIsColumn(countable, Inbound, key);
    if key !in GroupKeys(events) {
      EmptyColumn(countable, Inbound, key);
    }
  }

  lemma EventsOfHolds(countable: seq<Countable>, t: EventType, kpi: Kpi)
    ensures EventsOf(countable, t, kpi).Success? <==> forall c :: c in countable && c.eventType == t ==> HasKey(c)
    ensures EventsOf(countable, t, kpi).Success? ==> EventsOf(countable, t, kpi).value == Filter(countable, OfType(t))
  {
    var events := Filter(countable, OfType(t));
    FilterHolds(countable, OfType(t));
    FilterIsEmptyIff(events, (c: Countable) => !HasKey(c));
  }

  /** The KPIs refuse exactly the events `prepare_events` never hands over. */
  lemma KpisRefuseIff(countable: seq<Countable>, products: seq<Product>, weeks: seq<Date>)
    ensures RowsOf(countable, products, weeks).Success? <==> AllCountable(countable)
  {
    EventsOfHolds(countable, Inbound, InboundVolume);
    EventsOfHolds(countable, Outbound, OutboundThroughput);
    EventsOfHolds(countable, Threshold, StockoutFrequency);
    EventsOfHolds(countable, Discrepancy, DiscrepancyRate);
    var inbound := Filter(countable, OfType(Inbound));
    FilterHolds(countable, OfType(Inbound));
    FilterIsEmptyIff(inbound, (c: Countable) => !IsUnitCount(c.quantity));
  }

  // --- The keys of the rows ------------------------------------------------------------

  lemma {:induction false} CrossHolds(pairs: seq<(string, string)>, weeks: seq<Date>, key: Key)
    ensures key in Cross(pairs, weeks) <==> (key.warehouse, key.clientId) in pairs && key.weekStart in weeks
  {
    if pairs != [] {
      CrossHolds(pairs[1..], weeks, key);
    }
  }

  predicate OwnsKey(p: Product, key: Key) {
    OwnsGrid(p) && p.warehouse == key.warehouse && p.clientId == Some(key.clientId)
  }

  lemma OwningPairs(products: seq<Product>, key: Key)
    ensures (key.warehouse, key.clientId) in MapSeq(Filter(products, OwnsGrid), PairOf)
       <==> exists p :: p in products && OwnsKey(p, key)
  {
    var owning := Filter(products, OwnsGrid);
    var pairs := MapSeq(owning, PairOf);
    var pair := (key.warehouse, key.clientId);
    FilterHolds(products, OwnsGrid);
  }

  lemma GridHolds(products: seq<Product>, weeks: seq<Date>, key: Key)
    ensures key in Grid(products, weeks) <==> InGrid(products, weeks, key)
  {
    var pairs := MapSeq(Filter(products, OwnsGrid), PairOf);
    OwningPairs(products, key);
    DedupeHolds(pairs);
    CrossHolds(Dedupe(pairs), weeks, key);
  }

  lemma HasEventByType(countable: seq<Countable>, key: Key)
    ensures HasEvent(countable, key) <==>
            || HasEvent(Filter(countable, OfType(Inbound)), key)
            || HasEvent(Filter(countable, OfType(Outbound)), key)
            || HasEvent(Filter(countable, OfType(Threshold)), key)
            || HasEvent(Filter(countable, OfType(Discrepancy)), key)
  {
    FilterHolds(countable, OfType(Inbound));
    FilterHolds(countable, OfType(Outbound));
    FilterHolds(countable, OfType(Threshold));
    FilterHolds(countable, OfType(Discrepancy));
  }

  // --- The rows ------------------------------------------------------------------------

  /** Specification of the rows: which exist, and what each says. */
  predicate IsRow(row: Record, countable: seq<Countable>, products: seq<Product>, weeks: seq<Date>) {
    && (InGrid(products, weeks, row.key) || HasEvent(countable, row.key))
    && row.figures == Aggregate(countable, row.key)
  }

  lemma RowsAreOrdered(rows: seq<Record>)
    requires DistinctKeys(rows)
    ensures TotalOn(Elements(rows), RowLeq)
  {
    forall a, b | a in Elements(rows) && b in Elements(rows)
      ensures RowLeq(a, b) || RowLeq(b, a)
      ensures RowLeq(a, b) && RowLeq(b, a) ==> a == b
    {
      TextLeqTotal(a.key.warehouse, b.key.warehouse);
      TextLeqTotal(a.key.clientId, b.key.clientId);
    }
    forall a, b, c | a in Elements(rows) && b in Elements(rows) && c in Elements(rows) && RowLeq(a, b) && RowLeq(b, c)
      ensures RowLeq(a, c)
    {
      RowLeqTransitive(a, b, c);
    }
  }

  lemma RowLeqTransitive(a: Record, b: Record, c: Record)
    requires RowLeq(a, b) && RowLeq(b, c)
    ensures RowLeq(a, c)
  {
    if a.key.weekStart == c.key.weekStart {
      TextLeqTotal(a.key.warehouse, b.key.warehouse);
      TextLeqTotal(b.key.warehouse, c.key.warehouse);
      TextLeqTransitive(a.key.warehouse, b.key.warehouse, c.key.warehouse);
      if a.key.warehouse == b.key.warehouse == c.key.warehouse {
        TextLeqTransitive(a.key.clientId, b.key.clientId, c.key.clientId);
      }
    }
  }

  /** The four frames of `countable`, when no KPI refuses. */
  ghost predicate AreTheFrames(
    countable: seq<Countable>, inbound: seq<Figure<int>>, outbound: seq<Figure<int>>, stockouts: seq<Figure<int>>,
    discrepancies: seq<Figure<DiscrepancyFigures>>)
  {
    && Inbounds(countable) == Success(inbound)
    && Outbounds(countable) == Success(outbound)
    && Stockouts(countable) == Success(stockouts)
    && Discrepancies(countable, outbound) == Success(discrepancies)
  }

  lemma RateKeys(found: seq<Figure<int>>, orders: seq<Figure<int>>)
    ensures var keys := Sort(Dedupe(KeysOf(found) + KeysOf(orders)), KeyLeq);
            forall k :: k in keys <==> k in KeysOf(found) || k in KeysOf(orders)
  {
    var both := KeysOf(found) + KeysOf(orders);
    DedupeHolds(both);
    KeysAreOrdered(Elements(Dedupe(both)));
    SortMembers(Dedupe(both), KeyLeq);
  }

  lemma FramesSucceed(countable: seq<Countable>)
    requires AllCountable(countable)
    ensures Outbounds(countable) == Success(CountPerKey(Filter(countable, OfType(Outbound))))
    ensures Stockouts(countable) == Success(CountPerKey(Filter(countable, OfType(Threshold))))
    ensures var events := Filter(countable, OfType(Inbound));
            Inbounds(countable) == Success(FrameOf(GroupKeys(events), SumIn(events, KeyOf, Amount)))
    ensures var found := CountPerKey(Filter(countable, OfType(Discrepancy)));
            var orders := CountPerKey(Filter(countable, OfType(Outbound)));
            Discrepancies(countable, orders)
              == Success(FrameOf(Sort(Dedupe(KeysOf(found) + KeysOf(orders)), KeyLeq), RateFigures(found, orders)))
  {
    EventsOfHolds(countable, Inbound, InboundVolume);
    EventsOfHolds(countable, Outbound, OutboundThroughput);
    EventsOfHolds(countable, Threshold, StockoutFrequency);
    EventsOfHolds(countable, Discrepancy, DiscrepancyRate);
    var inbound := Filter(countable, OfType(Inbound));
    FilterHolds(countable, OfType(Inbound));
    FilterIsEmptyIff(inbound, (c: Countable) => !IsUnitCount(c.quantity));
  }

  lemma DiscrepancyLookup(countable: seq<Countable>, key: Key)
    requires AllCountable(countable)
    ensures var orders := CountPerKey(Filter(countable, OfType(Outbound)));
            var count := Column(countable, Discrepancy, key);
            Discrepancies(countable, orders).Success?
            && Lookup(Discrepancies(countable, orders).value, key, DiscrepancyFigures(0, 0))
               == DiscrepancyFigures(count, Rate(count, Column(countable, Outbound, key)))
  {
    FramesSucceed(countable);
    var discrepancies, outbounds := Filter(countable, OfType(Discrepancy)), Filter(countable, OfType(Outbound));
    var found, orders := CountPerKey(discrepancies), CountPerKey(outbounds);
    var keys := Sort(Dedupe(KeysOf(found) + KeysOf(orders)), KeyLeq);
    FrameLookup(keys, RateFigures(found, orders), key, DiscrepancyFigures(0, 0));
    CountFrameLookup(countable, Discrepancy, key);
    CountFrameLookup(countable, Outbound, key);
    RateKeys(found, orders);
    GroupKeysHold(discrepancies);
    GroupKeysHold(outbounds);
    if key !in keys {
      EmptyColumn(countable, Discrepancy, key);
      EmptyColumn(countable, Outbound, key);
    }
  }

  /** Joining the four frames on one key gives the totals of that key's events. */
  lemma JoinedRowIsTheAggregate(
    countable: seq<Countable>, inbound: seq<Figure<int>>, outbound: seq<Figure<int>>, stockouts: seq<Figure<int>>,
    discrepancies: seq<Figure<DiscrepancyFigures>>, key: Key)
    requires AllCountable(countable) && AreTheFrames(countable, inbound, outbound, stockouts, discrepancies)
    ensures RowFor(inbound, outbound, stockouts, discrepancies)(key) == Record(key, Aggregate(countable, key))
  {
    FramesSucceed(countable);
    InboundFrameLookup(countable, key);
    CountFrameLookup(countable, Outbound, key);
    CountFrameLookup(countable, Threshold, key);
    DiscrepancyLookup(countable, key);
  }

  lemma FrameKeysHaveEvents(
    countable: seq<Countable>, inbound: seq<Figure<int>>, outbound: seq<Figure<int>>, stockouts: seq<Figure<int>>,
    discrepancies: seq<Figure<DiscrepancyFigures>>, key: Key)
    requires AllCountable(countable) && AreTheFrames(countable, inbound, outbound, stockouts, discrepancies)
    ensures HasEvent(countable, key) <==>
            || key in KeysOf(inbound) || key in KeysOf(outbound) || key in KeysOf(stockouts)
            || key in KeysOf(discrepancies)
  {
    FramesSucceed(countable);
    HasEventByType(countable, key);
    var ins, outs := Filter(countable, OfType(Inbound)), Filter(countable, OfType(Outbound));
    var crossings, found := Filter(countable, OfType(Threshold)), Filter(countable, OfType(Discrepancy));
    GroupKeysHold(ins);
    GroupKeysHold(outs);
    GroupKeysHold(crossings);
    GroupKeysHold(found);
    FrameKeys(GroupKeys(ins), SumIn(ins, KeyOf, Amount));
    FrameKeys(GroupKeys(outs), CountIn(outs, KeyOf));
    FrameKeys(GroupKeys(crossings), CountIn(crossings, KeyOf));
    FrameKeys(GroupKeys(found), CountIn(found, KeyOf));
    RateKeys(CountPerKey(found), outbound);
    FrameKeys(Sort(Dedupe(KeysOf(CountPerKey(found)) + KeysOf(outbound)), KeyLeq),
          RateFigures(CountPerKey(found), outbound));
  }

  /** Sorting the records of distinct keys keeps them all, in order. */
  lemma SortedRecords(keys: seq<Key>, rowFor: Key -> Record)
    requires NoDuplicates(keys) && (forall k :: rowFor(k).key == k)
    ensures var rows := Sort(MapSeq(keys, rowFor), RowLeq);
            && DistinctKeys(rows) && SortedBy(rows, RowLeq)
            && forall r :: r in rows <==> r.key in keys && r == rowFor(r.key)
  {
    var unsorted := MapSeq(keys, rowFor);
    RowsAreOrdered(unsorted);
    SortMembers(unsorted, RowLeq);
    var rows := Sort(unsorted, RowLeq);
    forall i, j | 0 <= i < j < |rows|
      ensures rows[i].key != rows[j].key
    {
      assert rows[i] in rows && rows[j] in rows;
    }
  }

  /**
   The rows are exactly the owning pairs for every week and the keys with a
   countable event, each once, in order, and each holds the totals of its events.
   */
  lemma RowsAreTheAggregates(countable: seq<Countable>, products: seq<Product>, weeks: seq<Date>)
    requires AllCountable(countable)
    ensures var rows := RowsOf(countable, products, weeks);
            && rows.Success?
            && DistinctKeys(rows.value) && SortedBy(rows.value, RowLeq)
            && forall r :: r in rows.value <==> IsRow(r, countable, products, weeks)
  {
    FramesSucceed(countable);
    var inbound, outbound := Inbounds(countable).value, Outbounds(countable).value;
    var stockouts, discrepancies := Stockouts(countable).value, Discrepancies(countable, outbound).value;
    var rowFor := RowFor(inbound, outbound, stockouts, discrepancies);
    var all := Grid(products, weeks) + KeysOf(inbound) + KeysOf(outbound) + KeysOf(stockouts) + KeysOf(discrepancies);
    DedupeHolds(all);
    SortedRecords(Dedupe(all), rowFor);
    forall r: Record
      ensures r.key in all && r == rowFor(r.key) <==> IsRow(r, countable, products, weeks)
    {
      GridHolds(products, weeks, r.key);
      FrameKeysHaveEvents(countable, inbound, outbound, stockouts, discrepancies, r.key);
      JoinedRowIsTheAggregate(countable, inbound, outbound, stockouts, discrepancies, r.key);
    }
  }

  /** Two sorted lists of the same rows are the same list. */
  lemma SameRowsSameList(a: seq<Record>, b: seq<Record>)
    requires DistinctKeys(a) && DistinctKeys(b) && SortedBy(a, RowLeq) && SortedBy(b, RowLeq)
    requires forall r :: r in a <==> r in b
    ensures a == b
  {
    DistinctPermutes(a, b);
    RowsAreOrdered(a);
    SortedIsUnique(a, b, Elements(a), RowLeq);
  }
}

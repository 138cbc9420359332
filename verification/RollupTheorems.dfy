/**
 Properties of the whole transform (`build_rollup`, data/process/weekly_rollup.py):
 order independence, exact row keys, conservation, and week-by-week rebuilding.
 */
module RollupTheorems {
  import opened Common
  import opened Sequences
  import opened Weeks
  import opened WeeklyLoad
  import opened RollupEvents
  import opened RollupPrepare
  import opened RollupFacts
  import opened RollupFigures
  import opened RollupRows
  import opened RollupValidation

  function CountableEvents(events: seq<RawEvent>, products: seq<Product>, weeks: seq<Date>): seq<Countable> {
    PrepareEvents(events, products, weeks).countable
  }

  lemma ScreenedAreCountable(events: seq<RawEvent>, products: seq<Product>, weeks: seq<Date>)
    ensures AllCountable(CountableEvents(events, products, weeks))
  {
    CountableAreScreened(events, products, weeks);
  }

  /**
   The rows of a rollup: the pairs owning products, for every week, together with
   the keys of the countable events; each once; zero exactly without events.
   */
  lemma RowsCoverExactly(events: seq<RawEvent>, products: seq<Product>, weeks: seq<Date>)
    ensures var rollup := BuildRollup(events, products, weeks);
            var countable := CountableEvents(events, products, weeks);
            && rollup.Success?
            && DistinctKeys(rollup.value.rows) && SortedBy(rollup.value.rows, RowLeq)
            && (forall k: Key :: (exists r :: r in rollup.value.rows && r.key == k) <==>
                  InGrid(products, weeks, k) || HasEvent(countable, k))
            && (forall r :: r in rollup.value.rows ==>
                  && r.figures == Aggregate(countable, r.key)
                  && (r.figures == Figures(0, 0, 0, 0, 0) <==> !HasEvent(countable, r.key)))
  {
    var countable := CountableEvents(events, products, weeks);
    ScreenedAreCountable(events, products, weeks);
    RowsAreTheAggregates(countable, products, weeks);
    var rows := RowsOf(countable, products, weeks).value;
    forall k: Key | InGrid(products, weeks, k) || HasEvent(countable, k)
      ensures exists r :: r in rows && r.key == k
    {
      assert IsRow(Record(k, Aggregate(countable, k)), countable, products, weeks);
      assert Record(k, Aggregate(countable, k)) in rows;
    }
    forall r | r in rows
      ensures r.figures == Figures(0, 0, 0, 0, 0) <==> !HasEvent(countable, r.key)
    {
      ZeroRowIff(countable, r.key);
    }
  }

  // --- Order independence --------------------------------------------------------------

  lemma SameMembers<T>(a: seq<T>, b: seq<T>)
    requires multiset(a) == multiset(b)
    ensures forall x :: x in a <==> x in b
  {
    assert forall x :: x in b <==> x in multiset(b);
  }

  lemma AggregatePermutes(a: seq<Countable>, b: seq<Countable>, key: Key)
    requires multiset(a) == multiset(b)
    ensures Aggregate(a, key) == Aggregate(b, key)
    ensures HasEvent(a, key) <==> HasEvent(b, key)
  {
    SumPermutes(a, b, Where(Feeds(Inbound, key), Amount));
    SumPermutes(a, b, Where(Feeds(Outbound, key), Amount));
    SumPermutes(a, b, Where(Feeds(Threshold, key), Amount));
    SumPermutes(a, b, Where(Feeds(Discrepancy, key), Amount));
    SameMembers(a, b);
  }

  lemma RowsPermute(a: seq<Countable>, b: seq<Countable>, products: seq<Product>, weeks: seq<Date>)
    requires multiset(a) == multiset(b) && AllCountable(a)
    ensures RowsOf(a, products, weeks) == RowsOf(b, products, weeks)
  {
    SameMembers(a, b);
    RowsAreTheAggregates(a, products, weeks);
    RowsAreTheAggregates(b, products, weeks);
    forall r: Record
      ensures IsRow(r, a, products, weeks) <==> IsRow(r, b, products, weeks)
    {
      AggregatePermutes(a, b, r.key);
    }
    SameRowsSameList(RowsOf(a, products, weeks).value, RowsOf(b, products, weeks).value);
  }

  /**
   The rollup does not depend on the order the events arrive in: the same rows,
   the same exclusions and the same counts for every permutation.
   */
  lemma RollupIgnoresOrder(a: seq<RawEvent>, b: seq<RawEvent>, products: seq<Product>, weeks: seq<Date>)
    requires DistinctRawIds(a) && multiset(a) == multiset(b)
    ensures var ra, rb := BuildRollup(a, products, weeks), BuildRollup(b, products, weeks);
            && ra.Success? && rb.Success?
            && ra.value.rows == rb.value.rows
            && multiset(ra.value.exclusions) == multiset(rb.value.exclusions)
            && ra.value.eventsRead == rb.value.eventsRead
  {
    PreparedPermutes(a, b, products, weeks);
    ScreenedAreCountable(a, products, weeks);
    RowsPermute(CountableEvents(a, products, weeks), CountableEvents(b, products, weeks), products, weeks);
    RowsAreTheAggregates(CountableEvents(a, products, weeks), products, weeks);
    assert |multiset(a)| == |a| && |multiset(b)| == |b|;
  }

  // --- Conservation --------------------------------------------------------------------

  function Published(t: EventType): Record -> int {
    (r: Record) => match t
         case Inbound => r.figures.inboundUnits
         case Outbound => r.figures.outboundOrders
         case Threshold => r.figures.stockouts
         case Discrepancy => r.figures.discrepancies
  }

  function RecordKey(r: Record): Key { r.key }

  function AmountOf(t: EventType): Countable -> int {
    (c: Countable) => if c.eventType == t then Amount(c) else 0
  }

  function RowSelected(chosen: Key -> bool): Record -> bool { (r: Record) => chosen(r.key) }

  function CountableUnder(chosen: Key -> bool): Countable -> bool { c => chosen(KeyOf(c)) }

  lemma ColumnUnder(countable: seq<Countable>, t: EventType, chosen: Key -> bool, key: Key)
    ensures SumIn(countable, KeyOf, Where(CountableUnder(chosen), AmountOf(t)))(key)
         == if chosen(key) then Column(countable, t, key) else 0
  {
    var grouped := Where(InGroup(KeyOf, key), Where(CountableUnder(chosen), AmountOf(t)));
    if chosen(key) {
      SumSame(countable, grouped, Where(Feeds(t, key), Amount));
    } else {
      SumSame(countable, grouped, Zero());
      SumZero(countable);
    }
  }

  lemma EveryEventHasARow(countable: seq<Countable>, products: seq<Product>, weeks: seq<Date>, c: Countable)
    requires AllCountable(countable) && c in countable
    ensures RowsOf(countable, products, weeks).Success?
    ensures KeyOf(c) in MapSeq(RowsOf(countable, products, weeks).value, RecordKey)
  {
    RowsAreTheAggregates(countable, products, weeks);
    var rows := RowsOf(countable, products, weeks).value;
    var row := Record(KeyOf(c), Aggregate(countable, KeyOf(c)));
    assert IsRow(row, countable, products, weeks);
  }

  /**
   Nothing is lost or counted twice between the events and the report: over any
   choice of keys, a KPI column adds up to the total of the countable events there.
   */
  lemma ColumnsAddUp(
    countable: seq<Countable>, products: seq<Product>, weeks: seq<Date>, t: EventType, chosen: Key -> bool)
    requires AllCountable(countable)
    ensures RowsOf(countable, products, weeks).Success?
    ensures SumOf(RowsOf(countable, products, weeks).value, Where(RowSelected(chosen), Published(t)))
         == SumOf(countable, Where(CountableUnder(chosen), AmountOf(t)))
  {
    RowsAreTheAggregates(countable, products, weeks);
    var rows := RowsOf(countable, products, weeks).value;
    var keys := MapSeq(rows, RecordKey);
    var value: Countable -> int := Where(CountableUnder(chosen), AmountOf(t));
    SumByGroup(countable, keys, KeyOf, value);
    SumOfMapped(rows, RecordKey, SumIn(countable, KeyOf, value));
    forall r | r in rows
      ensures Where(RowSelected(chosen), Published(t))(r) == After(RecordKey, SumIn(countable, KeyOf, value))(r)
    {
      ColumnUnder(countable, t, chosen, r.key);
    }
    SumSame(rows, Where(RowSelected(chosen), Published(t)), After(RecordKey, SumIn(countable, KeyOf, value)));
    forall c | c in countable
      ensures KeyOf(c) in keys
    {
      EveryEventHasARow(countable, products, weeks, c);
    }
    SumSame(countable, value, Where(InGroups(KeyOf, keys), value));
  }

  // --- Rebuilding week by week ---------------------------------------------------------

  function InWeek(week: Date): Record -> bool { (r: Record) => r.key.weekStart == week }

  function RowsFor(events: seq<RawEvent>, products: seq<Product>, weeks: seq<Date>): seq<Record> {
    var rows := RowsOf(CountableEvents(events, products, weeks), products, weeks);
    if rows.Success? then rows.value else []
  }

  /** No valid report of one business fact falls in two of the weeks. */
  ghost predicate KeysStayInTheirWeek(events: seq<Event>, weeks: seq<Date>) {
    forall a, b ::
      (a in ValidEvents(events, weeks) && b in ValidEvents(events, weeks) && BusinessKey(a) == BusinessKey(b))
                   ==> a.week == b.week
  }

  /** What one event adds to a KPI under a key when `reasonOf` decides what counts. */
  function Contribution(reasonOf: Reasoning, t: EventType, key: Key): Event -> int {
    Where(Unexcluded(reasonOf), After(CountableOf, Where(Feeds(t, key), Amount)))
  }

  lemma ColumnOfEvents(normalized: seq<Event>, reasonOf: Reasoning, t: EventType, key: Key)
    ensures Column(MapSeq(Counted(normalized, reasonOf), CountableOf), t, key)
         == SumOf(normalized, Contribution(reasonOf, t, key))
  {
    var counted := Counted(normalized, reasonOf);
    SumOfMapped(counted, CountableOf, Where(Feeds(t, key), Amount));
    SumOverFilter(normalized, Unexcluded(reasonOf), After(CountableOf, Where(Feeds(t, key), Amount)));
  }

  lemma ValidEventsHold(events: seq<Event>, weeks: seq<Date>)
    ensures forall e :: e in ValidEvents(events, weeks) <==> e in events && FirstReason(e, weeks).None?
    ensures DistinctIds(events) ==> DistinctIds(ValidEvents(events, weeks))
  {
    FilterHolds(events, Unexcluded(Screening(weeks)));
    if DistinctIds(events) {
      FilterKeepsDistinctIds(events, Unexcluded(Screening(weeks)));
    }
  }

  /** An event counts: it is valid and no better report of its fact is. */
  lemma CountsIff(events: seq<Event>, weeks: seq<Date>, e: Event)
    requires DistinctIds(events) && e in events
    ensures FinalReason(events, weeks)(e).None? <==>
            && FirstReason(e, weeks).None?
            && forall o :: o in ValidEvents(events, weeks) ==> !IsBetterReport(o, e)
  {
    ValidEventsHold(events, weeks);
    if FirstReason(e, weeks).None? {
      BetterReportIff(ValidEvents(events, weeks), e);
    }
  }

  /** An event counted over several weeks also counts in its own week alone. */
  lemma CountsAloneToo(events: seq<Event>, weeks: seq<Date>, week: Date, e: Event)
    requires DistinctIds(events) && e in events && week in weeks && e.week == week
    requires FinalReason(events, weeks)(e).None?
    ensures FinalReason(events, [week])(e).None?
  {
    CountsIff(events, weeks, e);
    CountsIff(events, [week], e);
    ValidEventsHold(events, weeks);
    ValidEventsHold(events, [week]);
  }

  lemma CountedTogetherToo(events: seq<Event>, weeks: seq<Date>, week: Date, e: Event)
    requires DistinctIds(events) && e in events && week in weeks
    requires KeysStayInTheirWeek(events, weeks)
    requires FinalReason(events, [week])(e).None?
    ensures FinalReason(events, weeks)(e).None? && e.week == week
  {
    CountsIff(events, weeks, e);
    CountsIff(events, [week], e);
    ValidEventsHold(events, weeks);
    ValidEventsHold(events, [week]);
  }

  lemma SameColumnAlone(events: seq<Event>, weeks: seq<Date>, week: Date, t: EventType, key: Key)
    requires DistinctIds(events) && week in weeks && key.weekStart == week
    requires KeysStayInTheirWeek(events, weeks)
    ensures SumOf(events, Contribution(FinalReason(events, weeks), t, key))
         == SumOf(events, Contribution(FinalReason(events, [week]), t, key))
  {
    var together, alone := FinalReason(events, weeks), FinalReason(events, [week]);
    forall e | e in events
      ensures Contribution(together, t, key)(e) == Contribution(alone, t, key)(e)
    {
      assert KeyOf(CountableOf(e)).weekStart == e.week;
      if alone(e).None? {
        CountedTogetherToo(events, weeks, week, e);
      } else if e.week == week && together(e).None? {
        CountsAloneToo(events, weeks, week, e);
      }
    }
    SumSame(events, Contribution(together, t, key), Contribution(alone, t, key));
  }

  lemma HasEventIff(events: seq<Event>, reasonOf: Reasoning, key: Key)
    ensures HasEvent(MapSeq(Counted(events, reasonOf), CountableOf), key) <==>
            exists e :: e in events && reasonOf(e).None? && KeyOf(CountableOf(e)) == key
  {
    var counted := Counted(events, reasonOf);
    FilterHolds(events, Unexcluded(reasonOf));
    if e :| e in events && reasonOf(e).None? && KeyOf(CountableOf(e)) == key {
      var i :| 0 <= i < |counted| && counted[i] == e;
    }
  }

  lemma SameEventsAlone(events: seq<Event>, weeks: seq<Date>, week: Date, key: Key)
    requires DistinctIds(events) && week in weeks && key.weekStart == week
    requires KeysStayInTheirWeek(events, weeks)
    ensures HasEvent(MapSeq(Counted(events, FinalReason(events, weeks)), CountableOf), key)
       <==> HasEvent(MapSeq(Counted(events, FinalReason(events, [week])), CountableOf), key)
  {
    var together, alone := FinalReason(events, weeks), FinalReason(events, [week]);
    HasEventIff(events, together, key);
    HasEventIff(events, alone, key);
    forall e | e in events && KeyOf(CountableOf(e)) == key
      ensures together(e).None? <==> alone(e).None?
    {
      if alone(e).None? {
        CountedTogetherToo(events, weeks, week, e);
      } else if together(e).None? {
        CountsAloneToo(events, weeks, week, e);
      }
    }
  }

  lemma {:induction false} FilterKeepsSorted(rows: seq<Record>, p: Record -> bool)
    requires DistinctKeys(rows) && SortedBy(rows, RowLeq)
    ensures DistinctKeys(Filter(rows, p)) && SortedBy(Filter(rows, p), RowLeq)
  {
    if rows != [] {
      FilterKeepsSorted(rows[1..], p);
      FilterHolds(rows[1..], p);
      forall r | r in rows[1..]
        ensures RowLeq(rows[0], r) && r.key != rows[0].key
      {
        var i :| 0 <= i < |rows[1..]| && rows[1..][i] == r;
      }
    }
  }

  lemma RowsForHold(events: seq<RawEvent>, products: seq<Product>, weeks: seq<Date>)
    ensures DistinctKeys(RowsFor(events, products, weeks)) && SortedBy(RowsFor(events, products, weeks), RowLeq)
    ensures forall r :: r in RowsFor(events, products, weeks) <==>
                        IsRow(r, CountableEvents(events, products, weeks), products, weeks)
    ensures BuildRollup(events, products, weeks).Success?
    ensures BuildRollup(events, products, weeks).value.rows == RowsFor(events, products, weeks)
  {
    ScreenedAreCountable(events, products, weeks);
    RowsAreTheAggregates(CountableEvents(events, products, weeks), products, weeks);
  }

  lemma SameAggregateAlone(
    events: seq<RawEvent>, products: seq<Product>, weeks: seq<Date>, week: Date, key: Key)
    requires DistinctRawIds(events) && week in weeks && key.weekStart == week
    requires KeysStayInTheirWeek(Normalized(events, products), weeks)
    ensures Aggregate(CountableEvents(events, products, weeks), key)
         == Aggregate(CountableEvents(events, products, [week]), key)
    ensures HasEvent(CountableEvents(events, products, weeks), key)
       <==> HasEvent(CountableEvents(events, products, [week]), key)
  {
    var normalized := Normalized(events, products);
    NormalizedKeepsIds(events, products);
    SameEventsAlone(normalized, weeks, week, key);
    forall t: EventType
      ensures Column(CountableEvents(events, products, weeks), t, key)
           == Column(CountableEvents(events, products, [week]), t, key)
    {
      ColumnOfEvents(normalized, FinalReason(normalized, weeks), t, key);
      ColumnOfEvents(normalized, FinalReason(normalized, [week]), t, key);
      SameColumnAlone(normalized, weeks, week, t, key);
    }
  }

  lemma EventsAreInTheirWeeks(events: seq<RawEvent>, products: seq<Product>, weeks: seq<Date>, key: Key)
    requires HasEvent(CountableEvents(events, products, weeks), key)
    ensures key.weekStart in weeks
  {
    CountableAreScreened(events, products, weeks);
  }

  /** When no business key is reported in two weeks, each week can be rebuilt alone. */
  lemma EachWeekAlone(events: seq<RawEvent>, products: seq<Product>, weeks: seq<Date>, week: Date)
    requires DistinctRawIds(events) && week in weeks
    requires KeysStayInTheirWeek(Normalized(events, products), weeks)
    ensures Filter(RowsFor(events, products, weeks), InWeek(week)) == RowsFor(events, products, [week])
  {
    RowsForHold(events, products, weeks);
    RowsForHold(events, products, [week]);
    var together, alone := RowsFor(events, products, weeks), RowsFor(events, products, [week]);
    FilterKeepsSorted(together, InWeek(week));
    FilterHolds(together, InWeek(week));
    forall r: Record
      ensures r in Filter(together, InWeek(week)) <==> r in alone
    {
      if r.key.weekStart == week {
        SameAggregateAlone(events, products, weeks, week, r.key);
      } else if r in alone && HasEvent(CountableEvents(events, products, [week]), r.key) {
        EventsAreInTheirWeeks(events, products, [week], r.key);
      }
    }
    SameRowsSameList(Filter(together, InWeek(week)), alone);
  }

  // --- and only then -------------------------------------------------------------------

  lemma {:induction false} SumGrows<T>(s: seq<T>, f: T -> int, g: T -> int, at: T)
    requires forall x :: x in s ==> f(x) <= g(x)
    ensures SumOf(s, f) <= SumOf(s, g)
    ensures at in s && f(at) < g(at) ==> SumOf(s, f) < SumOf(s, g)
  {
    if s != [] {
      SumGrows(s[1..], f, g, at);
    }
  }

  /** A single week asks the same of its events as any window that includes it. */
  lemma ValidInItsWeekIff(e: Event, weeks: seq<Date>, week: Date)
    requires week in weeks
    ensures FirstReason(e, [week]).None? <==> FirstReason(e, weeks).None? && e.week == week
  {
    if FirstReason(e, [week]).None? {
      PassesEveryCheck(e, [week]);
      assert !Fails(OutsideWindow, e, [week]);
      forall i | 0 <= i < |CHECKS|
        ensures !Fails(CHECKS[i], e, weeks)
      {
        assert !Fails(CHECKS[i], e, [week]);
      }
    }
    if FirstReason(e, weeks).None? && e.week == week {
      PassesEveryCheck(e, weeks);
      forall i | 0 <= i < |CHECKS|
        ensures !Fails(CHECKS[i], e, [week])
      {
        assert !Fails(CHECKS[i], e, weeks);
      }
    }
  }

  /** A fact reported in two weeks has a report that counts alone and not together. */
  lemma CountedOnlyAlone(events: seq<Event>, weeks: seq<Date>, a: Event, b: Event) returns (lost: Event)
    requires DistinctIds(events) && a in ValidEvents(events, weeks) && b in ValidEvents(events, weeks)
    requires BusinessKey(a) == BusinessKey(b) && a.week != b.week
    ensures lost in events && lost.week in weeks
    ensures FinalReason(events, weeks)(lost).Some? && FinalReason(events, [lost.week])(lost).None?
  {
    ValidEventsHold(events, weeks);
    var valid := ValidEvents(events, weeks);
    var winner := OneSurvivorPerKey(valid, BusinessKey(a));
    var other := if a.week == winner.week then b else a;
    PassesEveryCheck(other, weeks);
    assert !Fails(OutsideWindow, other, weeks);
    var week := other.week;
    ValidEventsHold(events, [week]);
    ValidInItsWeekIff(other, weeks, week);
    lost := OneSurvivorPerKey(ValidEvents(events, [week]), BusinessKey(a));
    ValidInItsWeekIff(lost, weeks, week);
    assert lost != winner;
    assert IsSuperseded(valid, lost);
  }

  lemma LostEventShrinksItsColumn(events: seq<Event>, weeks: seq<Date>, lost: Event)
    requires DistinctIds(events) && lost in events && lost.week in weeks
    requires FinalReason(events, weeks)(lost).Some? && FinalReason(events, [lost.week])(lost).None?
    ensures var t, key := lost.eventType, KeyOf(CountableOf(lost));
            SumOf(events, Contribution(FinalReason(events, weeks), t, key))
              < SumOf(events, Contribution(FinalReason(events, [lost.week]), t, key))
  {
    var week := lost.week;
    var together, alone := FinalReason(events, weeks), FinalReason(events, [week]);
    var t, key := lost.eventType, KeyOf(CountableOf(lost));
    forall e | e in events
      ensures Contribution(together, t, key)(e) <= Contribution(alone, t, key)(e)
    {
      assert KeyOf(CountableOf(e)).weekStart == e.week;
      if alone(e).None? {
        CountsPositively(events, [week], e);
      } else if e.week == week && together(e).None? {
        CountsAloneToo(events, weeks, week, e);
      }
    }
    CountsPositively(events, [week], lost);
    SumGrows(events, Contribution(together, t, key), Contribution(alone, t, key), lost);
  }

  lemma CountsPositively(events: seq<Event>, weeks: seq<Date>, e: Event)
    requires FinalReason(events, weeks)(e).None?
    ensures Amount(CountableOf(e)) >= 1
  {
    PassesEveryCheck(e, weeks);
    assert !Fails(InvalidQuantity, e, weeks);
  }

  lemma LostEventChangesItsAggregate(
    events: seq<RawEvent>, products: seq<Product>, weeks: seq<Date>, lost: Event, key: Key)
    requires DistinctRawIds(events)
    requires lost in Normalized(events, products) && lost.week in weeks && key == KeyOf(CountableOf(lost))
    requires FinalReason(Normalized(events, products), weeks)(lost).Some?
    requires FinalReason(Normalized(events, products), [lost.week])(lost).None?
    ensures HasEvent(CountableEvents(events, products, [lost.week]), key)
    ensures Aggregate(CountableEvents(events, products, weeks), key)
         != Aggregate(CountableEvents(events, products, [lost.week]), key)
  {
    var normalized, week, t := Normalized(events, products), lost.week, lost.eventType;
    NormalizedKeepsIds(events, products);
    LostEventShrinksItsColumn(normalized, weeks, lost);
    ColumnOfEvents(normalized, FinalReason(normalized, weeks), t, key);
    ColumnOfEvents(normalized, FinalReason(normalized, [week]), t, key);
    HasEventIff(normalized, FinalReason(normalized, [week]), key);
    assert Column(CountableEvents(events, products, weeks), t, key)
         < Column(CountableEvents(events, products, [week]), t, key);
  }

  lemma RowsDifferWhenAnAggregateDoes(
    events: seq<RawEvent>, products: seq<Product>, weeks: seq<Date>, week: Date, key: Key)
    requires key.weekStart == week && HasEvent(CountableEvents(events, products, [week]), key)
    requires Aggregate(CountableEvents(events, products, weeks), key)
          != Aggregate(CountableEvents(events, products, [week]), key)
    ensures Filter(RowsFor(events, products, weeks), InWeek(week)) != RowsFor(events, products, [week])
  {
    RowsForHold(events, products, weeks);
    RowsForHold(events, products, [week]);
    FilterHolds(RowsFor(events, products, weeks), InWeek(week));
    var alone := CountableEvents(events, products, [week]);
    var row := Record(key, Aggregate(alone, key));
    assert row in RowsFor(events, products, [week]);
  }

  /**
   Rebuilding several weeks in one run gives, week by week, the rows of each week
   rebuilt alone, exactly when no valid business key is reported in two of the
   weeks: a duplicate is dropped across the whole window of a run, not per week.
   */
  lemma WeeksRebuildAloneIff(events: seq<RawEvent>, products: seq<Product>, weeks: seq<Date>)
    requires DistinctRawIds(events)
    ensures (forall week :: week in weeks ==>
               Filter(RowsFor(events, products, weeks), InWeek(week)) == RowsFor(events, products, [week]))
       <==> KeysStayInTheirWeek(Normalized(events, products), weeks)
  {
    var normalized := Normalized(events, products);
    if KeysStayInTheirWeek(normalized, weeks) {
      forall week | week in weeks
        ensures Filter(RowsFor(events, products, weeks), InWeek(week)) == RowsFor(events, products, [week])
      {
        EachWeekAlone(events, products, weeks, week);
      }
    } else {
      var a, b :| a in ValidEvents(normalized, weeks) && b in ValidEvents(normalized, weeks)
                  && BusinessKey(a) == BusinessKey(b) && a.week != b.week;
      NormalizedKeepsIds(events, products);
      var lost := CountedOnlyAlone(normalized, weeks, a, b);
      LostEventChangesItsAggregate(events, products, weeks, lost, KeyOf(CountableOf(lost)));
      RowsDifferWhenAnAggregateDoes(events, products, weeks, lost.week, KeyOf(CountableOf(lost)));
    }
  }

  // --- An order reported in two weeks --------------------------------------------------

  function OrderReport(id: string, day: Date): RawEvent {
    RawEvent(id, Midnight(day), Midnight(day), Outbound, Some("Zaragoza"), Some("acme"), None, None, Some("o-1"),
             None, None, None)
  }

  function NormalReport(id: string, day: Date): Event {
    Event(id, Midnight(day), Midnight(day), Midnight(day), day, Outbound, Some("Zaragoza"), Some("acme"), None, None,
          Some("o-1"), None, None, None)
  }

  lemma ReportNormalizes(id: string, day: Date)
    requires IsMonday(day)
    ensures Normalizer([])(OrderReport(id, day)) == NormalReport(id, day)
  {
    CleanIsTrimmed(Some("Zaragoza"));
    CleanIsTrimmed(Some("acme"));
    CleanIsTrimmed(Some("o-1"));
    assert IsClientId("acme");
  }

  lemma ReportIsValid(id: string, day: Date, weeks: seq<Date>)
    requires day in weeks
    ensures FirstReason(NormalReport(id, day), weeks).None?
  {
    assert forall check :: !Fails(check, NormalReport(id, day), weeks);
  }

  lemma KeyIsReportedTwice(events: seq<Event>, weeks: seq<Date>, a: Event, b: Event)
    requires a in events && b in events && BusinessKey(a) == BusinessKey(b) && a.week != b.week
    requires FirstReason(a, weeks).None? && FirstReason(b, weeks).None?
    ensures !KeysStayInTheirWeek(events, weeks)
  {
    ValidEventsHold(events, weeks);
  }

  lemma TwoReportsNormalize(events: seq<RawEvent>)
    requires events == [OrderReport("a", 7), OrderReport("b", 14)]
    ensures DistinctRawIds(events)
    ensures Normalized(events, []) == [NormalReport("a", 7), NormalReport("b", 14)]
  {
    ReportNormalizes("a", 7);
    ReportNormalizes("b", 14);
    assert events[0].id != events[1].id;
  }

  /** The exception is real: the second report is counted only when its week is rebuilt alone. */
  lemma AnOrderReportedInTwoWeeks(events: seq<RawEvent>)
    requires events == [OrderReport("a", 7), OrderReport("b", 14)]
    ensures var weeks := [7, 14];
            && DistinctRawIds(events)
            && exists week :: week in weeks
                              && Filter(RowsFor(events, [], weeks), InWeek(week)) != RowsFor(events, [], [week])
  {
    var weeks := [7, 14];
    TwoReportsNormalize(events);
    ReportIsValid("a", 7, weeks);
    ReportIsValid("b", 14, weeks);
    KeyIsReportedTwice(Normalized(events, []), weeks, NormalReport("a", 7), NormalReport("b", 14));
    WeeksRebuildAloneIff(events, [], weeks);
  }
}

/**
 `prepare_events` (data/process/weekly_rollup.py): every event is countable or
 excluded with one reason, whatever order the events arrive in.
 */
module RollupPrepare {
  import opened Common
  import opened Sequences
  import opened Weeks
  import opened RollupEvents

  type Reasoning = Event -> Option<Reason>

  const REASONS: seq<Reason> :=
    [UnknownWarehouse, InvalidQuantity, MissingClientId, UnknownThresholdBand, OutsideWindow, DuplicateBusinessKey]

  function Unexcluded(reasonOf: Reasoning): Event -> bool { e => reasonOf(e).None? }

  function Excluded(reasonOf: Reasoning): Event -> bool { e => reasonOf(e).Some? }

  function ExcludedFor(reasonOf: Reasoning, reason: Reason): Event -> bool { e => reasonOf(e) == Some(reason) }

  function CountableOf(e: Event): Countable {
    Countable(e.eventType, e.warehouse, e.clientId, e.week, e.quantity)
  }

  function ExclusionOf(reasonOf: Reasoning): Event -> Exclusion {
    (e: Event) => Exclusion(e.id, if reasonOf(e).Some? then reasonOf(e).value else DuplicateBusinessKey)
  }

  function Counted(events: seq<Event>, reasonOf: Reasoning): seq<Event> {
    Filter(events, Unexcluded(reasonOf))
  }

  function ExclusionsOf(events: seq<Event>, reasonOf: Reasoning): seq<Exclusion> {
    MapSeq(Filter(events, Excluded(reasonOf)), ExclusionOf(reasonOf))
  }

  function Screening(weeks: seq<Date>): Reasoning { e => FirstReason(e, weeks) }

  /** The events that fail no check, among which duplicates are looked for. */
  function ValidEvents(normalized: seq<Event>, weeks: seq<Date>): seq<Event> {
    Counted(normalized, Screening(weeks))
  }

  /** The reason each event ends with: its first failed check, else a duplicate. */
  function FinalReason(normalized: seq<Event>, weeks: seq<Date>): Reasoning {
    e =>
      var first := FirstReason(e, weeks);
      if first.Some? then first
      else if IsSuperseded(ValidEvents(normalized, weeks), e) then Some(DuplicateBusinessKey)
      else None
  }

  function PrepareEvents(events: seq<RawEvent>, products: seq<Product>, weeks: seq<Date>): PreparedEvents {
    var normalized := Normalized(events, products);
    var reasonOf := FinalReason(normalized, weeks);
    PreparedEvents(
      MapSeq(Counted(normalized, reasonOf), CountableOf),
      ExclusionsOf(normalized, reasonOf),
      |normalized|,
      map r | r in REASONS :: |Filter(normalized, ExcludedFor(reasonOf, r))|)
  }

  lemma CountedGrows(events: seq<Event>, i: nat, reasonOf: Reasoning)
    requires i < |events|
    ensures Counted(events[..i + 1], reasonOf)
         == Counted(events[..i], reasonOf) + if reasonOf(events[i]).None? then [events[i]] else []
  {
    assert events[..i + 1] == events[..i] + [events[i]];
    FilterAppends(events[..i], [events[i]], Unexcluded(reasonOf));
  }

  lemma MappedCountedGrows(events: seq<Event>, i: nat, reasonOf: Reasoning)
    requires i < |events|
    ensures MapSeq(Counted(events[..i + 1], reasonOf), CountableOf)
         == MapSeq(Counted(events[..i], reasonOf), CountableOf)
            + if reasonOf(events[i]).None? then [CountableOf(events[i])] else []
  {
    CountedGrows(events, i, reasonOf);
  }

  lemma ExclusionsGrow(events: seq<Event>, i: nat, reasonOf: Reasoning)
    requires i < |events|
    ensures ExclusionsOf(events[..i + 1], reasonOf)
         == ExclusionsOf(events[..i], reasonOf)
            + if reasonOf(events[i]).Some? then [ExclusionOf(reasonOf)(events[i])] else []
  {
    assert events[..i + 1] == events[..i] + [events[i]];
    FilterAppends(events[..i], [events[i]], Excluded(reasonOf));
  }

  /** The rows no check has excluded. */
  method SelectValid(frame: seq<Event>, reasons: seq<Option<Reason>>, weeks: seq<Date>) returns (valid: seq<Event>)
    requires |reasons| == |frame| && forall j :: 0 <= j < |frame| ==> reasons[j] == FirstReason(frame[j], weeks)
    ensures valid == ValidEvents(frame, weeks)
  {
    valid := [];
    for i := 0 to |frame|
      invariant valid == Counted(frame[..i], Screening(weeks))
    {
      CountedGrows(frame, i, Screening(weeks));
      if reasons[i].None? {
        valid := valid + [frame[i]];
      }
    }
    assert frame[..|frame|] == frame;
  }

  predicate IsDuplicate(valid: seq<Event>, e: Event, first: Option<Reason>) {
    first.None? && IsSuperseded(valid, e)
  }

  /** The column of reasons: the checks first, then the duplicates among the events that fail none. */
  method FinalReasons(frame: seq<Event>, weeks: seq<Date>) returns (reasons: seq<Option<Reason>>)
    ensures |reasons| == |frame|
    ensures forall j :: 0 <= j < |frame| ==> reasons[j] == FinalReason(frame, weeks)(frame[j])
  {
    var first := ExclusionReasons(frame, weeks);
    var valid := SelectValid(frame, first, weeks);
    reasons := seq(|frame|, i requires 0 <= i < |frame| && |first| == |frame| =>
      if IsDuplicate(valid, frame[i], first[i]) then Some(DuplicateBusinessKey) else first[i]);
    forall j | 0 <= j < |frame|
      ensures reasons[j] == FinalReason(frame, weeks)(frame[j])
    {
    }
  }

  /** Every row of the frame becomes a countable event or an exclusion. */
  method SplitByReason(frame: seq<Event>, reasons: seq<Option<Reason>>, ghost reasonOf: Reasoning)
    returns (countable: seq<Countable>, exclusions: seq<Exclusion>)
    requires |reasons| == |frame| && forall j :: 0 <= j < |frame| ==> reasons[j] == reasonOf(frame[j])
    ensures countable == MapSeq(Counted(frame, reasonOf), CountableOf)
    ensures exclusions == ExclusionsOf(frame, reasonOf)
  {
    countable, exclusions := [], [];
    for i := 0 to |frame|
      invariant countable == MapSeq(Counted(frame[..i], reasonOf), CountableOf)
      invariant exclusions == ExclusionsOf(frame[..i], reasonOf)
    {
      MappedCountedGrows(frame, i, reasonOf);
      ExclusionsGrow(frame, i, reasonOf);
      if reasons[i].None? {
        countable := countable + [CountableOf(frame[i])];
      } else {
        exclusions := exclusions + [Exclusion(frame[i].id, reasons[i].value)];
      }
    }
    assert frame[..|frame|] == frame;
  }

  /** `prepare_events`, step by step. */
  method Prepare(events: seq<RawEvent>, products: seq<Product>, weeks: seq<Date>)
    returns (countable: seq<Countable>, exclusions: seq<Exclusion>)
    ensures countable == PrepareEvents(events, products, weeks).countable
    ensures exclusions == PrepareEvents(events, products, weeks).exclusions
  {
    var frame := Normalized(events, products);
    var reasons := FinalReasons(frame, weeks);
    countable, exclusions := SplitByReason(frame, reasons, FinalReason(frame, weeks));
  }

  // --- Nothing is dropped silently -----------------------------------------------------

  predicate IsListed(exclusions: seq<Exclusion>, id: string) {
    exists i :: 0 <= i < |exclusions| && exclusions[i].eventId == id
  }

  /** Every event is counted, or listed once with its reason, never both. */
  lemma EveryEventIsAccountedFor(events: seq<Event>, reasonOf: Reasoning, e: Event)
    requires e in events && DistinctIds(events)
    ensures e in Counted(events, reasonOf) <==> !IsListed(ExclusionsOf(events, reasonOf), e.id)
    ensures e in Counted(events, reasonOf) <==> reasonOf(e).None?
    ensures forall x :: x in ExclusionsOf(events, reasonOf) && x.eventId == e.id ==> reasonOf(e) == Some(x.reason)
  {
    var left := Filter(events, Excluded(reasonOf));
    var exclusions := ExclusionsOf(events, reasonOf);
    FilterHolds(events, Unexcluded(reasonOf));
    FilterHolds(events, Excluded(reasonOf));
    forall i | 0 <= i < |left| && left[i].id == e.id
      ensures left[i] == e
    {
      assert left[i] in left;
    }
  }

  /** The reason is the first check that fails; only an event that fails none can be a duplicate. */
  lemma ReasonIsTheFirstThatApplies(normalized: seq<Event>, weeks: seq<Date>, e: Event)
    ensures var reason := FinalReason(normalized, weeks)(e);
            && (forall i :: 0 <= i < |CHECKS| && Fails(CHECKS[i], e, weeks)
                            && (forall j :: 0 <= j < i ==> !Fails(CHECKS[j], e, weeks))
                            ==> reason == Some(CHECKS[i]))
            && (reason == Some(DuplicateBusinessKey) <==>
                  && (forall i :: 0 <= i < |CHECKS| ==> !Fails(CHECKS[i], e, weeks))
                  && IsSuperseded(ValidEvents(normalized, weeks), e))
  {
  }

  /** `reason` is the first check the event fails, or it fails none and is superseded among the valid ones. */
  predicate IsItsFirstReason(normalized: seq<Event>, weeks: seq<Date>, e: Event, reason: Reason) {
    || (exists i :: 0 <= i < |CHECKS| && CHECKS[i] == reason && Fails(CHECKS[i], e, weeks)
                    && forall j :: 0 <= j < i ==> !Fails(CHECKS[j], e, weeks))
    || (reason == DuplicateBusinessKey
        && (forall i :: 0 <= i < |CHECKS| ==> !Fails(CHECKS[i], e, weeks))
        && IsSuperseded(ValidEvents(normalized, weeks), e))
  }

  /** Each listed exclusion is of one event, with the first reason that applies to it. */
  lemma ExclusionsCarryTheFirstReason(
    events: seq<RawEvent>, products: seq<Product>, weeks: seq<Date>, x: Exclusion)
    requires x in PrepareEvents(events, products, weeks).exclusions
    ensures exists e :: e in Normalized(events, products) && e.id == x.eventId
                        && IsItsFirstReason(Normalized(events, products), weeks, e, x.reason)
  {
    var normalized := Normalized(events, products);
    var reasonOf := FinalReason(normalized, weeks);
    var left := Filter(normalized, Excluded(reasonOf));
    var k :| 0 <= k < |left| && MapSeq(left, ExclusionOf(reasonOf))[k] == x;
    FilterHolds(normalized, Excluded(reasonOf));
    assert left[k] in left;
    ReasonIsTheFirstThatApplies(normalized, weeks, left[k]);
  }

  function TallyFor(events: seq<Event>, reasonOf: Reasoning): Reason -> int {
    r => |Filter(events, ExcludedFor(reasonOf, r))|
  }

  lemma ReasonsPartition(events: seq<Event>, reasonOf: Reasoning, reasons: seq<Reason>)
    requires NoDuplicates(reasons)
    requires forall e :: e in events && reasonOf(e).Some? ==> reasonOf(e).value in reasons
    ensures |Filter(events, Excluded(reasonOf))| == SumOf(reasons, TallyFor(events, reasonOf))
  {
    var given: Reason -> Option<Reason> := r => Some(r);
    var groups := MapSeq(reasons, given);
    CountByGroup(events, groups, reasonOf);
    FilterSame(events, Excluded(reasonOf), InGroups(reasonOf, groups));
    var counts: Option<Reason> -> int := CountIn(events, reasonOf);
    SumOfMapped(reasons, given, counts);
    forall r | r in reasons
      ensures TallyFor(events, reasonOf)(r) == counts(given(r))
    {
      FilterSame(events, ExcludedFor(reasonOf, r), InGroup(reasonOf, given(r)));
    }
    SumSame(reasons, TallyFor(events, reasonOf), After(given, counts));
  }

  lemma ExclusionsSplit(normalized: seq<Event>, reasonOf: Reasoning)
    ensures |Counted(normalized, reasonOf)| + |Filter(normalized, Excluded(reasonOf))| == |normalized|
  {
  }

  lemma ReasonsAddUp(normalized: seq<Event>, weeks: seq<Date>)
    ensures var reasonOf := FinalReason(normalized, weeks);
            |Filter(normalized, Excluded(reasonOf))| == SumOf(REASONS, TallyFor(normalized, reasonOf))
  {
    ReasonsPartition(normalized, FinalReason(normalized, weeks), REASONS);
  }

  function CountFor(tally: map<Reason, nat>): Reason -> int {
    r => if r in tally then tally[r] else 0
  }

  /** Events read = events counted + the sum of the exclusion counts. */
  lemma EventsReadAddUp(events: seq<RawEvent>, products: seq<Product>, weeks: seq<Date>)
    ensures var prepared := PrepareEvents(events, products, weeks);
            && prepared.eventsRead == |events|
            && prepared.eventsRead == |prepared.countable| + |prepared.exclusions|
            && prepared.eventsExcluded.Keys == Elements(REASONS)
            && |prepared.exclusions| == SumOf(REASONS, CountFor(prepared.eventsExcluded))
  {
    var normalized := Normalized(events, products);
    var reasonOf := FinalReason(normalized, weeks);
    var prepared := PrepareEvents(events, products, weeks);
    ExclusionsSplit(normalized, reasonOf);
    ReasonsAddUp(normalized, weeks);
    SumSame(REASONS, TallyFor(normalized, reasonOf), CountFor(prepared.eventsExcluded));
  }

  /** The bounds of the extraction query on one row. */
  predicate MeetsExtractBounds(raw: RawEvent, weeks: seq<Date>)
    requires weeks != []
  {
    && raw.timestamp >= WindowStart(weeks)
    && (if raw.timestamp <= raw.createdAt then raw.timestamp else raw.createdAt) >= WindowStart(weeks)
    && (if raw.timestamp <= raw.createdAt then raw.timestamp else raw.createdAt) < WindowEnd(weeks)
  }

  lemma ExtractedWeekIsComputed(raw: RawEvent, weeks: seq<Date>)
    requires weeks != [] && IsEveryMonday(weeks, MinWeek(weeks), MaxWeek(weeks))
    requires MeetsExtractBounds(raw, weeks)
    ensures WeekStartOf(EffectiveTime(raw.timestamp, raw.createdAt)) in weeks
  {
    var effective := EffectiveTime(raw.timestamp, raw.createdAt);
    var week := WeekStartOf(effective);
    WeekContainsMoment(effective, week);
    var first, last := MinWeek(weeks), MaxWeek(weeks);
    assert IsMonday(first) && IsMonday(last);
    assert first - 7 < week < last + 7;
  }

  /** No event the extraction hands over for consecutive weeks is ever `outside_window`. */
  lemma ExtractedEventsAreInTheWindow(raw: RawEvent, products: seq<Product>, weeks: seq<Date>)
    requires weeks != [] && IsEveryMonday(weeks, MinWeek(weeks), MaxWeek(weeks))
    requires MeetsExtractBounds(raw, weeks)
    ensures Normalizer(products)(raw).week in weeks
    ensures FirstReason(Normalizer(products)(raw), weeks) != Some(OutsideWindow)
  {
    ExtractedWeekIsComputed(raw, weeks);
    var e := Normalizer(products)(raw);
    assert !Fails(OutsideWindow, e, weeks);
  }

  // --- Order independence --------------------------------------------------------------

  /** Whether an event is a duplicate does not depend on the order of the frame. */
  lemma SupersededPermutes(a: seq<Event>, b: seq<Event>, e: Event)
    requires DistinctIds(a) && multiset(a) == multiset(b)
    ensures IsSuperseded(a, e) <==> IsSuperseded(b, e)
  {
    EventsAreOrdered(a);
    SortPermutes(a, b, EventLeq);
  }

  lemma {:induction false} FilterKeepsDistinctIds(events: seq<Event>, p: Event -> bool)
    requires DistinctIds(events)
    ensures DistinctIds(Filter(events, p))
  {
    if events != [] {
      FilterKeepsDistinctIds(events[1..], p);
      FilterHolds(events[1..], p);
      assert forall e :: e in events[1..] ==> e.id != events[0].id;
    }
  }

  lemma FinalReasonPermutes(a: seq<Event>, b: seq<Event>, weeks: seq<Date>, e: Event)
    requires DistinctIds(a) && multiset(a) == multiset(b)
    ensures FinalReason(a, weeks)(e) == FinalReason(b, weeks)(e)
  {
    FilterPermutes(a, b, Unexcluded(Screening(weeks)));
    FilterKeepsDistinctIds(a, Unexcluded(Screening(weeks)));
    SupersededPermutes(ValidEvents(a, weeks), ValidEvents(b, weeks), e);
  }

  predicate DistinctRawIds(events: seq<RawEvent>) {
    forall i, j :: 0 <= i < j < |events| ==> events[i].id != events[j].id
  }

  lemma NormalizedKeepsIds(events: seq<RawEvent>, products: seq<Product>)
    requires DistinctRawIds(events)
    ensures DistinctIds(Normalized(events, products))
  {
    assert forall i :: 0 <= i < |events| ==> Normalized(events, products)[i].id == events[i].id;
  }

  /**
   A permutation of the events leaves the same countable events and the same
   exclusions, each the same number of times.
   */
  lemma PreparedPermutes(a: seq<RawEvent>, b: seq<RawEvent>, products: seq<Product>, weeks: seq<Date>)
    requires DistinctRawIds(a) && multiset(a) == multiset(b)
    ensures var p, r := PrepareEvents(a, products, weeks), PrepareEvents(b, products, weeks);
            && multiset(p.countable) == multiset(r.countable)
            && multiset(p.exclusions) == multiset(r.exclusions)
  {
    var na, nb := Normalized(a, products), Normalized(b, products);
    MapPermutes(a, b, Normalizer(products));
    NormalizedKeepsIds(a, products);
    var ra, rb := FinalReason(na, weeks), FinalReason(nb, weeks);
    forall e
      ensures ra(e) == rb(e)
    {
      FinalReasonPermutes(na, nb, weeks, e);
    }
    FilterPermutes(na, nb, Unexcluded(ra));
    FilterSame(nb, Unexcluded(ra), Unexcluded(rb));
    MapPermutes(Counted(na, ra), Counted(nb, rb), CountableOf);
    FilterPermutes(na, nb, Excluded(ra));
    FilterSame(nb, Excluded(ra), Excluded(rb));
    MapPermutes(Filter(na, Excluded(ra)), Filter(nb, Excluded(rb)), ExclusionOf(ra));
    MapSame(Filter(nb, Excluded(rb)), ExclusionOf(ra), ExclusionOf(rb));
  }
}

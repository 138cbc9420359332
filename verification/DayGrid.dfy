/**
 The day grids of the technical report (services/telemetry/analysis.py): events per
 UTC day, and errors per UTC day and class.
 */
module DayGrid {
  import opened Common
  import opened Sequences
  import opened Weeks

  datatype EventKind = ApiLatency | ApiError | OtherEvent

  datatype Event = Event(timestamp: Time, kind: EventKind, session: string, errorClass: Option<string>)

  datatype DayRow = DayRow(day: Date, events: int, partial: bool)

  datatype ErrorRow = ErrorRow(day: Date, errorClass: string, errors: int)

  const ERROR_CLASSES: seq<string> := ["validation", "domain_rule", "auth", "not_found", "conflict", "unhandled"]
  const UNCLASSIFIED: string := "unclassified"

  // --- Days ----------------------------------------------------------------------------

  /** Every UTC day the window `[start, end)` touches. */
  function Days(start: Time, end: Time): seq<Date> {
    var first, last := DateOf(start), DateOf(end - 1);
    if last < first then [] else seq(last - first + 1, i => first + i)
  }

  function InWindow(start: Time, end: Time): Event -> bool {
    (e: Event) => start <= e.timestamp < end
  }

  function DayOf(e: Event): Date { DateOf(e.timestamp) }

  /** The window covers the day only in part. */
  predicate IsPartial(day: Date, start: Time, end: Time) {
    Midnight(day) < start || Midnight(day + 1) > end
  }

  function RowOf(frame: seq<Event>, start: Time, end: Time): Date -> DayRow {
    d => DayRow(d, CountIn(frame, DayOf)(d), IsPartial(d, start, end))
  }

  /** `events_per_day`; the window must not be empty. */
  function EventsPerDay(loaded: seq<Event>, start: Time, end: Time): Option<seq<DayRow>> {
    if start >= end then None
    else Some(MapSeq(Days(start, end), RowOf(Filter(loaded, InWindow(start, end)), start, end)))
  }

  /** The grid lists exactly the days on which some moment of the window falls, each once. */
  lemma DaysCoverTheWindow(start: Time, end: Time, day: Date)
    requires start < end
    ensures NoDuplicates(Days(start, end))
    ensures day in Days(start, end) <==> exists t: Time :: start <= t < end && DateOf(t) == day
  {
    var first, last := DateOf(start), DateOf(end - 1);
    var days := Days(start, end);
    if t: Time :| start <= t < end && DateOf(t) == day {
      assert days[day - first] == day;
    }
    if day in days {
      var t := if day == first then start else Midnight(day);
      assert DateOf(t) == day && start <= t < end;
    }
  }

  function EventsIn(r: DayRow): int { r.events }

  lemma EventsHaveADay(loaded: seq<Event>, start: Time, end: Time, e: Event)
    requires start < end && e in Filter(loaded, InWindow(start, end))
    ensures DayOf(e) in Days(start, end)
  {
    DaysCoverTheWindow(start, end, DayOf(e));
  }

  /** No event of the window falls outside the grid: the rows count every one of them, once. */
  lemma RowsCountEveryEvent(loaded: seq<Event>, start: Time, end: Time)
    requires start < end
    ensures var rows := EventsPerDay(loaded, start, end);
            rows.Some? && SumOf(rows.value, EventsIn) == |Filter(loaded, InWindow(start, end))|
  {
    var frame, days := Filter(loaded, InWindow(start, end)), Days(start, end);
    DaysCoverTheWindow(start, end, 0);
    SumOfMapped(days, RowOf(frame, start, end), EventsIn);
    SumSame(days, After(RowOf(frame, start, end), EventsIn), CountIn(frame, DayOf));
    CountByGroup(frame, days, DayOf);
    forall e | e in frame
      ensures InGroups(DayOf, days)(e)
    {
      EventsHaveADay(loaded, start, end, e);
    }
    FilterAll(frame, InGroups(DayOf, days));
  }

  /** Only the first and the last day of the grid can be partial. */
  lemma OnlyTheEndsArePartial(start: Time, end: Time, day: Date)
    requires start < end && day in Days(start, end) && IsPartial(day, start, end)
    ensures day == DateOf(start) || day == DateOf(end - 1)
  {
  }

  // --- Errors by class -----------------------------------------------------------------

  datatype Cell = Cell(day: Date, errorClass: string)

  function ClassOf(e: Event): string {
    if e.errorClass.Some? then e.errorClass.value else UNCLASSIFIED
  }

  function CellOf(e: Event): Cell { Cell(DayOf(e), ClassOf(e)) }

  function IsErrorIn(start: Time, end: Time): Event -> bool {
    (e: Event) => e.kind.ApiError? && start <= e.timestamp < end
  }

  function IsUncatalogued(c: string): bool { c !in ERROR_CLASSES }

  function OtherClasses(errors: seq<Event>): seq<string> {
    Sort(Dedupe(Filter(MapSeq(errors, ClassOf), IsUncatalogued)), TextLeq)
  }

  /** The catalogued classes, then whatever else the data carries, sorted. */
  function Classes(errors: seq<Event>): seq<string> {
    ERROR_CLASSES + OtherClasses(errors)
  }

  function CellsOfDay(day: Date, classes: seq<string>): seq<Cell> {
    MapSeq(classes, c => Cell(day, c))
  }

  function Grid(days: seq<Date>, classes: seq<string>): seq<Cell> {
    if days == [] then [] else CellsOfDay(days[0], classes) + Grid(days[1..], classes)
  }

  function ErrorRowOf(errors: seq<Event>): Cell -> ErrorRow {
    (c: Cell) => ErrorRow(c.day, c.errorClass, CountIn(errors, CellOf)(c))
  }

  function ErrorsByType(loaded: seq<Event>, start: Time, end: Time): Option<seq<ErrorRow>> {
    if start >= end then None
    else
      var errors := Filter(loaded, IsErrorIn(start, end));
      Some(MapSeq(Grid(Days(start, end), Classes(errors)), ErrorRowOf(errors)))
  }

  lemma {:induction false} GridHolds(days: seq<Date>, classes: seq<string>, c: Cell)
    ensures c in Grid(days, classes) <==> c.day in days && c.errorClass in classes
  {
    if days != [] {
      GridHolds(days[1..], classes, c);
    }
  }

  lemma {:induction false} GridIsDistinct(days: seq<Date>, classes: seq<string>)
    requires NoDuplicates(days) && NoDuplicates(classes)
    ensures NoDuplicates(Grid(days, classes))
  {
    if days != [] {
      GridIsDistinct(days[1..], classes);
      var head, tail, grid := CellsOfDay(days[0], classes), Grid(days[1..], classes), Grid(days, classes);
      forall i, j | 0 <= i < j < |grid|
        ensures grid[i] != grid[j]
      {
        if i < |head| <= j {
          GridHolds(days[1..], classes, grid[j]);
        } else if i >= |head| {
          assert grid[i] == tail[i - |head|] && grid[j] == tail[j - |head|];
        }
      }
    }
  }

  lemma TextRanks(domain: set<string>)
    ensures TotalOn(domain, TextLeq)
  {
    forall a, b | a in domain && b in domain
      ensures TextLeq(a, b) || TextLeq(b, a)
      ensures TextLeq(a, b) && TextLeq(b, a) ==> a == b
    {
      TextLeqTotal(a, b);
    }
    forall a, b, c | a in domain && b in domain && c in domain && TextLeq(a, b) && TextLeq(b, c)
      ensures TextLeq(a, c)
    {
      TextLeqTransitive(a, b, c);
    }
  }

  lemma OtherClassesHold(errors: seq<Event>)
    ensures NoDuplicates(OtherClasses(errors))
    ensures forall c :: c in OtherClasses(errors) <==> c in MapSeq(errors, ClassOf) && IsUncatalogued(c)
  {
    var others := Filter(MapSeq(errors, ClassOf), IsUncatalogued);
    FilterHolds(MapSeq(errors, ClassOf), IsUncatalogued);
    DedupeHolds(others);
    TextRanks(Elements(Dedupe(others)));
    SortMembers(Dedupe(others), TextLeq);
  }

  lemma DistinctTogether<T>(a: seq<T>, b: seq<T>)
    requires NoDuplicates(a) && NoDuplicates(b) && forall x :: x in b ==> x !in a
    ensures NoDuplicates(a + b)
  {
    assert forall j :: 0 <= j < |b| ==> b[j] in b;
  }

  lemma ClassesHold(errors: seq<Event>)
    ensures NoDuplicates(Classes(errors))
    ensures forall c :: c in ERROR_CLASSES ==> c in Classes(errors)
    ensures forall e :: e in errors ==> ClassOf(e) in Classes(errors)
  {
    OtherClassesHold(errors);
    DistinctTogether(ERROR_CLASSES, OtherClasses(errors));
  }

  function ErrorsIn(r: ErrorRow): int { r.errors }

  /** Every error of the window is counted in exactly one cell, whatever class it carries. */
  lemma ErrorRowsCountEveryError(loaded: seq<Event>, start: Time, end: Time)
    requires start < end
    ensures var rows := ErrorsByType(loaded, start, end);
            rows.Some? && SumOf(rows.value, ErrorsIn) == |Filter(loaded, IsErrorIn(start, end))|
  {
    var errors, days := Filter(loaded, IsErrorIn(start, end)), Days(start, end);
    var grid := Grid(days, Classes(errors));
    ClassesHold(errors);
    GridIsDistinct(days, Classes(errors));
    SumOfMapped(grid, ErrorRowOf(errors), ErrorsIn);
    SumSame(grid, After(ErrorRowOf(errors), ErrorsIn), CountIn(errors, CellOf));
    CountByGroup(errors, grid, CellOf);
    FilterHolds(loaded, IsErrorIn(start, end));
    forall e | e in errors
      ensures InGroups(CellOf, grid)(e)
    {
      DaysCoverTheWindow(start, end, DayOf(e));
      GridHolds(days, Classes(errors), CellOf(e));
    }
    FilterAll(errors, InGroups(CellOf, grid));
  }

  // --- The rows, one by one ------------------------------------------------------------

  /** The window is refused when empty, and otherwise its days follow each other. */
  lemma GridFollowsTheCalendar(loaded: seq<Event>, start: Time, end: Time)
    ensures EventsPerDay(loaded, start, end).None? <==> end <= start
    ensures ErrorsByType(loaded, start, end).None? <==> end <= start
    ensures var days := Days(start, end);
            forall k :: 0 < k < |days| ==> days[k] == days[k - 1] + 1
  {
  }

  predicate IsOnDay(t: Time, day: Date) { Midnight(day) <= t && t < Midnight(day + 1) }

  predicate IsInside(t: Time, start: Time, end: Time) { start <= t && t < end }

  lemma DayIs(t: Time, day: Date)
    ensures DateOf(t) == day <==> IsOnDay(t, day)
  {
  }

  function EventsOn(day: Date, start: Time, end: Time): Event -> bool {
    (e: Event) => IsInside(e.timestamp, start, end) && IsOnDay(e.timestamp, day)
  }

  /** The error carries the class, or none while `unclassified` is meant. */
  predicate Carries(e: Event, errorClass: string) {
    e.kind == ApiError && (e.errorClass == Some(errorClass) || (e.errorClass == None && errorClass == "unclassified"))
  }

  function ErrorsOn(day: Date, errorClass: string, start: Time, end: Time): Event -> bool {
    (e: Event) => Carries(e, errorClass) && IsInside(e.timestamp, start, end) && IsOnDay(e.timestamp, day)
  }

  lemma PartialIff(day: Date, start: Time, end: Time)
    ensures IsPartial(day, start, end) <==> exists t: Time :: IsOnDay(t, day) && !IsInside(t, start, end)
  {
    if IsPartial(day, start, end) {
      var t := if Midnight(day) < start then Midnight(day) else Midnight(day + 1) - 1;
      assert IsOnDay(t, day) && !IsInside(t, start, end);
    }
  }

  /**
   A row counts the events of the window that fall on its day, and is partial
   exactly when some moment of that day is outside the window.
   */
  lemma RowCountsItsDay(loaded: seq<Event>, start: Time, end: Time, k: nat)
    requires start < end && k < |Days(start, end)|
    ensures var rows, day := EventsPerDay(loaded, start, end), Days(start, end)[k];
            && rows.Some? && |rows.value| == |Days(start, end)| && rows.value[k].day == day
            && rows.value[k].events == |Places(loaded, EventsOn(day, start, end))|
            && (rows.value[k].partial <==> exists t: Time :: IsOnDay(t, day) && !IsInside(t, start, end))
  {
    var day := Days(start, end)[k];
    forall e: Event
      ensures EventsOn(day, start, end)(e) == (InWindow(start, end)(e) && InGroup(DayOf, day)(e))
    {
      DayIs(e.timestamp, day);
      assert DayOf(e) == DateOf(e.timestamp);
      assert InGroup(DayOf, day)(e) == (DayOf(e) == day);
    }
    FilterWhere(loaded, InWindow(start, end), InGroup(DayOf, day), EventsOn(day, start, end));
    FilterCountsPlaces(loaded, EventsOn(day, start, end));
    var frame := Filter(loaded, InWindow(start, end));
    assert CountIn(frame, DayOf)(day) == |Filter(frame, InGroup(DayOf, day))|;
    PartialIff(day, start, end);
  }

  lemma CellCounts(loaded: seq<Event>, start: Time, end: Time, c: Cell)
    ensures |Filter(Filter(loaded, IsErrorIn(start, end)), InGroup(CellOf, c))|
         == |Places(loaded, ErrorsOn(c.day, c.errorClass, start, end))|
  {
    var on := ErrorsOn(c.day, c.errorClass, start, end);
    forall e: Event
      ensures on(e) <==> IsErrorIn(start, end)(e) && InGroup(CellOf, c)(e)
    {
      DayIs(e.timestamp, c.day);
      assert CellOf(e) == c <==> DayOf(e) == c.day && ClassOf(e) == c.errorClass;
    }
    FilterWhere(loaded, IsErrorIn(start, end), InGroup(CellOf, c), on);
    FilterCountsPlaces(loaded, on);
  }

  lemma ClassIsListedIff(loaded: seq<Event>, start: Time, end: Time, errorClass: string)
    ensures errorClass in Classes(Filter(loaded, IsErrorIn(start, end))) <==>
              || errorClass in ["validation", "domain_rule", "auth", "not_found", "conflict", "unhandled"]
              || exists e :: e in loaded && Carries(e, errorClass) && IsInside(e.timestamp, start, end)
  {
    var errors := Filter(loaded, IsErrorIn(start, end));
    ClassesHold(errors);
    OtherClassesHold(errors);
    FilterHolds(loaded, IsErrorIn(start, end));
    if e :| e in loaded && Carries(e, errorClass) && IsInside(e.timestamp, start, end) {
      assert e in errors && ClassOf(e) == errorClass;
    }
    if errorClass in OtherClasses(errors) {
      var i :| 0 <= i < |errors| && MapSeq(errors, ClassOf)[i] == errorClass;
      assert errors[i] in loaded && Carries(errors[i], errorClass) && IsInside(errors[i].timestamp, start, end);
    }
  }

  lemma RowsOfGrid(errors: seq<Event>, grid: seq<Cell>, row: ErrorRow)
    ensures var rows, cell := MapSeq(grid, ErrorRowOf(errors)), Cell(row.day, row.errorClass);
            && (row in rows <==> cell in grid && row.errors == |Filter(errors, InGroup(CellOf, cell))|)
            && (NoDuplicates(grid) ==> NoDuplicates(rows))
  {
    var rows, cell := MapSeq(grid, ErrorRowOf(errors)), Cell(row.day, row.errorClass);
    forall i | 0 <= i < |grid|
      ensures rows[i] == ErrorRow(grid[i].day, grid[i].errorClass, |Filter(errors, InGroup(CellOf, grid[i]))|)
    {
      assert CountIn(errors, CellOf)(grid[i]) == |Filter(errors, InGroup(CellOf, grid[i]))|;
    }
    if cell in grid {
      var i :| 0 <= i < |grid| && grid[i] == cell;
      assert rows[i] == ErrorRow(row.day, row.errorClass, |Filter(errors, InGroup(CellOf, cell))|);
    }
  }

  /**
   Every day of the window has one row for each of the six catalogued classes and for
   each class an error of the window carries, and it counts that day's errors of the class.
   */
  lemma ErrorRowsAreTheCells(loaded: seq<Event>, start: Time, end: Time, row: ErrorRow)
    requires start < end
    ensures var rows := ErrorsByType(loaded, start, end);
            && rows.Some? && NoDuplicates(rows.value)
            && (row in rows.value <==>
                  && row.day in Days(start, end)
                  && (|| row.errorClass in ["validation", "domain_rule", "auth", "not_found", "conflict", "unhandled"]
                      || exists e :: e in loaded && Carries(e, row.errorClass) && IsInside(e.timestamp, start, end))
                  && row.errors == |Places(loaded, ErrorsOn(row.day, row.errorClass, start, end))|)
  {
    var errors := Filter(loaded, IsErrorIn(start, end));
    var cell := Cell(row.day, row.errorClass);
    RowsOfGrid(errors, Grid(Days(start, end), Classes(errors)), row);
    GridHolds(Days(start, end), Classes(errors), cell);
    ClassIsListedIff(loaded, start, end, row.errorClass);
    CellCounts(loaded, start, end, cell);
    DaysCoverTheWindow(start, end, row.day);
    ClassesHold(errors);
    GridIsDistinct(Days(start, end), Classes(errors));
  }
}

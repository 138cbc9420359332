/**
 The calendar of the weekly rollup (data/process/weekly_rollup.py).

 A date is a day number and day 0 is a Monday, so a weekday is the day number
 modulo 7. A moment is a number of microseconds since midnight UTC of day 0.
 */
module Weeks {
  import opened Common

  type Date = int
  type Time = int

  const MICROS_PER_DAY: int := 86_400_000_000
  const MAX_LOOKBACK_WEEKS: int := 12

  datatype InvalidWeek = NotAMonday | NotClosed | LookbackOutOfRange | ReversedRange

  /** What one flow run asks for; a retry of the run asks for the same. */
  datatype WeekRequest = WeekRequest(weekStart: Option<Date>, lookback: int)

  function Weekday(day: Date): int { day % 7 }

  predicate IsMonday(day: Date) { Weekday(day) == 0 }

  function DateOf(moment: Time): Date { moment / MICROS_PER_DAY }

  function Midnight(day: Date): Time { day * MICROS_PER_DAY }

  function WeekStartOfDay(day: Date): Date { day - Weekday(day) }

  function WeekStartOf(moment: Time): Date { WeekStartOfDay(DateOf(moment)) }

  function LastClosedWeek(now: Time): Date { WeekStartOf(now) - 7 }

  function ClosedWeeks(now: Time, request: WeekRequest): Result<seq<Date>, InvalidWeek> {
    var newest := LastClosedWeek(now);
    match request.weekStart
    case Some(week) =>
      if !IsMonday(week) then Failure(NotAMonday)
      else if week > newest then Failure(NotClosed)
      else Success([week])
    case None =>
      if !(1 <= request.lookback <= MAX_LOOKBACK_WEEKS) then Failure(LookbackOutOfRange)
      else Success(seq(request.lookback, i => newest - 7 * (request.lookback - 1 - i)))
  }

  function WeeksBetween(fromWeek: Date, toWeek: Date): Result<seq<Date>, InvalidWeek> {
    if !IsMonday(fromWeek) || !IsMonday(toWeek) then Failure(NotAMonday)
    else if fromWeek > toWeek then Failure(ReversedRange)
    else Success(seq((toWeek - fromWeek) / 7 + 1, i => fromWeek + 7 * i))
  }

  function MinWeek(weeks: seq<Date>): (m: Date)
    requires weeks != []
    ensures m in weeks && forall w :: w in weeks ==> m <= w
  {
    if |weeks| == 1 then weeks[0]
    else
      var rest := MinWeek(weeks[1..]);
      assert forall w :: w in weeks ==> w == weeks[0] || w in weeks[1..];
      if weeks[0] < rest then weeks[0] else rest
  }

  function MaxWeek(weeks: seq<Date>): (m: Date)
    requires weeks != []
    ensures m in weeks && forall w :: w in weeks ==> w <= m
  {
    if |weeks| == 1 then weeks[0]
    else
      var rest := MaxWeek(weeks[1..]);
      assert forall w :: w in weeks ==> w == weeks[0] || w in weeks[1..];
      if weeks[0] > rest then weeks[0] else rest
  }

  function WindowStart(weeks: seq<Date>): Time
    requires weeks != []
  {
    Midnight(MinWeek(weeks))
  }

  function WindowEnd(weeks: seq<Date>): Time
    requires weeks != []
  {
    Midnight(MaxWeek(weeks) + 7)
  }

  /** The dates a run over `[fromWeek, toWeek]` recomputes. */
  ghost predicate IsEveryMonday(weeks: seq<Date>, fromWeek: Date, toWeek: Date) {
    && NoDuplicates(weeks)
    && forall w: Date :: w in weeks <==> IsMonday(w) && fromWeek <= w <= toWeek
  }

  /** `WeekStartOf` is the one Monday whose seven days contain the moment. */
  lemma WeekContainsMoment(moment: Time, monday: Date)
    requires IsMonday(monday)
    ensures monday == WeekStartOf(moment) <==> Midnight(monday) <= moment < Midnight(monday + 7)
  {
  }

  /** `weeks_between` lists every Monday of the range, once. */
  lemma WeeksBetweenListsEveryMonday(fromWeek: Date, toWeek: Date)
    requires IsMonday(fromWeek) && IsMonday(toWeek) && fromWeek <= toWeek
    ensures var listed := WeeksBetween(fromWeek, toWeek);
            listed.Success? && IsEveryMonday(listed.value, fromWeek, toWeek)
  {
    var weeks := WeeksBetween(fromWeek, toWeek).value;
    forall w: Date | IsMonday(w) && fromWeek <= w <= toWeek
      ensures w in weeks
    {
      assert weeks[(w - fromWeek) / 7] == w;
    }
  }

  /** Consecutive Mondays are every Monday from their first to their last. */
  lemma ConsecutiveMondays(weeks: seq<Date>)
    requires weeks != [] && IsMonday(weeks[0])
    requires forall i :: 0 <= i < |weeks| ==> weeks[i] == weeks[0] + 7 * i
    ensures MinWeek(weeks) == weeks[0] && MaxWeek(weeks) == weeks[|weeks| - 1]
    ensures WeeksBetween(MinWeek(weeks), MaxWeek(weeks)) == Success(weeks)
    ensures IsEveryMonday(weeks, MinWeek(weeks), MaxWeek(weeks))
  {
    var first, last := weeks[0], weeks[|weeks| - 1];
    var listed := WeeksBetween(first, last).value;
    assert forall i :: 0 <= i < |weeks| ==> listed[i] == weeks[i];
    assert listed == weeks;
    WeeksBetweenListsEveryMonday(first, last);
  }

  /**
   The weeks of a run are closed, they are every Monday between the two dates
   its row records, and the row's dates are their minimum and maximum.
   */
  lemma ClosedWeeksAreEveryMonday(now: Time, request: WeekRequest)
    requires ClosedWeeks(now, request).Success?
    ensures var weeks := ClosedWeeks(now, request).value;
            && weeks != []
            && IsEveryMonday(weeks, MinWeek(weeks), MaxWeek(weeks))
            && WeeksBetween(MinWeek(weeks), MaxWeek(weeks)) == Success(weeks)
            && WindowEnd(weeks) <= now
  {
    ConsecutiveMondays(ClosedWeeks(now, request).value);
  }

  /** The main flow's guard: the newest week has closed on the database clock. */
  predicate PassesCutoffGuard(weeks: seq<Date>, cutoff: Time)
    requires weeks != []
  {
    WindowEnd(weeks) <= cutoff
  }

  /** An attempt that computes its weeks at `now` reaches extraction. */
  predicate AttemptProceeds(now: Time, cutoff: Time, request: WeekRequest) {
    && ClosedWeeks(now, request).Success?
    && ClosedWeeks(now, request).value != []
    && PassesCutoffGuard(ClosedWeeks(now, request).value, cutoff)
  }

  lemma NewestWeekOfLookback(now: Time, request: WeekRequest)
    requires request.weekStart.None? && ClosedWeeks(now, request).Success?
    ensures var weeks := ClosedWeeks(now, request).value;
            weeks != [] && MaxWeek(weeks) + 7 == WeekStartOf(now)
  {
    ConsecutiveMondays(ClosedWeeks(now, request).value);
  }

  lemma OldestWeekOfLookback(now: Time, request: WeekRequest)
    requires request.weekStart.None? && ClosedWeeks(now, request).Success?
    ensures var weeks := ClosedWeeks(now, request).value;
            weeks != [] && MinWeek(weeks) == WeekStartOf(now) - 7 * request.lookback
  {
    ConsecutiveMondays(ClosedWeeks(now, request).value);
  }

  lemma WeekStartGrows(a: Time, b: Time)
    requires a <= b
    ensures WeekStartOf(a) <= WeekStartOf(b)
  {
  }

  /** Two moments give a request the same weeks exactly when it names its week or they share theirs. */
  lemma SameWeeksIff(opening: Time, retry: Time, request: WeekRequest)
    requires ClosedWeeks(opening, request).Success? && ClosedWeeks(retry, request).Success?
    ensures ClosedWeeks(retry, request) == ClosedWeeks(opening, request)
       <==> request.weekStart.Some? || WeekStartOf(opening) == WeekStartOf(retry)
  {
    if request.weekStart.None? {
      NewestWeekOfLookback(opening, request);
      NewestWeekOfLookback(retry, request);
    }
  }

  lemma LaterAttemptAgrees(opening: Time, retry: Time, cutoff: Time, request: WeekRequest)
    requires ClosedWeeks(opening, request).Success?
    requires AttemptProceeds(retry, cutoff, request)
    requires request.weekStart.Some? || WeekStartOf(cutoff) <= WeekStartOf(opening) <= WeekStartOf(retry)
    ensures ClosedWeeks(retry, request) == ClosedWeeks(opening, request)
  {
    if request.weekStart.None? {
      NewestWeekOfLookback(retry, request);
    }
  }

  /**
   When every later attempt recomputes the weeks of the opening one. Stated
   exactly: it fails only for a run without `week_start` whose row was opened
   while the worker clock was in an earlier UTC week than the cutoff.
   */
  lemma ResumeRecomputesSameWeeksIff(opening: Time, cutoff: Time, request: WeekRequest)
    requires ClosedWeeks(opening, request).Success?
    ensures (forall retry: Time ::
               opening <= retry && AttemptProceeds(retry, cutoff, request)
               ==> ClosedWeeks(retry, request) == ClosedWeeks(opening, request))
       <==> (request.weekStart.Some? || WeekStartOf(cutoff) <= WeekStartOf(opening))
  {
    if request.weekStart.Some? || WeekStartOf(cutoff) <= WeekStartOf(opening) {
      forall retry: Time | opening <= retry && AttemptProceeds(retry, cutoff, request)
        ensures ClosedWeeks(retry, request) == ClosedWeeks(opening, request)
      {
        WeekStartGrows(opening, retry);
        LaterAttemptAgrees(opening, retry, cutoff, request);
      }
    } else {
      NewestWeekOfLookback(cutoff, request);
    }
  }

  /** The exception is real: opened on Sunday night, with the database already in Monday. */
  lemma ALateCutoffMovesTheWeeks()
    ensures var request := WeekRequest(None, 1);
            var opening, cutoff := Midnight(21) - 1, Midnight(21);
            && ClosedWeeks(opening, request) == Success([7])
            && AttemptProceeds(cutoff, cutoff, request) && ClosedWeeks(cutoff, request) == Success([14])
  {
    assert ClosedWeeks(Midnight(21), WeekRequest(None, 1)).value == [14];
    assert ClosedWeeks(Midnight(21) - 1, WeekRequest(None, 1)).value == [7];
  }
}

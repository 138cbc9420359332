/**
 Two conditions on clocks and retries under which every committed load is of the
 weeks its run's row records, so that readers of the report are right.

 They ask nothing of runs that name their week. A worker clock that does not go back
 and attempts that open their row before a later attempt of the same run starts give
 the second. Neither is necessary: PublicationRuns.dfy has a run without the first in
 which readers are right, and, for each, one in which they are not.
 */
module PublicationOnTime {
  import opened Common
  import opened Weeks
  import opened RunLog
  import opened WeeklyLoad
  import opened WeeklyPublish
  import opened Publication

  /**
   A look-back run's row is not inserted with the database clock already in a later
   UTC week than the worker clock was when the attempt computed its weeks.
   */
  ghost predicate InsertsInItsWeek(q: Requests, s: System, step: Step) {
    step.Open? && step.attempt in s.attempts ==>
      var a := s.attempts[step.attempt];
      RunOfFlow(s.db.runs, a.flow).None? ==>
        q(a.flow).weekStart.Some? || WeekStartOf(step.now) <= WeekStartOf(a.startedAt)
  }

  /**
   An attempt of a look-back run does not resume a row whose weeks an attempt
   computed in a later UTC week: it opens before that later attempt, or never.
   */
  ghost predicate ResumesNoLaterRow(q: Requests, s: System, step: Step) {
    step.Open? && step.attempt in s.attempts ==>
      var a := s.attempts[step.attempt];
      forall id :: BelongsTo(s.db.runs, a.flow, id) && id in s.rowClock ==>
        q(a.flow).weekStart.Some? || WeekStartOf(s.rowClock[id]) <= WeekStartOf(a.startedAt)
  }

  ghost predicate RowsAreInsertedOnTime(q: Requests, run: seq<System>, steps: seq<Step>)
    requires |run| == |steps| + 1
  {
    forall i :: 0 <= i < |steps| ==> InsertsInItsWeek(q, run[i], steps[i])
  }

  ghost predicate RowsAreResumedOnTime(q: Requests, run: seq<System>, steps: seq<Step>)
    requires |run| == |steps| + 1
  {
    forall i :: 0 <= i < |steps| ==> ResumesNoLaterRow(q, run[i], steps[i])
  }

  /** Nothing is asked of runs that name their week. */
  ghost predicate IsOnTime(q: Requests, run: seq<System>, steps: seq<Step>)
    requires |run| == |steps| + 1
  {
    RowsAreInsertedOnTime(q, run, steps) && RowsAreResumedOnTime(q, run, steps)
  }

  // --- What every state keeps ----------------------------------------------------------

  /** A look-back row's cutoff is of the week its weeks were computed in, or earlier. */
  ghost predicate RowsAreOnTime(q: Requests, runs: RunTable, rowClock: map<RunId, Time>) {
    forall id :: id in runs && id in rowClock && runs[id].flow.Some? ==>
      q(runs[id].flow.value).weekStart.Some? || WeekStartOf(runs[id].cutoff) <= WeekStartOf(rowClock[id])
  }

  /** A look-back attempt computed its weeks in its row's week or later. */
  ghost predicate AttemptsAreOnTime(q: Requests, rowClock: map<RunId, Time>, attempts: map<nat, Attempt>) {
    forall a :: a in attempts && attempts[a].handle.Some? && attempts[a].handle.value.runId in rowClock ==>
      || q(attempts[a].flow).weekStart.Some?
      || WeekStartOf(rowClock[attempts[a].handle.value.runId]) <= WeekStartOf(attempts[a].startedAt)
  }

  lemma OpenedRowsAreOnTime(
    q: Requests, runs: RunTable, rowClock: map<RunId, Time>, a: Attempt, request: OpenRequest, result: OpenResult)
    requires RowsAreOnTime(q, runs, rowClock) && rowClock.Keys == runs.Keys
    requires OpenShape(runs, request, result) && request.freshId !in runs && request.flow == a.flow
    requires RunOfFlow(runs, a.flow).None? ==>
               q(a.flow).weekStart.Some? || WeekStartOf(request.now) <= WeekStartOf(a.startedAt)
    ensures RowsAreOnTime(q, result.table, RowClockAfter(rowClock, request, result, a))
  {
  }

  /** The row an attempt opens is its own insertion, or one whose weeks are no later than its own. */
  lemma OpenedAttemptsAreOnTime(
    q: Requests, runs: RunTable, rowClock: map<RunId, Time>, attempts: map<nat, Attempt>, attempt: nat,
    request: OpenRequest, result: OpenResult)
    requires AttemptsAreRecorded(q, runs, attempts) && AttemptsAreOnTime(q, rowClock, attempts)
    requires rowClock.Keys == runs.Keys && request.freshId !in runs
    requires attempt in attempts && request.flow == attempts[attempt].flow && OpenShape(runs, request, result)
    requires forall id :: BelongsTo(runs, request.flow, id) ==>
               q(request.flow).weekStart.Some? || WeekStartOf(rowClock[id]) <= WeekStartOf(attempts[attempt].startedAt)
    ensures AttemptsAreOnTime(q, RowClockAfter(rowClock, request, result, attempts[attempt]),
                              AttemptsAfter(attempts, attempt, result))
  {
    if result.answer.Success? {
      var id := result.answer.value.runId;
      assert id == request.freshId || BelongsTo(runs, request.flow, id);
    }
  }

  lemma OpenKeepsTime(q: Requests, s: System, attempt: nat, freshId: RunId, now: Time, terminal: FlowOracle, s': System)
    requires IsConsistent(q, s) && OpenStep(s, attempt, freshId, now, terminal, s')
    requires RowsAreOnTime(q, s.db.runs, s.rowClock) && AttemptsAreOnTime(q, s.rowClock, s.attempts)
    requires var step := Open(attempt, freshId, now, terminal);
             InsertsInItsWeek(q, s, step) && ResumesNoLaterRow(q, s, step)
    ensures RowsAreOnTime(q, s'.db.runs, s'.rowClock) && AttemptsAreOnTime(q, s'.rowClock, s'.attempts)
  {
    var a := s.attempts[attempt];
    var request := RequestOf(a, now, freshId);
    OpenRunHasShape(s.db.runs, request, terminal);
    var result := OpenRun(s.db.runs, request, terminal);
    OpenedRowsAreOnTime(q, s.db.runs, s.rowClock, a, request, result);
    OpenedAttemptsAreOnTime(q, s.db.runs, s.rowClock, s.attempts, attempt, request, result);
  }

  ghost predicate TimesAreInOrder(q: Requests, s: System) {
    RowsAreOnTime(q, s.db.runs, s.rowClock) && AttemptsAreOnTime(q, s.rowClock, s.attempts)
  }

  /** Steps that open nothing. */
  lemma TimeSurvives(q: Requests, s: System, s': System)
    requires RowsAreOnTime(q, s.db.runs, s.rowClock) && AttemptsAreOnTime(q, s.rowClock, s.attempts)
    requires Evolves(s.db.runs, s'.db.runs) && s'.db.runs.Keys == s.db.runs.Keys
    requires s'.rowClock == s.rowClock && s'.attempts == s.attempts
    ensures RowsAreOnTime(q, s'.db.runs, s'.rowClock) && AttemptsAreOnTime(q, s'.rowClock, s'.attempts)
  {
  }

  lemma LoadKeepsTime(
    q: Requests, s: System, attempt: nat, records: seq<Record>, now: Time, eventsRead: Option<nat>,
    outcome: LoadOutcome, s': System)
    requires IsConsistent(q, s) && LoadStep(s, attempt, records, now, eventsRead, outcome, s')
    requires TimesAreInOrder(q, s)
    ensures TimesAreInOrder(q, s')
  {
    LoadOnlyAdds(q, s, attempt, records, now, eventsRead, outcome, s');
    TimeSurvives(q, s, s');
  }

  lemma BeginKeepsTime(q: Requests, s: System, attempt: nat, flow: FlowId, s': System)
    requires TimesAreInOrder(q, s) && BeginStep(q, s, attempt, flow, s')
    ensures TimesAreInOrder(q, s')
  {
  }

  /** `skip_run` and the state hooks change rows without their identity. */
  lemma HooksKeepTime(q: Requests, s: System, step: Step, s': System)
    requires TableInvariant(s.db.runs) && TimesAreInOrder(q, s) && Next(q, s, step, s')
    requires step.Skip? || step.Fail?
    ensures TimesAreInOrder(q, s')
  {
    match step
    case Skip(run, blockedBy, now, eventsRead) =>
      SkipRunIsQuiet(s.db.runs, run, blockedBy, now, "StaleSnapshot", eventsRead);
      TimeSurvives(q, s, s');
    case Fail(flow, now, stage, errorClass, eventsRead) =>
      FailRunIsQuiet(s.db.runs, flow, now, stage, errorClass, eventsRead);
      TimeSurvives(q, s, s');
  }

  lemma StepKeepsTime(q: Requests, s: System, step: Step, s': System)
    requires IsConsistent(q, s) && Next(q, s, step, s') && TimesAreInOrder(q, s)
    requires InsertsInItsWeek(q, s, step) && ResumesNoLaterRow(q, s, step)
    ensures TimesAreInOrder(q, s')
  {
    match step
    case Tick(_) =>
    case Begin(attempt, flow) => BeginKeepsTime(q, s, attempt, flow, s');
    case Open(attempt, freshId, now, terminal) => OpenKeepsTime(q, s, attempt, freshId, now, terminal, s');
    case Load(attempt, records, now, eventsRead, outcome) =>
      LoadKeepsTime(q, s, attempt, records, now, eventsRead, outcome, s');
    case _ => HooksKeepTime(q, s, step, s');
  }

  lemma OneStepKeepsTime(q: Requests, run: seq<System>, steps: seq<Step>, k: nat)
    requires IsBehaviour(q, run, steps) && IsOnTime(q, run, steps) && k < |steps|
    requires TimesAreInOrder(q, run[k])
    ensures TimesAreInOrder(q, run[k + 1])
  {
    EveryStateIsConsistent(q, run, steps, k);
    assert IsStep(q, run, steps, k);
    StepKeepsTime(q, run[k], steps[k], run[k + 1]);
  }

  lemma {:induction false} EveryStateIsOnTime(q: Requests, run: seq<System>, steps: seq<Step>, n: nat)
    requires IsBehaviour(q, run, steps) && IsOnTime(q, run, steps) && n < |run|
    ensures TimesAreInOrder(q, run[n])
  {
    if n > 0 {
      EveryStateIsOnTime(q, run, steps, n - 1);
      OneStepKeepsTime(q, run, steps, n - 1);
    }
  }

  // --- What being on time gives --------------------------------------------------------

  /** An attempt past the cutoff guard recomputes exactly the weeks its row records. */
  lemma AttemptRecomputesItsRow(q: Requests, s: System, attempt: nat)
    requires IsConsistent(q, s) && TimesAreInOrder(q, s) && attempt in s.attempts
    requires s.attempts[attempt].handle.Some? && s.attempts[attempt].weeks != []
    requires PassesCutoffGuard(s.attempts[attempt].weeks, s.attempts[attempt].handle.value.cutoff)
    ensures RecomputesItsRow(s.db.runs, s.attempts[attempt])
  {
    var a := s.attempts[attempt];
    assert AttemptIsRecorded(q, s.db.runs, a);
    var id := a.handle.value.runId;
    assert RowIsRecorded(q, s.db.runs[id], s.rowClock[id]);
    LaterAttemptAgrees(s.rowClock[id], a.startedAt, s.db.runs[id].cutoff, q(a.flow));
    SameWeeksIff(s.rowClock[id], a.startedAt, q(a.flow));
    RecomputesIff(q, s, attempt);
  }

  /**
   However late a retry comes, in every state of every run that is on time an
   attempt that got past the cutoff guard works on exactly the weeks recorded on its
   row.
   */
  lemma EveryAttemptRecomputesItsRow(q: Requests, run: seq<System>, steps: seq<Step>, n: nat, attempt: nat)
    requires IsBehaviour(q, run, steps) && IsOnTime(q, run, steps) && n < |run| && attempt in run[n].attempts
    requires var a := run[n].attempts[attempt];
             a.handle.Some? && a.weeks != [] && PassesCutoffGuard(a.weeks, a.handle.value.cutoff)
    ensures RecomputesItsRow(run[n].db.runs, run[n].attempts[attempt])
  {
    EveryStateIsConsistent(q, run, steps, n);
    EveryStateIsOnTime(q, run, steps, n);
    AttemptRecomputesItsRow(q, run[n], attempt);
  }

  /** On time, every committed load is of the weeks its row records. */
  lemma OnTimeLoadsMatch(q: Requests, run: seq<System>, steps: seq<Step>)
    requires IsBehaviour(q, run, steps) && IsOnTime(q, run, steps)
    ensures EveryLoadMatches(run, steps)
  {
    forall i | 0 <= i < |steps|
      ensures LoadMatches(run[i], steps[i])
    {
      OnTimeLoadMatches(q, run, steps, i);
    }
  }

  lemma OnTimeLoadMatches(q: Requests, run: seq<System>, steps: seq<Step>, i: nat)
    requires IsBehaviour(q, run, steps) && IsOnTime(q, run, steps) && i < |steps|
    ensures LoadMatches(run[i], steps[i])
  {
    if steps[i].Load? && steps[i].outcome.Loaded? {
      assert IsStep(q, run, steps, i);
      EveryStateIsConsistent(q, run, steps, i);
      EveryAttemptRecomputesItsRow(q, run, steps, i, steps[i].attempt);
      RecomputesIff(q, run[i], steps[i].attempt);
    }
  }

  /** So readers are right in every state of every run that is on time. */
  lemma OnTimeReadersAreRight(q: Requests, run: seq<System>, steps: seq<Step>, n: nat, week: Date)
    requires IsBehaviour(q, run, steps) && IsOnTime(q, run, steps) && n < |run| && IsMonday(week)
    ensures ReadersAreRight(run[n], week)
  {
    OnTimeLoadsMatch(q, run, steps);
    ReadersSeeTheNewestSnapshot(q, run, steps, n, week);
  }
}

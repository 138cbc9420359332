/**
 What readers of the weekly report see, over whole runs.

 The main flow (data/pipelines/pipeline.py) as a state machine. Any number of
 attempts of any number of flow runs interleave, one database transaction at a
 time; an attempt that crashes is one that takes no further step, and a zombie
 is one that still does. The state hooks and `skip_run` may fire at any moment.

 Nothing is asked of the world outside the code. What readers see is right as long
 as each committed load is of the weeks its run's row records; PublicationExact.dfy
 shows that this is also necessary, and PublicationOnTime.dfy when clocks and retries
 bring it about.
 */
module Publication {
  import opened Common
  import opened Weeks
  import opened RunLog
  import opened WeeklyLoad
  import opened WeeklyPublish

  const PIPELINE := "weekly_warehouse_client_performance"
  const NO_TALLY: LoadTally := LoadTally(0, 0, 0, 0, {})

  /** The parameters of each flow run: a retry keeps them. */
  type Requests = FlowId -> WeekRequest

  datatype Attempt = Attempt(
    flow: FlowId, startedAt: Time, weeks: seq<Date>, handle: Option<RunHandle>)

  /** One committed load, as it happened. */
  datatype Commit = Commit(run: RunId, weeksFrom: Date, weeksTo: Date, cutoff: Time, batch: FigureTable)

  /** `rowClock` remembers the worker clock of the attempt that inserted each row. */
  datatype System = System(
    db: Database,
    clock: Time,
    attempts: map<nat, Attempt>,
    rowClock: map<RunId, Time>,
    commits: seq<Commit>)

  datatype Step =
    | Tick(clock: Time)
    | Begin(attempt: nat, flow: FlowId)
    | Open(attempt: nat, freshId: RunId, now: Time, terminal: FlowOracle)
    | Load(attempt: nat, records: seq<Record>, now: Time, eventsRead: Option<nat>, outcome: LoadOutcome)
    | Skip(run: RunId, blockedBy: RunId, now: Time, eventsRead: Option<nat>)
    | Fail(flow: FlowId, now: Time, stage: Option<ErrorStage>, errorClass: string, eventsRead: Option<nat>)

  ghost predicate Init(s: System) {
    s == System(Database(map[], map[], []), s.clock, map[], map[], [])
  }

  // --- The steps -----------------------------------------------------------------------

  /** An attempt starts: it reads the worker clock and computes its weeks. */
  ghost predicate BeginStep(q: Requests, s: System, attempt: nat, flow: FlowId, s': System) {
    && attempt !in s.attempts
    && ClosedWeeks(s.clock, q(flow)).Success?
    && s' == s.(attempts := s.attempts[
                  attempt := Attempt(flow, s.clock, ClosedWeeks(s.clock, q(flow)).value, None)])
  }

  function RequestOf(a: Attempt, now: Time, freshId: RunId): OpenRequest
    requires a.weeks != []
  {
    OpenRequest(PIPELINE, a.flow, MinWeek(a.weeks), MaxWeek(a.weeks), now, freshId)
  }

  function RowClockAfter(
    rowClock: map<RunId, Time>, request: OpenRequest, result: OpenResult, a: Attempt): map<RunId, Time>
  {
    if request.freshId in result.table then rowClock[request.freshId := a.startedAt] else rowClock
  }

  function AttemptsAfter(attempts: map<nat, Attempt>, attempt: nat, result: OpenResult): map<nat, Attempt>
    requires attempt in attempts
  {
    if result.answer.Success?
    then attempts[attempt := attempts[attempt].(handle := Some(result.answer.value))]
    else attempts
  }

  /** The `open_run` task: committed, possibly more than once when its answer is lost. */
  ghost predicate OpenStep(s: System, attempt: nat, freshId: RunId, now: Time, terminal: FlowOracle, s': System) {
    && attempt in s.attempts && s.attempts[attempt].weeks != []
    && freshId !in s.db.runs
    && var a := s.attempts[attempt];
       var request := RequestOf(a, now, freshId);
       var result := OpenRun(s.db.runs, request, terminal);
       && s' == s.(db := s.db.(runs := result.table),
                   rowClock := RowClockAfter(s.rowClock, request, result, a),
                   attempts := AttemptsAfter(s.attempts, attempt, result))
  }

  /** The load, reached only by a running handle past the cutoff guard and the validation gate. */
  ghost predicate LoadStep(
    s: System, attempt: nat, records: seq<Record>, now: Time, eventsRead: Option<nat>,
    outcome: LoadOutcome, s': System)
  {
    && attempt in s.attempts
    && var a := s.attempts[attempt];
       && a.handle.Some? && a.handle.value.status == Running
       && ValidBatch(records, a.weeks)
       && PassesCutoffGuard(a.weeks, a.handle.value.cutoff)
       && var r := LoadRequestOf(a, records, eventsRead);
          && LoadTransaction(s.db, r, now, s'.db, outcome)
          && s' == s.(db := s'.db,
                      commits := if outcome.Loaded? then s.commits + [CommitOf(r)] else s.commits)
  }

  ghost predicate Next(q: Requests, s: System, step: Step, s': System) {
    match step
    case Tick(clock) => s' == s.(clock := clock)
    case Begin(attempt, flow) => BeginStep(q, s, attempt, flow, s')
    case Open(attempt, freshId, now, terminal) => OpenStep(s, attempt, freshId, now, terminal, s')
    case Load(attempt, records, now, eventsRead, outcome) => LoadStep(s, attempt, records, now, eventsRead, outcome, s')
    case Skip(run, blockedBy, now, eventsRead) =>
      s' == s.(db := s.db.(runs := SkipRun(s.db.runs, run, blockedBy, now, "StaleSnapshot", eventsRead)))
    case Fail(flow, now, stage, errorClass, eventsRead) =>
      s' == s.(db := s.db.(runs := FailRun(s.db.runs, flow, now, stage, errorClass, eventsRead).0))
  }

  ghost predicate IsStep(q: Requests, run: seq<System>, steps: seq<Step>, i: nat)
    requires |run| == |steps| + 1 && i < |steps|
  {
    Next(q, run[i], steps[i], run[i + 1])
  }

  /** A finite run of the system: its states and the steps between them. */
  ghost predicate IsBehaviour(q: Requests, run: seq<System>, steps: seq<Step>) {
    && |run| == |steps| + 1
    && Init(run[0])
    && forall i :: 0 <= i < |steps| ==> IsStep(q, run, steps, i)
  }

  // --- What rows and attempts record ---------------------------------------------------

  /** A row records the weeks its first attempt computed. */
  ghost predicate RowIsRecorded(q: Requests, run: Run, openedAt: Time) {
    && run.pipeline == PIPELINE
    && run.flow.Some?
    && ClosedWeeks(openedAt, q(run.flow.value)).Success?
    && var weeks := ClosedWeeks(openedAt, q(run.flow.value)).value;
       weeks != [] && run.weeksFrom == MinWeek(weeks) && run.weeksTo == MaxWeek(weeks)
  }

  ghost predicate RowsAreRecorded(q: Requests, runs: RunTable, rowClock: map<RunId, Time>) {
    && TableInvariant(runs)
    && rowClock.Keys == runs.Keys
    && forall id :: id in runs ==> RowIsRecorded(q, runs[id], rowClock[id])
  }

  ghost predicate AttemptIsRecorded(q: Requests, runs: RunTable, a: Attempt) {
    && ClosedWeeks(a.startedAt, q(a.flow)) == Success(a.weeks)
    && (a.handle.Some? ==>
          && BelongsTo(runs, a.flow, a.handle.value.runId)
          && a.handle.value.cutoff == runs[a.handle.value.runId].cutoff)
  }

  ghost predicate AttemptsAreRecorded(q: Requests, runs: RunTable, attempts: map<nat, Attempt>) {
    forall a :: a in attempts ==> AttemptIsRecorded(q, runs, attempts[a])
  }

  /** What every state keeps, whatever loads its runs make. */
  ghost predicate IsConsistent(q: Requests, s: System) {
    && RowsAreRecorded(q, s.db.runs, s.rowClock)
    && AttemptsAreRecorded(q, s.db.runs, s.attempts)
    && IsFaithful(s.db.history) && Replay(s.db.history) == FiguresOf(s.db.cells)
  }

  ghost predicate OnlyAdds(before: System, after: System) {
    && before.commits <= after.commits && before.db.history <= after.db.history
    && Evolves(before.db.runs, after.db.runs)
  }

  /** Rows keep their identity, so rows and attempts still record what they did. */
  lemma RecordsSurvive(q: Requests, s: System, s': System)
    requires IsConsistent(q, s) && TableInvariant(s'.db.runs) && Evolves(s.db.runs, s'.db.runs)
    requires s'.db.runs.Keys == s.db.runs.Keys && s'.rowClock == s.rowClock && s'.attempts == s.attempts
    ensures RowsAreRecorded(q, s'.db.runs, s'.rowClock) && AttemptsAreRecorded(q, s'.db.runs, s'.attempts)
  {
  }

  lemma OpenedRowsAreRecorded(
    q: Requests, runs: RunTable, rowClock: map<RunId, Time>, a: Attempt, request: OpenRequest, result: OpenResult)
    requires RowsAreRecorded(q, runs, rowClock)
    requires AttemptIsRecorded(q, runs, a) && a.weeks != []
    requires OpenShape(runs, request, result) && request.freshId !in runs
    requires request.pipeline == PIPELINE && request.flow == a.flow
    requires request.weeksFrom == MinWeek(a.weeks) && request.weeksTo == MaxWeek(a.weeks)
    ensures RowsAreRecorded(q, result.table, RowClockAfter(rowClock, request, result, a))
  {
    var rowClock' := RowClockAfter(rowClock, request, result, a);
    forall id | id in result.table
      ensures id in rowClock' && RowIsRecorded(q, result.table[id], rowClock'[id])
    {
      if id in runs {
        assert RowIsRecorded(q, runs[id], rowClock[id]);
        assert SameIdentity(runs[id], result.table[id]);
      }
    }
  }

  lemma OpenedAttemptsAreRecorded(
    q: Requests, runs: RunTable, attempts: map<nat, Attempt>, attempt: nat, request: OpenRequest, result: OpenResult)
    requires AttemptsAreRecorded(q, runs, attempts)
    requires attempt in attempts && request.flow == attempts[attempt].flow && OpenShape(runs, request, result)
    ensures AttemptsAreRecorded(q, result.table, AttemptsAfter(attempts, attempt, result))
  {
  }

  lemma OpenOnlyAdds(
    q: Requests, s: System, attempt: nat, freshId: RunId, now: Time, terminal: FlowOracle, s': System)
    requires IsConsistent(q, s) && OpenStep(s, attempt, freshId, now, terminal, s')
    ensures IsConsistent(q, s') && OnlyAdds(s, s')
  {
    var a := s.attempts[attempt];
    var request := RequestOf(a, now, freshId);
    OpenRunHasShape(s.db.runs, request, terminal);
    var result := OpenRun(s.db.runs, request, terminal);
    OpenedRowsAreRecorded(q, s.db.runs, s.rowClock, a, request, result);
    OpenedAttemptsAreRecorded(q, s.db.runs, s.attempts, attempt, request, result);
  }

  function LoadRequestOf(a: Attempt, records: seq<Record>, eventsRead: Option<nat>): LoadRequest
    requires a.handle.Some?
  {
    LoadRequest(PIPELINE, a.handle.value.runId, a.handle.value.cutoff, a.weeks, records, eventsRead)
  }

  lemma PublishCompletesTheRun(before: Database, r: LoadRequest, now: Time, tally: LoadTally, after: Database)
    requires r.weeks != [] && LoadTransaction(before, r, now, after, Loaded(tally))
    requires TableInvariant(before.runs)
    ensures TableInvariant(after.runs) && Evolves(before.runs, after.runs)
    ensures after.runs.Keys == before.runs.Keys
    ensures r.run in before.runs && before.runs[r.run].status == Running && after.runs[r.run].status == Completed
    ensures forall id :: id in after.runs && id != r.run ==> after.runs[id] == before.runs[id]
    ensures !HasLaterRun(before.runs, r)
    ensures after.cells == PublishedTable(before.cells, BatchMap(r.records), r.weeks, now)
    ensures HistoryGrows(before, after, r.run)
  {
    CompleteRunKeepsInvariant(before.runs, r.run, now, tally, r.eventsRead);
  }

  lemma GrownHistoryIsFaithful(
    history: seq<Revision>, grown: seq<Revision>, run: RunId, before: FigureTable, after: FigureTable)
    requires history <= grown && IsChangeLog(grown[|history|..], run, before, after)
    requires IsFaithful(history) && Replay(history) == before
    ensures IsFaithful(grown) && Replay(grown) == after
  {
    var log := grown[|history|..];
    assert grown == history + log;
    HistoryStaysFaithful(history, log, run, before, after);
  }

  lemma LoadOnlyAdds(
    q: Requests, s: System, attempt: nat, records: seq<Record>, now: Time, eventsRead: Option<nat>,
    outcome: LoadOutcome, s': System)
    requires IsConsistent(q, s) && LoadStep(s, attempt, records, now, eventsRead, outcome, s')
    ensures IsConsistent(q, s') && OnlyAdds(s, s')
    ensures s'.db.runs.Keys == s.db.runs.Keys && s'.rowClock == s.rowClock && s'.attempts == s.attempts
  {
    if outcome.Loaded? {
      var r := LoadRequestOf(s.attempts[attempt], records, eventsRead);
      PublishCompletesTheRun(s.db, r, now, outcome.tally, s'.db);
      GrownHistoryIsFaithful(s.db.history, s'.db.history, r.run, FiguresOf(s.db.cells), FiguresOf(s'.db.cells));
      RecordsSurvive(q, s, s');
    }
  }

  lemma StepOnlyAdds(q: Requests, s: System, step: Step, s': System)
    requires IsConsistent(q, s) && Next(q, s, step, s')
    ensures IsConsistent(q, s') && OnlyAdds(s, s')
  {
    match step
    case Open(attempt, freshId, now, terminal) => OpenOnlyAdds(q, s, attempt, freshId, now, terminal, s');
    case Load(attempt, records, now, eventsRead, outcome) =>
      LoadOnlyAdds(q, s, attempt, records, now, eventsRead, outcome, s');
    case Skip(run, blockedBy, now, eventsRead) =>
      SkipRunIsQuiet(s.db.runs, run, blockedBy, now, "StaleSnapshot", eventsRead);
      RecordsSurvive(q, s, s');
    case Fail(flow, now, stage, errorClass, eventsRead) =>
      FailRunIsQuiet(s.db.runs, flow, now, stage, errorClass, eventsRead);
      RecordsSurvive(q, s, s');
    case _ =>
  }

  /**
   In every reachable state one run at most holds the slot, a flow run has one row,
   rows and attempts record the weeks they were computed with, and replaying the
   audit trail from an empty table gives the published figures.
   */
  lemma {:induction false} EveryStateIsConsistent(q: Requests, run: seq<System>, steps: seq<Step>, n: nat)
    requires IsBehaviour(q, run, steps) && n < |run|
    ensures IsConsistent(q, run[n])
  {
    if n > 0 {
      EveryStateIsConsistent(q, run, steps, n - 1);
      assert IsStep(q, run, steps, n - 1);
      StepOnlyAdds(q, run[n - 1], steps[n - 1], run[n]);
    }
  }

  lemma OneStepOnlyAdds(q: Requests, run: seq<System>, steps: seq<Step>, k: nat)
    requires IsBehaviour(q, run, steps) && k < |steps|
    ensures OnlyAdds(run[k], run[k + 1])
  {
    EveryStateIsConsistent(q, run, steps, k);
    assert IsStep(q, run, steps, k);
    StepOnlyAdds(q, run[k], steps[k], run[k + 1]);
  }

  lemma AddingComposes(a: System, b: System, c: System)
    requires OnlyAdds(a, b) && OnlyAdds(b, c)
    ensures OnlyAdds(a, c)
  {
  }

  /**
   Over any stretch of a run: rows keep their identity and cutoff, `completed` and
   `skipped` are final, and neither the commits nor the audit trail lose an entry.
   */
  lemma {:induction false} BehaviourOnlyAdds(q: Requests, run: seq<System>, steps: seq<Step>, i: nat, j: nat)
    requires IsBehaviour(q, run, steps) && i <= j < |run|
    ensures OnlyAdds(run[i], run[j])
  {
    if i < j {
      BehaviourOnlyAdds(q, run, steps, i, j - 1);
      OneStepOnlyAdds(q, run, steps, j - 1);
      AddingComposes(run[i], run[j - 1], run[j]);
    }
  }

  // --- When an attempt recomputes its row ----------------------------------------------

  /** The week of the worker clock when the attempt's weeks were computed is that of its row's weeks. */
  predicate SharesItsRowsWeek(q: Requests, s: System, a: Attempt)
    requires a.handle.Some? && a.handle.value.runId in s.rowClock
  {
    q(a.flow).weekStart.Some? || WeekStartOf(s.rowClock[a.handle.value.runId]) == WeekStartOf(a.startedAt)
  }

  /** The attempt works on exactly the weeks its row records: all Mondays from `weeks_from` to `weeks_to`. */
  ghost predicate RecomputesItsRow(runs: RunTable, a: Attempt) {
    && a.handle.Some? && a.handle.value.runId in runs
    && var row := runs[a.handle.value.runId];
       && row.pipeline == PIPELINE && row.cutoff == a.handle.value.cutoff
       && WeeksBetween(row.weeksFrom, row.weeksTo) == Success(a.weeks)
       && IsEveryMonday(a.weeks, row.weeksFrom, row.weeksTo)
  }

  /** The first and the last of the attempt's weeks are those of its row: a check the load could make. */
  predicate MatchesItsRow(runs: RunTable, a: Attempt) {
    && a.handle.Some? && a.handle.value.runId in runs && a.weeks != []
    && runs[a.handle.value.runId].weeksFrom == MinWeek(a.weeks)
    && runs[a.handle.value.runId].weeksTo == MaxWeek(a.weeks)
  }

  /**
   Exactly when an attempt with a row recomputes that row's weeks, in every state of
   every run, however late the attempt and whatever the clocks: when the run names
   its week, or the row's weeks were computed in the same UTC week. Comparing the
   ends of both is enough to tell.
   */
  lemma AttemptRecomputesItsRowIff(q: Requests, run: seq<System>, steps: seq<Step>, n: nat, attempt: nat)
    requires IsBehaviour(q, run, steps) && n < |run| && attempt in run[n].attempts
    requires run[n].attempts[attempt].handle.Some?
    ensures var a := run[n].attempts[attempt];
            && a.handle.value.runId in run[n].rowClock
            && (RecomputesItsRow(run[n].db.runs, a) <==> SharesItsRowsWeek(q, run[n], a))
            && (RecomputesItsRow(run[n].db.runs, a) <==> MatchesItsRow(run[n].db.runs, a))
  {
    var a := run[n].attempts[attempt];
    EveryStateIsConsistent(q, run, steps, n);
    RecomputesIff(q, run[n], attempt);
  }

  lemma RecomputesIff(q: Requests, s: System, attempt: nat)
    requires IsConsistent(q, s) && attempt in s.attempts && s.attempts[attempt].handle.Some?
    ensures var a := s.attempts[attempt];
            && a.handle.value.runId in s.rowClock
            && (RecomputesItsRow(s.db.runs, a) <==> SharesItsRowsWeek(q, s, a))
            && (RecomputesItsRow(s.db.runs, a) <==> MatchesItsRow(s.db.runs, a))
  {
    var a := s.attempts[attempt];
    assert AttemptIsRecorded(q, s.db.runs, a);
    var id := a.handle.value.runId;
    assert RowIsRecorded(q, s.db.runs[id], s.rowClock[id]);
    var row := s.db.runs[id];
    ClosedWeeksAreEveryMonday(s.rowClock[id], q(a.flow));
    ClosedWeeksAreEveryMonday(a.startedAt, q(a.flow));
    SameWeeksIff(s.rowClock[id], a.startedAt, q(a.flow));
  }

  // --- What the invariant says of the loads so far --------------------------------------

  predicate CommitCovers(c: Commit, week: Date) {
    IsMonday(week) && c.weeksFrom <= week <= c.weeksTo
  }

  predicate Overlap(c: Commit, d: Commit) {
    c.weeksFrom <= d.weeksTo && d.weeksFrom <= c.weeksTo
  }

  ghost predicate CommitMatchesRow(t: RunTable, c: Commit) {
    && c.run in t
    && t[c.run].status == Completed
    && t[c.run].pipeline == PIPELINE
    && c.weeksFrom == t[c.run].weeksFrom && c.weeksTo == t[c.run].weeksTo
    && c.cutoff == t[c.run].cutoff
    && forall k :: k in c.batch ==> CommitCovers(c, k.weekStart)
  }

  predicate IsCommitOf(commits: seq<Commit>, run: RunId, i: nat) {
    i < |commits| && commits[i].run == run
  }

  /** Of two commits that share a week, the later one read a snapshot at least as new. */
  ghost predicate CommitsInOrder(commits: seq<Commit>) {
    forall i, j :: 0 <= i < j < |commits| && Overlap(commits[i], commits[j]) ==> commits[i].cutoff <= commits[j].cutoff
  }

  ghost predicate CommitsInvariant(runs: RunTable, commits: seq<Commit>) {
    && (forall i :: 0 <= i < |commits| ==> CommitMatchesRow(runs, commits[i]))
    && (forall id :: id in runs && runs[id].status == Completed ==> exists i :: IsCommitOf(commits, id, i))
    && (forall i, j :: 0 <= i < j < |commits| ==> commits[i].run != commits[j].run)
    && CommitsInOrder(commits)
  }

  /** The last committed load that covers the week. */
  function LastCover(commits: seq<Commit>, week: Date): Option<nat> {
    if commits == [] then None
    else if CommitCovers(commits[|commits| - 1], week) then Some(|commits| - 1)
    else LastCover(commits[..|commits| - 1], week)
  }

  ghost predicate WeekIsPublished(cells: ReportTable, commits: seq<Commit>, week: Date) {
    var rows := WeekOf(FiguresOf(cells), week);
    match LastCover(commits, week)
    case None => rows == map[]
    case Some(i) => i < |commits| && rows == WeekOf(commits[i].batch, week)
  }

  ghost predicate WeeksArePublished(cells: ReportTable, commits: seq<Commit>) {
    forall week :: WeekIsPublished(cells, commits, week)
  }

  /** A committed load is of the weeks its row records. */
  predicate LoadMatches(s: System, step: Step) {
    step.Load? && step.outcome.Loaded? && step.attempt in s.attempts ==>
      MatchesItsRow(s.db.runs, s.attempts[step.attempt])
  }

  predicate EveryLoadMatches(run: seq<System>, steps: seq<Step>)
    requires |run| == |steps| + 1
  {
    forall i :: 0 <= i < |steps| ==> LoadMatches(run[i], steps[i])
  }

  ghost predicate Invariant(q: Requests, s: System) {
    && IsConsistent(q, s)
    && CommitsInvariant(s.db.runs, s.commits)
    && WeeksArePublished(s.db.cells, s.commits)
  }

  // --- Every step keeps the invariant ---------------------------------------------------

  lemma {:induction false} LastCoverIsLast(commits: seq<Commit>, week: Date)
    ensures LastCover(commits, week).None? <==> forall i :: 0 <= i < |commits| ==> !CommitCovers(commits[i], week)
    ensures var last := LastCover(commits, week);
            last.Some? ==>
              && last.value < |commits| && CommitCovers(commits[last.value], week)
              && forall i :: last.value < i < |commits| ==> !CommitCovers(commits[i], week)
  {
    if commits != [] {
      var front := commits[..|commits| - 1];
      LastCoverIsLast(front, week);
    }
  }

  lemma CommitsSurvive(runs: RunTable, after: RunTable, commits: seq<Commit>)
    requires CommitsInvariant(runs, commits) && Evolves(runs, after)
    requires forall id :: id in after && after[id].status == Completed ==> id in runs && runs[id].status == Completed
    ensures CommitsInvariant(after, commits)
  {
    forall i | 0 <= i < |commits|
      ensures CommitMatchesRow(after, commits[i])
    {
      assert CommitMatchesRow(runs, commits[i]);
    }
  }

  function CommitOf(r: LoadRequest): Commit
    requires r.weeks != []
  {
    Commit(r.run, MinWeek(r.weeks), MaxWeek(r.weeks), r.cutoff, BatchMap(r.records))
  }

  /** A new commit read a snapshot no earlier than any commit whose weeks it shares. */
  lemma CommitsGrow(before: RunTable, commits: seq<Commit>, r: LoadRequest, after: RunTable)
    requires r.weeks != [] && r.pipeline == PIPELINE
    requires CommitsInvariant(before, commits) && Evolves(before, after)
    requires forall id :: id in after && id != r.run ==> id in before && after[id] == before[id]
    requires r.run in before && before[r.run].status != Completed
    requires !HasLaterRun(before, r)
    requires CommitMatchesRow(after, CommitOf(r))
    ensures CommitsInvariant(after, commits + [CommitOf(r)])
  {
    var last, grown := CommitOf(r), commits + [CommitOf(r)];
    forall i | 0 <= i < |commits|
      ensures CommitMatchesRow(after, commits[i])
      ensures commits[i].run != r.run
      ensures Overlap(commits[i], last) ==> commits[i].cutoff <= last.cutoff
    {
      assert !ReadLaterSnapshot(before, commits[i].run, PIPELINE, r.run, r.cutoff, r.weeks);
    }
    forall id | id in after && after[id].status == Completed
      ensures exists i :: IsCommitOf(grown, id, i)
    {
      if id == r.run {
        assert IsCommitOf(grown, id, |commits|);
      } else {
        var i :| IsCommitOf(commits, id, i);
        assert IsCommitOf(grown, id, i);
      }
    }
  }

  lemma WeekStaysPublished(
    before: ReportTable, commits: seq<Commit>, r: LoadRequest, now: Time, after: ReportTable, week: Date)
    requires ValidBatch(r.records, r.weeks) && IsEveryMonday(r.weeks, MinWeek(r.weeks), MaxWeek(r.weeks))
    requires after == PublishedTable(before, BatchMap(r.records), r.weeks, now)
    requires WeekIsPublished(before, commits, week)
    ensures WeekIsPublished(after, commits + [CommitOf(r)], week)
  {
    ValidBatchStaysIn(r.records, r.weeks);
    var grown := commits + [CommitOf(r)];
    assert grown[..|grown| - 1] == commits;
    assert CommitCovers(CommitOf(r), week) <==> week in r.weeks;
    if week in r.weeks {
      LoadReplacesExactlyItsWeeks(before, BatchMap(r.records), r.weeks, now, week);
    } else {
      UnpublishedWeeksKeepFigures(before, BatchMap(r.records), r.weeks, now, week);
    }
  }

  lemma WeeksStayPublished(
    before: ReportTable, commits: seq<Commit>, r: LoadRequest, now: Time, after: ReportTable)
    requires ValidBatch(r.records, r.weeks) && IsEveryMonday(r.weeks, MinWeek(r.weeks), MaxWeek(r.weeks))
    requires after == PublishedTable(before, BatchMap(r.records), r.weeks, now)
    requires WeeksArePublished(before, commits)
    ensures WeeksArePublished(after, commits + [CommitOf(r)])
  {
    forall week
      ensures WeekIsPublished(after, commits + [CommitOf(r)], week)
    {
      WeekStaysPublished(before, commits, r, now, after, week);
    }
  }

  /** The weeks a row records are the ends of the attempt's weeks. */
  lemma RowHoldsTheEnds(runs: RunTable, a: Attempt)
    requires RecomputesItsRow(runs, a) && a.weeks != []
    ensures var row := runs[a.handle.value.runId];
            && row.weeksFrom == MinWeek(a.weeks) && row.weeksTo == MaxWeek(a.weeks)
            && IsEveryMonday(a.weeks, MinWeek(a.weeks), MaxWeek(a.weeks))
  {
    var row := runs[a.handle.value.runId];
    assert row.weeksFrom in a.weeks && row.weeksTo in a.weeks;
  }

  /** A committed load, given what the transaction did to the run log. */
  lemma CommitKeepsCommits(before: RunTable, commits: seq<Commit>, a: Attempt, r: LoadRequest, after: RunTable)
    requires CommitsInvariant(before, commits) && RecomputesItsRow(before, a)
    requires r.weeks == a.weeks && ValidBatch(r.records, r.weeks)
    requires r.pipeline == PIPELINE && r.run == a.handle.value.runId && r.cutoff == a.handle.value.cutoff
    requires !HasLaterRun(before, r) && Evolves(before, after)
    requires forall id :: id in after && id != r.run ==> id in before && after[id] == before[id]
    requires before[r.run].status == Running && after[r.run].status == Completed
    ensures CommitsInvariant(after, commits + [CommitOf(r)])
  {
    RowHoldsTheEnds(before, a);
    ValidBatchStaysIn(r.records, r.weeks);
    CommitsGrow(before, commits, r, after);
  }

  lemma LoadKeeps(
    q: Requests, s: System, attempt: nat, records: seq<Record>, now: Time, eventsRead: Option<nat>,
    outcome: LoadOutcome, s': System)
    requires Invariant(q, s) && LoadStep(s, attempt, records, now, eventsRead, outcome, s')
    requires outcome.Loaded? ==> MatchesItsRow(s.db.runs, s.attempts[attempt])
    ensures Invariant(q, s')
  {
    LoadOnlyAdds(q, s, attempt, records, now, eventsRead, outcome, s');
    if outcome.Loaded? {
      var r := LoadRequestOf(s.attempts[attempt], records, eventsRead);
      PublishCompletesTheRun(s.db, r, now, outcome.tally, s'.db);
      RecomputesIff(q, s, attempt);
      CommitKeepsCommits(s.db.runs, s.commits, s.attempts[attempt], r, s'.db.runs);
      RowHoldsTheEnds(s.db.runs, s.attempts[attempt]);
      WeeksStayPublished(s.db.cells, s.commits, r, now, s'.db.cells);
    }
  }

  /** A transaction that completes no run and inserts no row. */
  lemma QuietChangeKeeps(q: Requests, s: System, runs: RunTable)
    requires Invariant(q, s) && IsQuietChange(s.db.runs, runs)
    ensures Invariant(q, s.(db := s.db.(runs := runs)))
  {
    var s' := s.(db := s.db.(runs := runs));
    RecordsSurvive(q, s, s');
    CommitsSurvive(s.db.runs, runs, s.commits);
  }

  lemma OpenKeeps(q: Requests, s: System, attempt: nat, freshId: RunId, now: Time, terminal: FlowOracle, s': System)
    requires Invariant(q, s) && OpenStep(s, attempt, freshId, now, terminal, s')
    ensures Invariant(q, s')
  {
    OpenOnlyAdds(q, s, attempt, freshId, now, terminal, s');
    OpenRunHasShape(s.db.runs, RequestOf(s.attempts[attempt], now, freshId), terminal);
    CommitsSurvive(s.db.runs, s'.db.runs, s.commits);
  }

  lemma BeginKeeps(q: Requests, s: System, attempt: nat, flow: FlowId, s': System)
    requires Invariant(q, s) && BeginStep(q, s, attempt, flow, s')
    ensures Invariant(q, s')
  {
  }

  lemma StepKeepsInvariant(q: Requests, s: System, step: Step, s': System)
    requires Invariant(q, s) && Next(q, s, step, s') && LoadMatches(s, step)
    ensures Invariant(q, s')
  {
    match step
    case Begin(attempt, flow) => BeginKeeps(q, s, attempt, flow, s');
    case Open(attempt, freshId, now, terminal) => OpenKeeps(q, s, attempt, freshId, now, terminal, s');
    case Load(attempt, records, now, eventsRead, outcome) =>
      LoadKeeps(q, s, attempt, records, now, eventsRead, outcome, s');
    case Skip(run, blockedBy, now, eventsRead) =>
      SkipRunIsQuiet(s.db.runs, run, blockedBy, now, "StaleSnapshot", eventsRead);
      QuietChangeKeeps(q, s, s'.db.runs);
    case Fail(flow, now, stage, errorClass, eventsRead) =>
      FailRunIsQuiet(s.db.runs, flow, now, stage, errorClass, eventsRead);
      QuietChangeKeeps(q, s, s'.db.runs);
    case Tick(_) =>
  }

  lemma {:induction false} BehaviourKeepsInvariant(q: Requests, run: seq<System>, steps: seq<Step>, n: nat)
    requires IsBehaviour(q, run, steps) && EveryLoadMatches(run, steps) && n < |run|
    ensures Invariant(q, run[n])
  {
    if n == 0 {
      assert FiguresOf(map[]) == map[];
      assert forall week :: WeekOf(map[], week) == map[];
    } else {
      BehaviourKeepsInvariant(q, run, steps, n - 1);
      assert IsStep(q, run, steps, n - 1);
      StepKeepsInvariant(q, run[n - 1], steps[n - 1], run[n]);
    }
  }

  // --- What readers see ----------------------------------------------------------------

  /** The run behind a week: it covers it, nothing newer does, and nothing later committed it. */
  ghost predicate IsBehind(runs: RunTable, commits: seq<Commit>, week: Date, i: nat) {
    && i < |commits|
    && ComputesWeek(runs, PIPELINE, week, commits[i].run)
    && runs[commits[i].run].cutoff == commits[i].cutoff
    && (forall id :: ComputesWeek(runs, PIPELINE, week, id) ==> runs[id].cutoff <= commits[i].cutoff)
    && (forall j :: i < j < |commits| ==> !CommitCovers(commits[j], week))
  }

  lemma CommitBehind(runs: RunTable, commits: seq<Commit>, week: Date, id: RunId) returns (i: nat)
    requires CommitsInvariant(runs, commits) && IsMonday(week) && ComputesWeek(runs, PIPELINE, week, id)
    ensures IsCommitOf(commits, id, i) && CommitCovers(commits[i], week)
    ensures commits[i].cutoff == runs[id].cutoff
  {
    i :| IsCommitOf(commits, id, i);
  }

  lemma LastCoverIsBehind(runs: RunTable, commits: seq<Commit>, week: Date, last: nat)
    requires CommitsInvariant(runs, commits) && LastCover(commits, week) == Some(last)
    ensures IsBehind(runs, commits, week, last)
  {
    LastCoverIsLast(commits, week);
    assert CommitMatchesRow(runs, commits[last]);
    forall id | ComputesWeek(runs, PIPELINE, week, id)
      ensures runs[id].cutoff <= commits[last].cutoff
    {
      var i := CommitBehind(runs, commits, week, id);
      assert i <= last;
    }
  }

  lemma CoveredMeansCommitted(runs: RunTable, commits: seq<Commit>, week: Date)
    requires CommitsInvariant(runs, commits) && IsMonday(week)
    ensures IsWeekComputed(runs, PIPELINE, week) <==> LastCover(commits, week).Some?
    ensures LastCover(commits, week).Some? ==> IsBehind(runs, commits, week, LastCover(commits, week).value)
  {
    var last := LastCover(commits, week);
    if last.Some? {
      LastCoverIsBehind(runs, commits, week, last.value);
    } else {
      LastCoverIsLast(commits, week);
      forall id
        ensures !ComputesWeek(runs, PIPELINE, week, id)
      {
        if ComputesWeek(runs, PIPELINE, week, id) {
          var i := CommitBehind(runs, commits, week, id);
        }
      }
    }
  }

  /** The rows of a computed week are those of the load behind it; another week has none. */
  ghost predicate ReadersAreRight(s: System, week: Date) {
    var rows := WeekOf(FiguresOf(s.db.cells), week);
    if IsWeekComputed(s.db.runs, PIPELINE, week)
    then exists i: nat :: IsBehind(s.db.runs, s.commits, week, i) && rows == WeekOf(s.commits[i].batch, week)
    else rows == map[]
  }

  lemma InvariantMakesReadersRight(q: Requests, s: System, week: Date)
    requires Invariant(q, s) && IsMonday(week)
    ensures ReadersAreRight(s, week)
  {
    CoveredMeansCommitted(s.db.runs, s.commits, week);
    assert WeekIsPublished(s.db.cells, s.commits, week);
  }

  /**
   In every reachable state, the published rows of a computed week are exactly the
   rows loaded by the completed run with the greatest cutoff covering it - the last
   of them to commit - and a week no completed run covers has no rows.
   */
  lemma ReadersSeeTheNewestSnapshot(q: Requests, run: seq<System>, steps: seq<Step>, n: nat, week: Date)
    requires IsBehaviour(q, run, steps) && EveryLoadMatches(run, steps) && n < |run| && IsMonday(week)
    ensures ReadersAreRight(run[n], week)
  {
    BehaviourKeepsInvariant(q, run, steps, n);
    InvariantMakesReadersRight(q, run[n], week);
  }

  // --- A run that is not running publishes nothing --------------------------------------

  /** The step is an `open_run` of the row's own flow run. */
  predicate OpensRowOf(s: System, step: Step, flow: Option<FlowId>) {
    step.Open? && step.attempt in s.attempts && flow == Some(s.attempts[step.attempt].flow)
  }

  lemma OpeningSparesOthers(t: RunTable, request: OpenRequest, terminal: FlowOracle, id: RunId)
    requires id in t && t[id].status != Running && t[id].flow != Some(request.flow) && request.freshId !in t
    ensures id in OpenRun(t, request, terminal).table && OpenRun(t, request, terminal).table[id] == t[id]
  {
  }

  lemma StoppedRowStays(q: Requests, s: System, step: Step, s': System, id: RunId)
    requires IsConsistent(q, s) && Next(q, s, step, s')
    requires id in s.db.runs && s.db.runs[id].status != Running && !OpensRowOf(s, step, s.db.runs[id].flow)
    ensures id in s'.db.runs && s'.db.runs[id] == s.db.runs[id]
  {
    match step
    case Open(attempt, freshId, now, terminal) =>
      OpeningSparesOthers(s.db.runs, RequestOf(s.attempts[attempt], now, freshId), terminal, id);
    case Load(attempt, records, now, eventsRead, outcome) =>
      if outcome.Loaded? {
        var r := LoadRequestOf(s.attempts[attempt], records, eventsRead);
        PublishCompletesTheRun(s.db, r, now, outcome.tally, s'.db);
      }
    case Skip(run, blockedBy, now, eventsRead) =>
      OnlyOpenRunReopens(s.db.runs, id, run, 0, blockedBy, now, NO_TALLY, None, "StaleSnapshot", eventsRead);
    case Fail(flow, now, stage, errorClass, eventsRead) =>
      OnlyOpenRunReopens(s.db.runs, id, id, flow, id, now, NO_TALLY, stage, errorClass, eventsRead);
    case _ =>
  }

  /** Between `i` and `j` no attempt of the row's flow run opens it. */
  predicate NobodyReopens(run: seq<System>, steps: seq<Step>, flow: Option<FlowId>, i: nat, j: nat)
    requires |run| == |steps| + 1 && i <= j < |run|
  {
    forall k :: i <= k < j ==> !OpensRowOf(run[k], steps[k], flow)
  }

  lemma {:induction false} StoppedRowStaysAsItIs(
    q: Requests, run: seq<System>, steps: seq<Step>, i: nat, j: nat, id: RunId)
    requires IsBehaviour(q, run, steps) && i <= j < |run|
    requires id in run[i].db.runs && run[i].db.runs[id].status != Running
    requires NobodyReopens(run, steps, run[i].db.runs[id].flow, i, j)
    ensures id in run[j].db.runs && run[j].db.runs[id] == run[i].db.runs[id]
  {
    if i < j {
      StoppedRowStaysAsItIs(q, run, steps, i, j - 1, id);
      EveryStateIsConsistent(q, run, steps, j - 1);
      assert IsStep(q, run, steps, j - 1);
      StoppedRowStays(q, run[j - 1], steps[j - 1], run[j], id);
    }
  }

  /**
   A zombie publishes nothing: from the moment a run's row is swept, failed, skipped
   or completed, until an attempt of the same flow run reopens it, its row stays as it
   is and no load of it changes the database.
   */
  lemma StoppedRunPublishesNothing(
    q: Requests, run: seq<System>, steps: seq<Step>, i: nat, j: nat, id: RunId)
    requires IsBehaviour(q, run, steps) && i <= j < |steps|
    requires id in run[i].db.runs && run[i].db.runs[id].status != Running
    requires NobodyReopens(run, steps, run[i].db.runs[id].flow, i, j)
    requires steps[j].Load? && steps[j].attempt in run[j].attempts
    requires run[j].attempts[steps[j].attempt].handle.Some?
    requires run[j].attempts[steps[j].attempt].handle.value.runId == id
    ensures run[j + 1].db == run[j].db
    ensures id in run[j].db.runs && run[j].db.runs[id] == run[i].db.runs[id]
  {
    StoppedRowStaysAsItIs(q, run, steps, i, j, id);
    assert IsStep(q, run, steps, j);
    var step := steps[j];
    var r := LoadRequestOf(run[j].attempts[step.attempt], step.records, step.eventsRead);
    OnlyARunningRunPublishes(run[j].db, r, step.now, run[j + 1].db, step.outcome);
  }

  /** The snapshot behind a computed week. */
  function SnapshotBehind(s: System, week: Date): Option<Time> {
    var last := LastCover(s.commits, week);
    if last.Some? && last.value < |s.commits| then Some(s.commits[last.value].cutoff) else None
  }

  lemma LaterCoverIsNewer(earlier: seq<Commit>, later: seq<Commit>, week: Date)
    requires CommitsInOrder(later) && earlier <= later && LastCover(earlier, week).Some?
    ensures LastCover(later, week).Some?
    ensures LastCover(earlier, week).value < |earlier| && LastCover(later, week).value < |later|
    ensures earlier[LastCover(earlier, week).value].cutoff <= later[LastCover(later, week).value].cutoff
  {
    LastCoverIsLast(earlier, week);
    LastCoverIsLast(later, week);
    var a := LastCover(earlier, week).value;
    var b := LastCover(later, week).value;
    assert Overlap(later[a], later[b]);
  }

  lemma SnapshotMovesForward(before: System, after: System, week: Date)
    requires CommitsInvariant(before.db.runs, before.commits) && CommitsInvariant(after.db.runs, after.commits)
    requires before.commits <= after.commits && IsMonday(week) && IsWeekComputed(before.db.runs, PIPELINE, week)
    ensures IsWeekComputed(after.db.runs, PIPELINE, week)
    ensures SnapshotBehind(before, week).Some? && SnapshotBehind(after, week).Some?
    ensures SnapshotBehind(before, week).value <= SnapshotBehind(after, week).value
  {
    CoveredMeansCommitted(before.db.runs, before.commits, week);
    LaterCoverIsNewer(before.commits, after.commits, week);
    CoveredMeansCommitted(after.db.runs, after.commits, week);
  }

  /** A computed week stays computed, and the snapshot behind it never goes backwards. */
  lemma SnapshotNeverGoesBack(q: Requests, run: seq<System>, steps: seq<Step>, i: nat, j: nat, week: Date)
    requires IsBehaviour(q, run, steps) && EveryLoadMatches(run, steps) && i <= j < |run| && IsMonday(week)
    requires IsWeekComputed(run[i].db.runs, PIPELINE, week)
    ensures IsWeekComputed(run[j].db.runs, PIPELINE, week)
    ensures SnapshotBehind(run[i], week).Some? && SnapshotBehind(run[j], week).Some?
    ensures SnapshotBehind(run[i], week).value <= SnapshotBehind(run[j], week).value
  {
    BehaviourOnlyAdds(q, run, steps, i, j);
    BehaviourKeepsInvariant(q, run, steps, i);
    BehaviourKeepsInvariant(q, run, steps, j);
    SnapshotMovesForward(run[i], run[j], week);
  }

  /** Every published row belongs to a Monday that a completed run covers. */
  lemma PublishedRowsAreCovered(q: Requests, run: seq<System>, steps: seq<Step>, n: nat, key: Key)
    requires IsBehaviour(q, run, steps) && EveryLoadMatches(run, steps) && n < |run|
    requires key in run[n].db.cells
    ensures IsMonday(key.weekStart) && IsWeekComputed(run[n].db.runs, PIPELINE, key.weekStart)
  {
    var s := run[n];
    BehaviourKeepsInvariant(q, run, steps, n);
    assert WeekIsPublished(s.db.cells, s.commits, key.weekStart);
    assert key in WeekOf(FiguresOf(s.db.cells), key.weekStart);
    LastCoverIsLast(s.commits, key.weekStart);
    CoveredMeansCommitted(s.db.runs, s.commits, key.weekStart);
  }
}

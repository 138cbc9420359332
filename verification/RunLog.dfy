/**
 The run log `reporting.pipeline_runs` (data/pipelines/run_log.py).

 One row per flow run. The functions of this module say what each transaction
 leaves in the table; class `RunLogTable` runs the transactions step by step
 and is proved against them.
 */
module RunLog {
  import opened Common
  import opened Weeks

  type RunId = nat
  type FlowId = nat

  datatype RunStatus = Running | Completed | Failed | Skipped

  datatype ErrorStage = Extract | Transform | Validate | Load

  /** What a completed load reports about itself. */
  datatype LoadTally = LoadTally(
    rowsInserted: int, rowsUpdated: int, rowsUnchanged: int, rowsDeleted: int,
    weeksRevised: set<Date>)

  datatype Run = Run(
    pipeline: string,
    flow: Option<FlowId>,
    status: RunStatus,
    blockedBy: Option<RunId>,
    startedAt: Time,
    finishedAt: Option<Time>,
    weeksFrom: Date,
    weeksTo: Date,
    cutoff: Time,
    eventsRead: Option<nat>,
    tally: Option<LoadTally>,
    errorStage: Option<ErrorStage>,
    errorClass: Option<string>)

  type RunTable = map<RunId, Run>

  const ABANDON_AFTER: Time := 10_800_000_000

  /** Prefect's answer about a flow run: finished, alive, or `None` when it cannot say. */
  type FlowOracle = FlowId -> Option<bool>

  datatype OpenRequest = OpenRequest(
    pipeline: string, flow: FlowId, weeksFrom: Date, weeksTo: Date, now: Time, freshId: RunId)

  datatype RunHandle = RunHandle(
    runId: RunId,
    status: RunStatus,
    cutoff: Time,
    previous: Option<Time>,
    blockedBy: Option<RunId>,
    resumed: bool)

  /** The database refused the write: `pipeline_runs_one_running_idx`. */
  datatype OpenError = OneRunningViolated

  datatype OpenResult = OpenResult(table: RunTable, answer: Result<RunHandle, OpenError>)

  datatype FailOutcome = MarkedFailed | Unchanged | Missing

  // --- What the table promises ---------------------------------------------------------

  predicate HoldsSlot(t: RunTable, pipeline: string, id: RunId) {
    id in t && t[id].status == Running && t[id].pipeline == pipeline
  }

  predicate BelongsTo(t: RunTable, flow: FlowId, id: RunId) {
    id in t && t[id].flow == Some(flow)
  }

  /** The unique indexes: one running row per pipeline, one row per flow run. */
  ghost predicate OneRunning(t: RunTable) {
    forall pipeline, a, b :: HoldsSlot(t, pipeline, a) && HoldsSlot(t, pipeline, b) ==> a == b
  }

  ghost predicate OneRowPerFlow(t: RunTable) {
    forall flow, a, b :: BelongsTo(t, flow, a) && BelongsTo(t, flow, b) ==> a == b
  }

  /** The check constraints on one row. */
  predicate RowConstraints(run: Run) {
    && (run.status == Running || run.finishedAt.Some?)
    && (run.status == Failed || run.status == Skipped ==> run.errorClass.Some?)
  }

  ghost predicate TableInvariant(t: RunTable) {
    && OneRunning(t)
    && OneRowPerFlow(t)
    && forall id :: id in t ==> RowConstraints(t[id])
  }

  // --- Reading the table ---------------------------------------------------------------

  ghost function CompletedCutoffs(t: RunTable, pipeline: string): set<Time> {
    set id | id in t && t[id].pipeline == pipeline && t[id].status == Completed :: t[id].cutoff
  }

  ghost function PreviousCutoff(t: RunTable, pipeline: string): Option<Time> {
    var cutoffs := CompletedCutoffs(t, pipeline);
    if cutoffs == {} then None else Some(MaxOf(cutoffs))
  }

  ghost function RunOfFlow(t: RunTable, flow: FlowId): Option<RunId> {
    if id :| BelongsTo(t, flow, id) then Some(id) else None
  }

  ghost function SlotHolder(t: RunTable, pipeline: string, flow: FlowId): Option<RunId> {
    if id :| HoldsSlot(t, pipeline, id) && t[id].flow != Some(flow) then Some(id) else None
  }

  predicate Covers(run: Run, week: Date) {
    run.status == Completed && run.weeksFrom <= week <= run.weeksTo
  }

  predicate ComputesWeek(t: RunTable, pipeline: string, week: Date, id: RunId) {
    id in t && t[id].pipeline == pipeline && Covers(t[id], week)
  }

  ghost predicate IsWeekComputed(t: RunTable, pipeline: string, week: Date) {
    exists id :: ComputesWeek(t, pipeline, week, id)
  }

  // --- The transactions ----------------------------------------------------------------

  predicate IsAbandoned(run: Run, now: Time, terminal: FlowOracle) {
    || now - run.startedAt >= ABANDON_AFTER
    || (run.flow.Some? && terminal(run.flow.value) == Some(true))
  }

  predicate IsSwept(run: Run, pipeline: string, own: FlowId, now: Time, terminal: FlowOracle) {
    && run.pipeline == pipeline
    && run.status == Running
    && run.flow != Some(own)
    && IsAbandoned(run, now, terminal)
  }

  function MarkedAbandoned(run: Run, now: Time): Run {
    run.(status := Failed, finishedAt := Some(now), errorClass := Some("Abandoned"))
  }

  function SweepAbandoned(
    t: RunTable, pipeline: string, own: FlowId, now: Time, terminal: FlowOracle): RunTable
  {
    map id | id in t ::
      if IsSwept(t[id], pipeline, own, now, terminal) then MarkedAbandoned(t[id], now) else t[id]
  }

  function Reopened(run: Run): Run {
    run.(status := Running, finishedAt := None, errorStage := None, errorClass := None)
  }

  function NewRun(request: OpenRequest, holder: Option<RunId>): Run {
    var run := Run(
      request.pipeline, Some(request.flow), Running, None, request.now, None,
      request.weeksFrom, request.weeksTo, request.now, None, None, None, None);
    if holder.None? then run
    else run.(status := Skipped, finishedAt := Some(request.now), blockedBy := holder,
              errorClass := Some("ConcurrentRun"))
  }

  ghost function OpenRun(t: RunTable, request: OpenRequest, terminal: FlowOracle): OpenResult {
    var previous := PreviousCutoff(t, request.pipeline);
    var swept := SweepAbandoned(t, request.pipeline, request.flow, request.now, terminal);
    var holder := SlotHolder(swept, request.pipeline, request.flow);
    match RunOfFlow(t, request.flow)
    case Some(id) =>
      if t[id].status == Failed && holder.None? then
        if exists other :: HoldsSlot(swept, t[id].pipeline, other)
        then OpenResult(t, Failure(OneRunningViolated))
        else OpenResult(
               swept[id := Reopened(t[id])],
               Success(RunHandle(id, Running, t[id].cutoff, previous, t[id].blockedBy, true)))
      else
        OpenResult(swept, Success(
          if t[id].status == Failed
          then RunHandle(id, Skipped, t[id].cutoff, previous, holder, true)
          else RunHandle(id, t[id].status, t[id].cutoff, previous, t[id].blockedBy, true)))
    case None =>
      var run := NewRun(request, holder);
      OpenResult(
        swept[request.freshId := run],
        Success(RunHandle(request.freshId, run.status, run.cutoff, previous, holder, false)))
  }

  /** `complete_run`, inside the load transaction: `None` is `RunNotRunning`. */
  function CompleteRun(
    t: RunTable, id: RunId, now: Time, tally: LoadTally, eventsRead: Option<nat>): Option<RunTable>
  {
    if id in t && t[id].status == Running
    then Some(t[id := t[id].(status := Completed, finishedAt := Some(now),
                             tally := Some(tally), eventsRead := eventsRead)])
    else None
  }

  function SkipRun(
    t: RunTable, id: RunId, blockedBy: RunId, now: Time, errorClass: string,
    eventsRead: Option<nat>): RunTable
  {
    if id in t && t[id].status == Running
    then t[id := t[id].(status := Skipped, finishedAt := Some(now), blockedBy := Some(blockedBy),
                        errorClass := Some(errorClass), eventsRead := eventsRead)]
    else t
  }

  function MarkedFailedRun(
    run: Run, now: Time, stage: Option<ErrorStage>, errorClass: string,
    eventsRead: Option<nat>): Run
  {
    run.(status := Failed, finishedAt := Some(now), errorStage := stage,
         errorClass := Some(errorClass), eventsRead := eventsRead)
  }

  ghost function FailRun(
    t: RunTable, flow: FlowId, now: Time, stage: Option<ErrorStage>, errorClass: string,
    eventsRead: Option<nat>): (RunTable, FailOutcome)
  {
    match RunOfFlow(t, flow)
    case None => (t, Missing)
    case Some(id) =>
      if t[id].status == Running
      then (t[id := MarkedFailedRun(t[id], now, stage, errorClass, eventsRead)], MarkedFailed)
      else (t, Unchanged)
  }

  // --- What no transaction may undo ----------------------------------------------------

  /** The part of a row that is fixed when the row is inserted. */
  predicate SameIdentity(before: Run, after: Run) {
    && after.pipeline == before.pipeline
    && after.flow == before.flow
    && after.cutoff == before.cutoff
    && after.weeksFrom == before.weeksFrom
    && after.weeksTo == before.weeksTo
    && after.startedAt == before.startedAt
  }

  /**
   How a row may change across any number of transactions: its identity is
   fixed, `completed` and `skipped` are final, and a `failed` row either stays
   as it is or goes through `running` again.
   */
  ghost predicate Evolves(before: RunTable, after: RunTable) {
    forall id :: id in before ==>
      && id in after
      && SameIdentity(before[id], after[id])
      && (before[id].status == Completed || before[id].status == Skipped ==> after[id] == before[id])
  }

  /** A change that keeps the table's promises, inserts nothing and completes nothing. */
  ghost predicate IsQuietChange(before: RunTable, after: RunTable) {
    && TableInvariant(after) && Evolves(before, after)
    && after.Keys == before.Keys
    && forall id :: id in after && after[id].status == Completed ==> before[id].status == Completed
  }

  lemma RowUpdateKeepsInvariant(t: RunTable, id: RunId, run: Run)
    requires TableInvariant(t) && id in t
    requires run.pipeline == t[id].pipeline && run.flow == t[id].flow && RowConstraints(run)
    requires run.status == Running
             ==> forall other :: HoldsSlot(t, run.pipeline, other) ==> other == id
    ensures TableInvariant(t[id := run])
  {
    var updated := t[id := run];
    assert forall pipeline, a :: HoldsSlot(updated, pipeline, a) && a != id ==> HoldsSlot(t, pipeline, a);
    assert forall flow, a :: BelongsTo(updated, flow, a) ==> BelongsTo(t, flow, a);
  }

  lemma SweepKeepsInvariant(
    t: RunTable, pipeline: string, own: FlowId, now: Time, terminal: FlowOracle)
    requires TableInvariant(t)
    ensures var swept := SweepAbandoned(t, pipeline, own, now, terminal);
            TableInvariant(swept) && Evolves(t, swept)
  {
    var swept := SweepAbandoned(t, pipeline, own, now, terminal);
    assert forall p, a :: HoldsSlot(swept, p, a) ==> HoldsSlot(t, p, a);
    assert forall flow, a :: BelongsTo(swept, flow, a) ==> BelongsTo(t, flow, a);
  }

  lemma NewRowKeepsInvariant(t: RunTable, request: OpenRequest, holder: Option<RunId>)
    requires TableInvariant(t) && request.freshId !in t
    requires RunOfFlow(t, request.flow).None?
    requires holder == SlotHolder(t, request.pipeline, request.flow)
    ensures TableInvariant(t[request.freshId := NewRun(request, holder)])
  {
    var grown := t[request.freshId := NewRun(request, holder)];
    assert forall flow, a :: BelongsTo(grown, flow, a) && a != request.freshId ==> BelongsTo(t, flow, a);
    assert forall p, a :: HoldsSlot(grown, p, a) && a != request.freshId ==> HoldsSlot(t, p, a);
    if holder.None? {
      assert forall id :: HoldsSlot(t, request.pipeline, id) ==> BelongsTo(t, request.flow, id);
    }
  }

  lemma OpenRunKeepsInvariant(t: RunTable, request: OpenRequest, terminal: FlowOracle)
    requires TableInvariant(t) && request.freshId !in t
    ensures TableInvariant(OpenRun(t, request, terminal).table)
    ensures Evolves(t, OpenRun(t, request, terminal).table)
  {
    var swept := SweepAbandoned(t, request.pipeline, request.flow, request.now, terminal);
    SweepKeepsInvariant(t, request.pipeline, request.flow, request.now, terminal);
    match RunOfFlow(t, request.flow)
    case Some(id) =>
      assert swept[id] == t[id];
      if OpenRun(t, request, terminal).table != t && OpenRun(t, request, terminal).table != swept {
        RowUpdateKeepsInvariant(swept, id, Reopened(t[id]));
      }
    case None =>
      assert forall id :: BelongsTo(swept, request.flow, id) ==> BelongsTo(t, request.flow, id);
      NewRowKeepsInvariant(swept, request, SlotHolder(swept, request.pipeline, request.flow));
  }

  /**
   An answer gives the status of the row it names: a completed row answers completed,
   a skipped one skipped, a running one running. The one exception is a failed row
   whose slot another run holds: it answers skipped, and names the holder.
   */
  ghost predicate AnswersItsStatus(after: RunTable, pipeline: string, handle: RunHandle) {
    && handle.runId in after
    && (handle.status == after[handle.runId].status
        || (after[handle.runId].status == Failed && handle.status == Skipped
            && handle.blockedBy.Some? && HoldsSlot(after, pipeline, handle.blockedBy.value)))
  }

  /** What every answer of `open_run` has in common. */
  ghost predicate OpenShape(t: RunTable, request: OpenRequest, result: OpenResult) {
    && TableInvariant(result.table)
    && Evolves(t, result.table)
    && (forall id :: id in result.table && result.table[id].status == Completed
                     ==> id in t && t[id].status == Completed)
    && (result.answer.Success? ==>
          && BelongsTo(result.table, request.flow, result.answer.value.runId)
          && result.answer.value.cutoff == result.table[result.answer.value.runId].cutoff
          && AnswersItsStatus(result.table, request.pipeline, result.answer.value))
    && if RunOfFlow(t, request.flow).Some? then result.table.Keys == t.Keys
       else
         && result.answer.Success?
         && result.table.Keys == t.Keys + {request.freshId}
         && var run := result.table[request.freshId];
            && run.flow == Some(request.flow) && run.pipeline == request.pipeline
            && run.weeksFrom == request.weeksFrom && run.weeksTo == request.weeksTo
            && run.cutoff == request.now
  }

  /** An answer names the flow run's own row, with that row's cutoff. */
  lemma OpenRunAnswersItsRow(t: RunTable, request: OpenRequest, terminal: FlowOracle)
    requires TableInvariant(t) && request.freshId !in t
    ensures var result := OpenRun(t, request, terminal);
            result.answer.Success? ==>
              && BelongsTo(result.table, request.flow, result.answer.value.runId)
              && result.answer.value.cutoff == result.table[result.answer.value.runId].cutoff
              && AnswersItsStatus(result.table, request.pipeline, result.answer.value)
  {
    var own := RunOfFlow(t, request.flow);
    if own.Some? {
      assert BelongsTo(t, request.flow, own.value);
    }
  }

  lemma OpenRunCompletesNothing(t: RunTable, request: OpenRequest, terminal: FlowOracle)
    requires TableInvariant(t) && request.freshId !in t
    ensures var table := OpenRun(t, request, terminal).table;
            forall id :: id in table && table[id].status == Completed ==> id in t && t[id].status == Completed
  {
  }

  /**
   A flow run has one row, inserted once with the cutoff of that moment; every
   later answer names that row and its cutoff; opening never completes a run.
   */
  lemma OpenRunHasShape(t: RunTable, request: OpenRequest, terminal: FlowOracle)
    requires TableInvariant(t) && request.freshId !in t
    ensures OpenShape(t, request, OpenRun(t, request, terminal))
  {
    OpenRunKeepsInvariant(t, request, terminal);
    OpenRunAnswersItsRow(t, request, terminal);
    OpenRunCompletesNothing(t, request, terminal);
    var own := RunOfFlow(t, request.flow);
    if own.Some? {
      assert BelongsTo(t, request.flow, own.value);
    }
  }

  lemma CompleteRunKeepsInvariant(
    t: RunTable, id: RunId, now: Time, tally: LoadTally, eventsRead: Option<nat>)
    requires TableInvariant(t)
    ensures var completed := CompleteRun(t, id, now, tally, eventsRead);
            completed.Some? ==> TableInvariant(completed.value) && Evolves(t, completed.value)
  {
    var completed := CompleteRun(t, id, now, tally, eventsRead);
    if completed.Some? {
      RowUpdateKeepsInvariant(t, id, completed.value[id]);
    }
  }

  lemma SkipRunIsQuiet(
    t: RunTable, id: RunId, blockedBy: RunId, now: Time, errorClass: string, eventsRead: Option<nat>)
    requires TableInvariant(t)
    ensures IsQuietChange(t, SkipRun(t, id, blockedBy, now, errorClass, eventsRead))
  {
    var after := SkipRun(t, id, blockedBy, now, errorClass, eventsRead);
    if after != t {
      RowUpdateKeepsInvariant(t, id, after[id]);
    }
  }

  lemma FailRunIsQuiet(
    t: RunTable, flow: FlowId, now: Time, stage: Option<ErrorStage>, errorClass: string,
    eventsRead: Option<nat>)
    requires TableInvariant(t)
    ensures IsQuietChange(t, FailRun(t, flow, now, stage, errorClass, eventsRead).0)
  {
    var own := RunOfFlow(t, flow);
    if own.Some? && t[own.value].status == Running {
      RowUpdateKeepsInvariant(
        t, own.value, MarkedFailedRun(t[own.value], now, stage, errorClass, eventsRead));
    }
  }

  /**
   `failed` goes back to `running` only for the caller's own row, and only when
   the caller's answer says so and no other row holds the pipeline's slot.
   */
  lemma FailedReopensOnlyIntoAFreeSlot(
    t: RunTable, request: OpenRequest, terminal: FlowOracle, id: RunId)
    requires TableInvariant(t) && request.freshId !in t
    requires id in t && t[id].status == Failed
    ensures var outcome := OpenRun(t, request, terminal);
            outcome.table[id].status == Running ==>
              && t[id].flow == Some(request.flow)
              && outcome.answer.Success? && outcome.answer.value.runId == id
              && outcome.answer.value.status == Running
              && outcome.table[id] == Reopened(t[id])
              && forall other :: HoldsSlot(outcome.table, t[id].pipeline, other) ==> other == id
  {
    var after := OpenRun(t, request, terminal).table;
    var swept := SweepAbandoned(t, request.pipeline, request.flow, request.now, terminal);
    if after[id].status == Running {
      assert forall p, other :: HoldsSlot(after, p, other) && other != id ==> HoldsSlot(swept, p, other);
    }
  }

  /** Every write to a row that is not `running` is a reopening by `open_run`. */
  lemma OnlyOpenRunReopens(
    t: RunTable, id: RunId, target: RunId, flow: FlowId, other: RunId, now: Time,
    tally: LoadTally, stage: Option<ErrorStage>, errorClass: string, eventsRead: Option<nat>)
    requires id in t && t[id].status != Running
    ensures SkipRun(t, target, other, now, errorClass, eventsRead)[id] == t[id]
    ensures FailRun(t, flow, now, stage, errorClass, eventsRead).0[id] == t[id]
    ensures CompleteRun(t, target, now, tally, eventsRead).Some?
            ==> CompleteRun(t, target, now, tally, eventsRead).value[id] == t[id]
  {
  }

  /**
   A run gives way only to a holder that may be alive: younger than
   `ABANDON_AFTER` and not reported finished. The one other way to be answered
   `skipped` is to resume a row that was already skipped.
   */
  lemma SkippedOnlyForALiveHolder(t: RunTable, request: OpenRequest, terminal: FlowOracle)
    requires TableInvariant(t) && request.freshId !in t
    requires OpenRun(t, request, terminal).answer.Success?
    requires OpenRun(t, request, terminal).answer.value.status == Skipped
    ensures
      var outcome := OpenRun(t, request, terminal);
      var own := RunOfFlow(t, request.flow);
      || (own.Some? && t[own.value].status == Skipped && outcome.answer.value.runId == own.value)
      || (exists holder ::
            && outcome.answer.value.blockedBy == Some(holder)
            && HoldsSlot(outcome.table, request.pipeline, holder)
            && holder in t && t[holder] == outcome.table[holder]
            && t[holder].flow != Some(request.flow)
            && !IsAbandoned(t[holder], request.now, terminal))
  {
    var swept := SweepAbandoned(t, request.pipeline, request.flow, request.now, terminal);
    var own := RunOfFlow(t, request.flow);
    if own.None? || t[own.value].status == Failed {
      var outcome := OpenRun(t, request, terminal);
    }
  }

  /**
   The slot is never lost to a dead run: when every running row of the pipeline
   is abandoned, a flow run without a row, or with a failed one of the same
   pipeline, gets the slot.
   */
  lemma DeadHoldersAreDisplaced(t: RunTable, request: OpenRequest, terminal: FlowOracle)
    requires TableInvariant(t) && request.freshId !in t
    requires forall id :: HoldsSlot(t, request.pipeline, id) && t[id].flow != Some(request.flow)
                          ==> IsAbandoned(t[id], request.now, terminal)
    requires var own := RunOfFlow(t, request.flow);
             own.None? || (t[own.value].status == Failed && t[own.value].pipeline == request.pipeline)
    ensures var outcome := OpenRun(t, request, terminal);
            && outcome.answer.Success? && outcome.answer.value.status == Running
            && HoldsSlot(outcome.table, request.pipeline, outcome.answer.value.runId)
  {
    var swept := SweepAbandoned(t, request.pipeline, request.flow, request.now, terminal);
    assert forall id :: HoldsSlot(swept, request.pipeline, id) ==> BelongsTo(t, request.flow, id);
  }

  /**
   When the database itself has to refuse: only when the flow run's failed row
   belongs to another pipeline whose slot is taken. A flow that runs one
   pipeline never meets it.
   */
  lemma OneRunningIndexFiresIff(t: RunTable, request: OpenRequest, terminal: FlowOracle)
    requires TableInvariant(t) && request.freshId !in t
    ensures OpenRun(t, request, terminal).answer.Failure? <==>
            var own := RunOfFlow(t, request.flow);
            && own.Some? && t[own.value].status == Failed
            && t[own.value].pipeline != request.pipeline
            && (exists other :: HoldsSlot(t, t[own.value].pipeline, other))
            && (forall id :: HoldsSlot(t, request.pipeline, id) && t[id].flow != Some(request.flow)
                             ==> IsAbandoned(t[id], request.now, terminal))
  {
    var own := RunOfFlow(t, request.flow);
    var swept := SweepAbandoned(t, request.pipeline, request.flow, request.now, terminal);
    assert forall p: string, id :: p != request.pipeline ==> (HoldsSlot(swept, p, id) <==> HoldsSlot(t, p, id));
    assert forall id :: HoldsSlot(swept, request.pipeline, id) <==>
      HoldsSlot(t, request.pipeline, id) && !IsSwept(t[id], request.pipeline, request.flow, request.now, terminal);
    if own.Some? {
      assert BelongsTo(t, request.flow, own.value);
      assert forall id :: BelongsTo(t, request.flow, id) ==> id == own.value;
      assert forall id :: HoldsSlot(swept, request.pipeline, id) && t[id].flow == Some(request.flow)
                          ==> BelongsTo(t, request.flow, id);
    }
  }

  lemma OpeningFindsTheOwnRow(t: RunTable, request: OpenRequest, terminal: FlowOracle, id: RunId)
    requires TableInvariant(t) && BelongsTo(t, request.flow, id)
    ensures var resumed := OpenRun(t, request, terminal);
            resumed.answer.Success? ==>
              && resumed.answer.value.runId == id
              && resumed.answer.value.cutoff == t[id].cutoff
              && resumed.answer.value.resumed
              && resumed.table.Keys == t.Keys
  {
  }

  /** A retried task finds its own row: same row, same snapshot, nothing inserted. */
  lemma ReopeningResumesTheSameSnapshot(
    t: RunTable, first: OpenRequest, again: OpenRequest, terminal: FlowOracle, later: FlowOracle)
    requires TableInvariant(t) && first.freshId !in t && again.flow == first.flow
    requires OpenRun(t, first, terminal).answer.Success?
    requires again.freshId !in OpenRun(t, first, terminal).table
    ensures var outcome := OpenRun(t, first, terminal);
            var resumed := OpenRun(outcome.table, again, later);
            resumed.answer.Success? ==>
              && resumed.answer.value.runId == outcome.answer.value.runId
              && resumed.answer.value.cutoff == outcome.answer.value.cutoff
              && resumed.answer.value.resumed
              && resumed.table.Keys == outcome.table.Keys
  {
    OpenRunKeepsInvariant(t, first, terminal);
    var outcome := OpenRun(t, first, terminal);
    OpeningFindsTheOwnRow(outcome.table, again, later, outcome.answer.value.runId);
  }

  // --- The table, updated in place -----------------------------------------------------

  class RunLogTable {
    var rows: RunTable

    ghost predicate Valid()
      reads this
    {
      TableInvariant(rows)
    }

    constructor ()
      ensures Valid() && rows == map[]
    {
      rows := map[];
    }

    /** `_sweep_abandoned`: the running rows are selected first, then updated one by one. */
    method SweepAbandonedRows(pipeline: string, own: FlowId, now: Time, terminal: FlowOracle)
      requires Valid()
      modifies this
      ensures rows == SweepAbandoned(old(rows), pipeline, own, now, terminal)
      ensures Valid()
    {
      ghost var before := rows;
      var pending := set id | id in rows && rows[id].pipeline == pipeline
                              && rows[id].status == Running && rows[id].flow != Some(own);
      while pending != {}
        invariant pending <= before.Keys
        invariant rows.Keys == before.Keys
        invariant forall id :: id in before ==>
          rows[id] == if id !in pending && IsSwept(before[id], pipeline, own, now, terminal)
                      then MarkedAbandoned(before[id], now) else before[id]
        decreases pending
      {
        var id :| id in pending;
        if IsAbandoned(rows[id], now, terminal) && rows[id].status == Running
           && rows[id].pipeline == pipeline && rows[id].flow != Some(own) {
          rows := rows[id := MarkedAbandoned(rows[id], now)];
        }
        pending := pending - {id};
      }
      SweepKeepsInvariant(before, pipeline, own, now, terminal);
    }

    method OpenRunRow(request: OpenRequest, terminal: FlowOracle)
      returns (answer: Result<RunHandle, OpenError>)
      requires Valid() && request.freshId !in rows
      modifies this
      ensures OpenResult(rows, answer) == OpenRun(old(rows), request, terminal)
      ensures Valid() && Evolves(old(rows), rows)
    {
      ghost var before := rows;
      OpenRunKeepsInvariant(before, request, terminal);
      var saved := rows;
      var previous := LatestCompletedCutoff(request.pipeline);
      var own: Option<RunId> := None;
      if id :| id in rows && rows[id].flow == Some(request.flow) {
        own := Some(id);
        assert BelongsTo(before, request.flow, id);
      }
      SweepAbandonedRows(request.pipeline, request.flow, request.now, terminal);
      var holder: Option<RunId> := None;
      if id :| id in rows && HoldsSlot(rows, request.pipeline, id)
               && rows[id].flow != Some(request.flow) {
        holder := Some(id);
      }
      assert own == RunOfFlow(before, request.flow);
      assert holder == SlotHolder(rows, request.pipeline, request.flow);

      if own.Some? {
        var run := rows[own.value];
        if run.status == Failed && holder.None? {
          if other :| other in rows && HoldsSlot(rows, run.pipeline, other) {
            // The unique index refuses the update and the transaction is rolled back.
            rows := saved;
            return Failure(OneRunningViolated);
          }
          rows := rows[own.value := Reopened(run)];
          return Success(RunHandle(own.value, Running, run.cutoff, previous, run.blockedBy, true));
        } else if run.status != Failed {
          return Success(
            RunHandle(own.value, run.status, run.cutoff, previous, run.blockedBy, true));
        } else {
          return Success(RunHandle(own.value, Skipped, run.cutoff, previous, holder, true));
        }
      }
      var run := NewRun(request, holder);
      rows := rows[request.freshId := run];
      answer := Success(RunHandle(request.freshId, run.status, run.cutoff, previous, holder, false));
    }

    method LatestCompletedCutoff(pipeline: string) returns (latest: Option<Time>)
      ensures latest == PreviousCutoff(rows, pipeline)
    {
      var cutoffs := set id | id in rows && rows[id].pipeline == pipeline
                              && rows[id].status == Completed :: rows[id].cutoff;
      if cutoffs == {} {
        return None;
      }
      ghost var greatest := MaxOf(cutoffs);
      var found :| found in cutoffs && forall c :: c in cutoffs ==> c <= found;
      latest := Some(found);
    }

    /** `complete_run`: false is `RunNotRunning`, and nothing is written. */
    method CompleteRunRow(id: RunId, now: Time, tally: LoadTally, eventsRead: Option<nat>)
      returns (done: bool)
      requires Valid()
      modifies this
      ensures done == CompleteRun(old(rows), id, now, tally, eventsRead).Some?
      ensures done ==> rows == CompleteRun(old(rows), id, now, tally, eventsRead).value
      ensures !done ==> rows == old(rows)
      ensures Valid() && Evolves(old(rows), rows)
    {
      CompleteRunKeepsInvariant(rows, id, now, tally, eventsRead);
      done := id in rows && rows[id].status == Running;
      if done {
        rows := rows[id := rows[id].(status := Completed, finishedAt := Some(now),
                                     tally := Some(tally), eventsRead := eventsRead)];
      }
    }

    method SkipRunRow(
      id: RunId, blockedBy: RunId, now: Time, errorClass: string, eventsRead: Option<nat>)
      requires Valid()
      modifies this
      ensures rows == SkipRun(old(rows), id, blockedBy, now, errorClass, eventsRead)
      ensures Valid() && Evolves(old(rows), rows)
    {
      SkipRunIsQuiet(rows, id, blockedBy, now, errorClass, eventsRead);
      if id in rows && rows[id].status == Running {
        rows := rows[id := rows[id].(status := Skipped, finishedAt := Some(now),
                                     blockedBy := Some(blockedBy), errorClass := Some(errorClass),
                                     eventsRead := eventsRead)];
      }
    }

    method FailRunRow(
      flow: FlowId, now: Time, stage: Option<ErrorStage>, errorClass: string,
      eventsRead: Option<nat>)
      returns (outcome: FailOutcome)
      requires Valid()
      modifies this
      ensures (rows, outcome) == FailRun(old(rows), flow, now, stage, errorClass, eventsRead)
      ensures Valid() && Evolves(old(rows), rows)
    {
      ghost var before := rows;
      FailRunIsQuiet(before, flow, now, stage, errorClass, eventsRead);
      if id :| id in rows && rows[id].flow == Some(flow) && rows[id].status == Running {
        assert BelongsTo(before, flow, id);
        rows := rows[id := MarkedFailedRun(rows[id], now, stage, errorClass, eventsRead)];
        return MarkedFailed;
      }
      if id :| id in rows && rows[id].flow == Some(flow) {
        assert BelongsTo(before, flow, id);
        return Unchanged;
      }
      outcome := Missing;
    }

    /** The newest week of any completed run; no later week is computed. */
    method LatestCompletedWeek(pipeline: string) returns (latest: Option<Date>)
      ensures latest.None?
            <==> forall id :: !(id in rows && rows[id].pipeline == pipeline && rows[id].status == Completed)
      ensures latest.Some? ==> forall week :: week > latest.value ==> !IsWeekComputed(rows, pipeline, week)
      ensures latest.Some? ==>
                exists id :: id in rows && rows[id].pipeline == pipeline && rows[id].status == Completed
                             && rows[id].weeksTo == latest.value
    {
      var weeks := set id | id in rows && rows[id].pipeline == pipeline && rows[id].status == Completed
                       :: rows[id].weeksTo;
      assert forall id :: id in rows && rows[id].pipeline == pipeline && rows[id].status == Completed
                          ==> rows[id].weeksTo in weeks;
      if weeks == {} {
        return None;
      }
      ghost var greatest := MaxOf(weeks);
      var found :| found in weeks && forall w :: w in weeks ==> w <= found;
      assert forall week, id :: week > found ==> !ComputesWeek(rows, pipeline, week, id);
      latest := Some(found);
    }

    method IsComputed(pipeline: string, week: Date) returns (computed: bool)
      ensures computed == IsWeekComputed(rows, pipeline, week)
    {
      computed := exists id :: id in rows && ComputesWeek(rows, pipeline, week, id);
    }
  }
}

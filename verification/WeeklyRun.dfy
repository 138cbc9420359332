/**
 One attempt of the main flow from end to end (data/pipelines/pipeline.py): open the
 run, read the snapshot, transform, validate, load. It ties the run log, the rollup
 and the load together: what is published is the rollup of what was read.

 Reading the source is not part of this model: what it answers for a window of weeks
 and a cutoff is given.
 */
module WeeklyRun {
  import opened Common
  import opened Weeks
  import opened RunLog
  import opened RunLogLaws
  import opened WeeklyLoad
  import opened WeeklyPublish
  import opened WeeklyFlow
  import opened RollupEvents
  import opened RollupPrepare
  import opened RollupFigures
  import opened RollupValidation
  import opened RollupTheorems
  import Publication

  /** What extraction reads under the run's cutoff. */
  datatype Source = Source(events: seq<RawEvent>, products: seq<Product>)

  /** What reading the source answers, for the weeks of the run and its cutoff. */
  type Reading = (seq<Date>, Time) -> Result<Source, StageError>

  /** The worker clock when the weeks are computed, the database clock at each transaction, and the row's id. */
  datatype Moments = Moments(computed: Time, opening: Time, loaded: Time, skipped: Time, freshId: RunId)

  datatype AttemptEnd = InvalidRequest(reason: InvalidWeek) | NotOpened(refusal: OpenError) | Ended(end: FlowEnd)

  lemma WeeksAreClosed(now: Time, request: WeekRequest)
    requires ClosedWeeks(now, request).Success?
    ensures var weeks := ClosedWeeks(now, request).value;
            weeks != [] && forall w :: w in weeks ==> IsMonday(w) && w <= LastClosedWeek(now)
  {
  }

  /** The transform, up to the destination rows. */
  method BuildRows(source: Source, weeks: seq<Date>) returns (rows: Result<seq<Record>, KpiInputError>)
    ensures rows == RowsOf(PrepareEvents(source.events, source.products, weeks).countable, source.products, weeks)
  {
    var countable, exclusions := Prepare(source.events, source.products, weeks);
    var outbound :- Outbounds(countable);
    var inbound :- Inbounds(countable);
    var stockouts :- Stockouts(countable);
    var discrepancies :- Discrepancies(countable, outbound);
    var assembled := Assemble(inbound, outbound, stockouts, discrepancies, source.products, weeks);
    return Success(assembled);
  }

  /** The transform and the gate before the load, which never refuse closed weeks. */
  method BuildValidRows(source: Source, weeks: seq<Date>, newestClosed: Date)
        returns (rows: Result<seq<Record>, StageError>)
    requires weeks != [] && forall w :: w in weeks ==> IsMonday(w) && w <= newestClosed
    ensures rows == Success(RowsFor(source.events, source.products, weeks))
    ensures ValidBatch(rows.value, weeks)
  {
    RollupIsNeverRefused(source.events, source.products, weeks, newestClosed);
    RowsForHold(source.events, source.products, weeks);
    var built := BuildRows(source, weeks);
    if built.Failure? {
      return Failure(Broken("KpiInputError"));
    }
    var gate := RollupValidation.Validate(built.value, weeks, newestClosed);
    if gate.Failure? {
      return Failure(Refused("RollupValidationError"));
    }
    return Success(gate.value);
  }

  /** A completed run of the pipeline other than `own` read a later snapshot of a week in the range. */
  predicate IsLaterRun(t: RunTable, own: RunId, cutoff: Time, weeks: seq<Date>, id: RunId)
    requires weeks != []
  {
    && id in t && id != own
    && t[id].pipeline == Publication.PIPELINE && t[id].status == Completed && t[id].cutoff > cutoff
    && t[id].weeksFrom <= MaxWeek(weeks) && MinWeek(weeks) <= t[id].weeksTo
  }

  ghost predicate HasLaterRunOf(t: RunTable, own: RunId, cutoff: Time, weeks: seq<Date>)
    requires weeks != []
  {
    exists id :: IsLaterRun(t, own, cutoff, weeks, id)
  }

  /** `run` is a later run, and none read a later snapshot than it. */
  ghost predicate IsLatestOfThem(t: RunTable, own: RunId, cutoff: Time, weeks: seq<Date>, run: RunId)
    requires weeks != []
  {
    && IsLaterRun(t, own, cutoff, weeks, run)
    && forall id :: IsLaterRun(t, own, cutoff, weeks, id) ==> t[id].cutoff <= t[run].cutoff
  }

  /** The run's row is completed now, with its counts, and no other row changed. */
  predicate CompletesRow(before: RunTable, after: RunTable, id: RunId, now: Time, tally: LoadTally, read: nat) {
    && id in before && id in after && after.Keys == before.Keys
    && after[id]
       == before[id].(status := Completed, finishedAt := Some(now), tally := Some(tally), eventsRead := Some(read))
    && forall other :: other in before && other != id ==> after[other] == before[other]
  }

  /** The run's row, if it was running, is skipped in favour of `newer`, and no other row changed. */
  predicate SkipsRow(before: RunTable, after: RunTable, id: RunId, newer: RunId, now: Time, read: nat) {
    && after.Keys == before.Keys
    && (forall other :: other in before && other != id ==> after[other] == before[other])
    && (id in before ==>
          after[id] == if before[id].status != Running then before[id]
                       else before[id].(status := Skipped, finishedAt := Some(now), blockedBy := Some(newer),
                                        errorClass := Some("StaleSnapshot"), eventsRead := Some(read)))
  }

  /** The load stage, as the flow sees it: exactly when it publishes, gives way and fails. */
  method LoadStage(log: RunLogTable, report: ReportStore, r: LoadRequest, read: nat, loaded: Time, skipped: Time)
    returns (answer: Result<LoadAnswer, StageError>)
    requires log.Valid() && report.Valid() && ValidBatch(r.records, r.weeks)
    requires r.pipeline == Publication.PIPELINE && r.eventsRead == Some(read)
    modifies log, report
    ensures log.Valid() && report.Valid()
    ensures HasLaterRunOf(old(log.rows), r.run, r.cutoff, r.weeks) ==>
              && answer.Success? && answer.value.SupersededBy?
              && IsLatestOfThem(old(log.rows), r.run, r.cutoff, r.weeks, answer.value.run)
              && SkipsRow(old(log.rows), log.rows, r.run, answer.value.run, skipped, read)
              && report.cells == old(report.cells)
    ensures !HasLaterRunOf(old(log.rows), r.run, r.cutoff, r.weeks) && HoldsRow(old(log.rows), r.run) ==>
              && answer.Success? && answer.value.PublishedBy?
              && CompletesRow(old(log.rows), log.rows, r.run, loaded, answer.value.tally, read)
              && report.cells == PublishedTable(old(report.cells), BatchMap(r.records), r.weeks, loaded)
    ensures !HasLaterRunOf(old(log.rows), r.run, r.cutoff, r.weeks) && !HoldsRow(old(log.rows), r.run) ==>
              && answer == Failure(Broken("RunNotRunning"))
              && log.rows == old(log.rows) && report.cells == old(report.cells)
  {
    LaterRunsAgree(log.rows, r);
    ghost var before := log.rows;
    var result := LoadWeeklyRows(log, report, r, loaded, skipped);
    match result
    case Failure(_) =>
      answer := Failure(Broken("RunNotRunning"));
    case Success(LoadSkipped(newer)) =>
      SkippingSkips(before, r.run, newer, skipped, "StaleSnapshot", r.eventsRead);
      answer := Success(SupersededBy(newer));
    case Success(LoadCompleted(tally)) =>
      CompletingCompletes(before, r.run, loaded, tally, r.eventsRead);
      answer := Success(PublishedBy(tally));
  }

  predicate HoldsRow(t: RunTable, id: RunId) {
    id in t && t[id].status == Running
  }

  lemma LaterRunsAgree(t: RunTable, r: LoadRequest)
    requires r.pipeline == Publication.PIPELINE && r.weeks != []
    ensures HasLaterRun(t, r) <==> HasLaterRunOf(t, r.run, r.cutoff, r.weeks)
    ensures forall id :: IsNewestLaterRun(t, id, r) ==> IsLatestOfThem(t, r.run, r.cutoff, r.weeks, id)
  {
    assert forall id :: ReadLaterSnapshot(t, id, r.pipeline, r.run, r.cutoff, r.weeks)
                        <==> IsLaterRun(t, r.run, r.cutoff, r.weeks, id);
  }

  /** The report shows exactly `rows` in the recomputed weeks, and every other week as before. */
  ghost predicate ReportShows(before: ReportTable, after: ReportTable, rows: seq<Record>, weeks: seq<Date>) {
    forall week ::
      WeekOf(FiguresOf(after), week)
      == if week in weeks then WeekOf(BatchMap(rows), week) else WeekOf(FiguresOf(before), week)
  }

  lemma LoadedReportShows(before: ReportTable, rows: seq<Record>, weeks: seq<Date>, now: Time)
    requires ValidBatch(rows, weeks)
    ensures ReportShows(before, PublishedTable(before, BatchMap(rows), weeks, now), rows, weeks)
  {
    ValidBatchStaysIn(rows, weeks);
    forall week
      ensures WeekOf(FiguresOf(PublishedTable(before, BatchMap(rows), weeks, now)), week)
           == if week in weeks then WeekOf(BatchMap(rows), week) else WeekOf(FiguresOf(before), week)
    {
      LoadReplacesExactlyItsWeeks(before, BatchMap(rows), weeks, now, week);
      if week !in weeks {
        UnpublishedWeeksKeepFigures(before, BatchMap(rows), weeks, now, week);
      }
    }
  }

  /** The guard lets the attempt read. */
  predicate IsReached(handle: RunHandle, weeks: seq<Date>)
    requires weeks != []
  {
    handle.status != Skipped && handle.status != Completed && WindowEnd(weeks) <= handle.cutoff
  }

  /** What an attempt that has read its source publishes, and leaves in the run log. */
  ghost predicate HasPublished(
    before: RunTable, after: RunTable, cells: ReportTable, cellsAfter: ReportTable, id: RunId, read: Source,
    weeks: seq<Date>, loaded: Time, end: FlowEnd)
  {
    && end.Published? && end.read == |read.events|
    && CompletesRow(before, after, id, loaded, end.tally, end.read)
    && ReportShows(cells, cellsAfter, RowsFor(read.events, read.products, weeks), weeks)
  }

  /** The stages past the cutoff guard: extract, transform, validate, load. */
  method RunReachedStages(
    log: RunLogTable, report: ReportStore, handle: RunHandle, weeks: seq<Date>, newestClosed: Date,
    read: Source, loaded: Time, skipped: Time)
    returns (stages: Stages)
    requires log.Valid() && report.Valid()
    requires weeks != [] && forall w :: w in weeks ==> IsMonday(w) && w <= newestClosed
    modifies log, report
    ensures log.Valid() && report.Valid()
    ensures stages.extract == Success(|read.events|) && stages.transform.Success?
    ensures HasLaterRunOf(old(log.rows), handle.runId, handle.cutoff, weeks) ==>
              && stages.load.Success? && stages.load.value.SupersededBy?
              && IsLatestOfThem(old(log.rows), handle.runId, handle.cutoff, weeks, stages.load.value.run)
              && SkipsRow(old(log.rows), log.rows, handle.runId, stages.load.value.run, skipped, |read.events|)
              && report.cells == old(report.cells)
    ensures !HasLaterRunOf(old(log.rows), handle.runId, handle.cutoff, weeks)
            && HoldsRow(old(log.rows), handle.runId) ==>
              && stages.load.Success? && stages.load.value.PublishedBy?
              && CompletesRow(old(log.rows), log.rows, handle.runId, loaded, stages.load.value.tally, |read.events|)
              && ReportShows(old(report.cells), report.cells, RowsFor(read.events, read.products, weeks), weeks)
    ensures !HasLaterRunOf(old(log.rows), handle.runId, handle.cutoff, weeks)
            && !HoldsRow(old(log.rows), handle.runId) ==>
              && stages.load == Failure(Broken("RunNotRunning"))
              && log.rows == old(log.rows) && report.cells == old(report.cells)
  {
    var rows := BuildValidRows(read, weeks, newestClosed);
    var r := LoadRequest(
      Publication.PIPELINE, handle.runId, handle.cutoff, weeks, rows.value, Some(|read.events|));
    LoadedReportShows(report.cells, rows.value, weeks, loaded);
    var answer := LoadStage(log, report, r, |read.events|, loaded, skipped);
    stages := Stages(Success(|read.events|), Success(|rows.value|), answer);
  }

  /** From the handle on: the guard, the stages, and exactly how the attempt ends. */
  method RunOpened(
    log: RunLogTable, report: ReportStore, handle: RunHandle, weeks: seq<Date>, newestClosed: Date,
    source: Reading, loaded: Time, skipped: Time)
    returns (end: FlowEnd)
    requires log.Valid() && report.Valid()
    requires weeks != [] && forall w :: w in weeks ==> IsMonday(w) && w <= newestClosed
    requires forall ws, cutoff :: source(ws, cutoff).Failure? ==> !source(ws, cutoff).error.Refused?
    modifies log, report
    ensures log.Valid() && report.Valid()
    ensures handle.status == Skipped ==> end == SlotTaken(handle.blockedBy)
    ensures handle.status == Completed ==> end == AlreadyPublished
    ensures handle.status != Skipped && handle.status != Completed && handle.cutoff < WindowEnd(weeks) ==>
              end == WeekStillOpen
    ensures IsReached(handle, weeks) && source(weeks, handle.cutoff).Failure? ==>
              end == StageFailed(Extract, source(weeks, handle.cutoff).error.errorClass, None)
    ensures IsReached(handle, weeks) && source(weeks, handle.cutoff).Success? ==>
              var read := source(weeks, handle.cutoff).value;
              if HasLaterRunOf(old(log.rows), handle.runId, handle.cutoff, weeks)
              then
                && end.Superseded? && IsLatestOfThem(old(log.rows), handle.runId, handle.cutoff, weeks, end.run)
                && SkipsRow(old(log.rows), log.rows, handle.runId, end.run, skipped, |read.events|)
                && report.cells == old(report.cells)
              else if HoldsRow(old(log.rows), handle.runId)
              then
                HasPublished(
                  old(log.rows), log.rows, old(report.cells), report.cells, handle.runId, read, weeks, loaded, end)
              else
                && end == StageFailed(Load, "RunNotRunning", Some(|read.events|))
                && log.rows == old(log.rows) && report.cells == old(report.cells)
    ensures !(IsReached(handle, weeks) && source(weeks, handle.cutoff).Success?) ==>
              log.rows == old(log.rows) && report.cells == old(report.cells)
  {
    var stages := Stages(Success(0), Success(0), Failure(Broken("NotReached")));
    if handle.status != Skipped && handle.status != Completed && WindowEnd(weeks) <= handle.cutoff {
      match source(weeks, handle.cutoff) {
        case Failure(e) =>
          stages := Stages(Failure(e), Success(0), Failure(Broken("NotReached")));
        case Success(read) =>
          stages := RunReachedStages(log, report, handle, weeks, newestClosed, read, loaded, skipped);
      }
    }
    end := RunStages(handle, WindowEnd(weeks), stages);
    assert end.StageFailed? ==> FailsAt(stages, end.stage);
    assert stages.load.Failure? && stages.extract.Success? && stages.transform.Success? ==>
        (FailsAt(stages, Load) <==> !stages.load.error.Refused?);
    assert stages.extract.Failure? ==> (FailsAt(stages, Extract) <==> !stages.extract.error.Refused?);
  }

  // --- One attempt ---------------------------------------------------------------------

  function OpeningOf(flow: FlowId, weeks: seq<Date>, at: Moments): OpenRequest
    requires weeks != []
  {
    OpenRequest(Publication.PIPELINE, flow, MinWeek(weeks), MaxWeek(weeks), at.opening, at.freshId)
  }

  /** The flow run has a row, with this status. */
  ghost predicate OwnIs(t: RunTable, flow: FlowId, status: RunStatus) {
    exists id :: BelongsTo(t, flow, id) && t[id].status == status
  }

  /** The flow run needs a slot: it has no row yet, or a failed one. */
  ghost predicate NeedsASlot(t: RunTable, flow: FlowId) {
    forall id :: BelongsTo(t, flow, id) ==> t[id].status == Failed
  }

  ghost predicate IsRefused(t: RunTable, request: OpenRequest, terminal: FlowOracle) {
    (exists id, other :: IndexRefuses(t, request, id, other)) && !SlotIsHeld(t, request, terminal)
  }

  /** Its row was skipped before, or it needs a slot and a rival that may be alive holds it. */
  ghost predicate GivesWay(t: RunTable, request: OpenRequest, terminal: FlowOracle) {
    OwnIs(t, request.flow, Skipped) || (NeedsASlot(t, request.flow) && SlotIsHeld(t, request, terminal))
  }

  /** The cutoff the run reads under: its row's, or the moment of its insertion. */
  ghost function CutoffOf(t: RunTable, request: OpenRequest): Time {
    if id :| BelongsTo(t, request.flow, id) then t[id].cutoff else request.now
  }

  /** Another flow run completed a later snapshot of a week in the range. */
  predicate IsOvertakenBy(t: RunTable, flow: FlowId, cutoff: Time, weeks: seq<Date>, id: RunId)
    requires weeks != []
  {
    && id in t && t[id].flow != Some(flow)
    && t[id].pipeline == Publication.PIPELINE && t[id].status == Completed && t[id].cutoff > cutoff
    && t[id].weeksFrom <= MaxWeek(weeks) && MinWeek(weeks) <= t[id].weeksTo
  }

  ghost predicate IsOvertaken(t: RunTable, flow: FlowId, cutoff: Time, weeks: seq<Date>)
    requires weeks != []
  {
    exists id :: IsOvertakenBy(t, flow, cutoff, weeks, id)
  }

  /** How an opening is answered, from the table it finds. */
  lemma OpeningAnswers(t: RunTable, request: OpenRequest, terminal: FlowOracle)
    requires TableInvariant(t) && request.freshId !in t
    ensures var result := OpenRun(t, request, terminal);
            && (result.answer.Failure? <==> IsRefused(t, request, terminal))
            && (result.answer.Failure? ==> result.table == t)
            && (result.answer.Success? ==>
                  var handle := result.answer.value;
                  && (if GivesWay(t, request, terminal) then handle.status == Skipped
                      else if OwnIs(t, request.flow, Completed) then handle.status == Completed
                      else handle.status == Running)
                  && handle.cutoff == CutoffOf(t, request)
                  && HoldsItsRow(t, request, result.table, handle))
  {
    OpeningIsRefusedIff(t, request, terminal);
    OpenRunHasShape(t, request, terminal);
    if id :| BelongsTo(t, request.flow, id) {
      OpeningResumes(t, request, terminal, id);
      assert forall other :: BelongsTo(t, request.flow, other) ==> other == id;
    } else {
      OpeningInserts(t, request, terminal);
      assert forall id, other :: !IndexRefuses(t, request, id, other);
    }
  }

  /** The handle names the flow run's row, which has its status unless the slot is held. */
  ghost predicate HoldsItsRow(t: RunTable, request: OpenRequest, after: RunTable, handle: RunHandle) {
    && BelongsTo(after, request.flow, handle.runId)
    && after[handle.runId].cutoff == handle.cutoff
    && (handle.status == Running ==> after[handle.runId].status == Running)
    && (handle.status == Completed ==> handle.runId in t && after[handle.runId] == t[handle.runId])
    && (handle.runId !in t ==>
          && handle.runId == request.freshId
          && after[handle.runId].weeksFrom == request.weeksFrom && after[handle.runId].weeksTo == request.weeksTo)
  }

  /** Opening completes no run and changes no completed one, so the later runs are the same after it. */
  lemma OpeningKeepsLaterRuns(t: RunTable, request: OpenRequest, terminal: FlowOracle, weeks: seq<Date>)
    requires TableInvariant(t) && request.freshId !in t && weeks != []
    requires OpenRun(t, request, terminal).answer.Success?
    requires OpenRun(t, request, terminal).answer.value.status == Running
    ensures var result := OpenRun(t, request, terminal);
            var own, cutoff := result.answer.value.runId, result.answer.value.cutoff;
            forall id :: IsLaterRun(result.table, own, cutoff, weeks, id)
                         <==> IsOvertakenBy(t, request.flow, cutoff, weeks, id)
  {
    var result := OpenRun(t, request, terminal);
    OpenRunHasShape(t, request, terminal);
    OpeningAnswers(t, request, terminal);
    var own, cutoff := result.answer.value.runId, result.answer.value.cutoff;
    forall id
      ensures IsLaterRun(result.table, own, cutoff, weeks, id) <==> IsOvertakenBy(t, request.flow, cutoff, weeks, id)
    {
      if id in t && t[id].flow != Some(request.flow) {
        OpeningFailsTheDead(t, request, terminal, id);
        assert BelongsTo(result.table, request.flow, own);
      } else if id in result.table {
        assert id == request.freshId || BelongsTo(t, request.flow, id);
        assert BelongsTo(result.table, request.flow, id);
      }
    }
  }

  /** Whom a run that gives way names: the rival that holds its slot, or whom its skipped row names. */
  ghost predicate NamesItsHolder(t: RunTable, request: OpenRequest, terminal: FlowOracle, holder: Option<RunId>) {
    if OwnIs(t, request.flow, Skipped)
    then exists id :: BelongsTo(t, request.flow, id) && holder == t[id].blockedBy
    else IsHolder(t, request, terminal, holder)
  }

  lemma GivingWayNamesTheHolder(t: RunTable, request: OpenRequest, terminal: FlowOracle)
    requires TableInvariant(t) && request.freshId !in t && GivesWay(t, request, terminal)
    requires OpenRun(t, request, terminal).answer.Success?
    ensures NamesItsHolder(t, request, terminal, OpenRun(t, request, terminal).answer.value.blockedBy)
  {
    if id :| BelongsTo(t, request.flow, id) {
      OpeningResumes(t, request, terminal, id);
      assert forall other :: BelongsTo(t, request.flow, other) ==> other == id;
    } else {
      OpeningInserts(t, request, terminal);
    }
  }

  /** The tables and the source an attempt meets. */
  datatype Setting = Setting(
    runs: RunTable, cells: ReportTable, opening: OpenRequest, weeks: seq<Date>, terminal: FlowOracle,
    source: Reading, loaded: Time)

  /** The flow run's row afterwards: completed with what the load did, under the cutoff the run read at. */
  ghost predicate OwnRowIsCompleted(x: Setting, after: RunTable, tally: LoadTally, read: nat) {
    exists id ::
      && BelongsTo(after, x.opening.flow, id)
      && after[id].status == Completed && after[id].finishedAt == Some(x.loaded)
      && after[id].tally == Some(tally) && after[id].eventsRead == Some(read)
      && after[id].cutoff == CutoffOf(x.runs, x.opening)
      && (id !in x.runs ==> after[id].weeksFrom == x.opening.weeksFrom && after[id].weeksTo == x.opening.weeksTo)
  }

  ghost predicate OwnRowGaveWay(x: Setting, after: RunTable, newer: RunId) {
    exists id ::
      BelongsTo(after, x.opening.flow, id) && after[id].status == Skipped && after[id].blockedBy == Some(newer)
  }

  /**
   How an attempt ends, from the tables it finds and what reading the source answers:
   every end under exactly the conditions that bring it about.
   */
  ghost predicate EndsAsItMust(x: Setting, after: RunTable, cells: ReportTable, result: AttemptEnd)
    requires x.weeks != []
  {
    var flow, cutoff := x.opening.flow, CutoffOf(x.runs, x.opening);
    if IsRefused(x.runs, x.opening, x.terminal) then
      result == NotOpened(OneRunningViolated) && after == x.runs && cells == x.cells
    else if GivesWay(x.runs, x.opening, x.terminal) then
      && result.Ended? && result.end.SlotTaken?
      && NamesItsHolder(x.runs, x.opening, x.terminal, result.end.holder) && cells == x.cells
    else if OwnIs(x.runs, flow, Completed) then
      && result == Ended(AlreadyPublished) && cells == x.cells
      && forall id :: BelongsTo(x.runs, flow, id) ==> id in after && after[id] == x.runs[id]
    else if cutoff < WindowEnd(x.weeks) then
      result == Ended(WeekStillOpen) && cells == x.cells
    else
      match x.source(x.weeks, cutoff)
      case Failure(e) => result == Ended(StageFailed(Extract, e.errorClass, None)) && cells == x.cells
      case Success(read) =>
        if IsOvertaken(x.runs, flow, cutoff, x.weeks) then
          && result.Ended? && result.end.Superseded? && cells == x.cells
          && IsOvertakenBy(x.runs, flow, cutoff, x.weeks, result.end.run)
          && (forall id :: IsOvertakenBy(x.runs, flow, cutoff, x.weeks, id) ==>
                x.runs[id].cutoff <= x.runs[result.end.run].cutoff)
          && OwnRowGaveWay(x, after, result.end.run)
        else
          && result.Ended? && result.end.Published? && result.end.read == |read.events|
          && ReportShows(x.cells, cells, RowsFor(read.events, read.products, x.weeks), x.weeks)
          && OwnRowIsCompleted(x, after, result.end.tally, result.end.read)
  }

  /** Beside opening, an attempt writes its own row alone, and only to publish or to give way to a newer run. */
  ghost predicate WritesItsRowAlone(x: Setting, after: RunTable, result: AttemptEnd) {
    var ready := OpenRun(x.runs, x.opening, x.terminal).table;
    && after.Keys == ready.Keys
    && forall id ::
         && id in ready
         && (ready[id].flow == Some(x.opening.flow) && result.Ended?
             ==> !result.end.Published? && !result.end.Superseded?)
         ==> after[id] == ready[id]
  }

  lemma CompletedRowIsOwn(x: Setting, mid: RunTable, handle: RunHandle, after: RunTable, tally: LoadTally, read: nat)
    requires HoldsItsRow(x.runs, x.opening, mid, handle) && handle.cutoff == CutoffOf(x.runs, x.opening)
    requires CompletesRow(mid, after, handle.runId, x.loaded, tally, read)
    ensures OwnRowIsCompleted(x, after, tally, read)
  {
    var id := handle.runId;
    assert BelongsTo(after, x.opening.flow, id);
  }

  lemma SkippedRowIsOwn(
    x: Setting, mid: RunTable, handle: RunHandle, after: RunTable, newer: RunId, now: Time, read: nat)
    requires HoldsItsRow(x.runs, x.opening, mid, handle) && handle.status == Running
    requires SkipsRow(mid, after, handle.runId, newer, now, read)
    ensures OwnRowGaveWay(x, after, newer)
  {
    assert BelongsTo(after, x.opening.flow, handle.runId);
  }

  /** What an opened run leaves, carried over to the whole attempt. */
  lemma OpenedRunEnds(
    x: Setting, mid: RunTable, handle: RunHandle, after: RunTable, cells: ReportTable, end: FlowEnd, skipped: Time)
    requires TableInvariant(x.runs) && x.opening.freshId !in x.runs && x.weeks != []
    requires OpenRun(x.runs, x.opening, x.terminal) == OpenResult(mid, Success(handle))
    requires handle.status == Running && WindowEnd(x.weeks) <= handle.cutoff
    requires x.source(x.weeks, handle.cutoff).Success?
    requires var read := x.source(x.weeks, handle.cutoff).value;
             if HasLaterRunOf(mid, handle.runId, handle.cutoff, x.weeks)
             then
               && end.Superseded? && IsLatestOfThem(mid, handle.runId, handle.cutoff, x.weeks, end.run)
               && SkipsRow(mid, after, handle.runId, end.run, skipped, |read.events|) && cells == x.cells
             else HasPublished(mid, after, x.cells, cells, handle.runId, read, x.weeks, x.loaded, end)
    ensures EndsAsItMust(x, after, cells, Ended(end))
  {
    OpeningAnswers(x.runs, x.opening, x.terminal);
    LatestIsTheSame(x, mid, handle);
    var read := x.source(x.weeks, handle.cutoff).value;
    if IsOvertaken(x.runs, x.opening.flow, handle.cutoff, x.weeks) {
      SkippedRowIsOwn(x, mid, handle, after, end.run, skipped, |read.events|);
    } else {
      CompletedRowIsOwn(x, mid, handle, after, end.tally, end.read);
    }
  }

  lemma LatestIsTheSame(x: Setting, mid: RunTable, handle: RunHandle)
    requires TableInvariant(x.runs) && x.opening.freshId !in x.runs && x.weeks != []
    requires OpenRun(x.runs, x.opening, x.terminal) == OpenResult(mid, Success(handle)) && handle.status == Running
    ensures HasLaterRunOf(mid, handle.runId, handle.cutoff, x.weeks)
       <==> IsOvertaken(x.runs, x.opening.flow, handle.cutoff, x.weeks)
    ensures forall run :: IsLatestOfThem(mid, handle.runId, handle.cutoff, x.weeks, run) ==>
              && IsOvertakenBy(x.runs, x.opening.flow, handle.cutoff, x.weeks, run)
              && forall id :: IsOvertakenBy(x.runs, x.opening.flow, handle.cutoff, x.weeks, id) ==>
                   x.runs[id].cutoff <= x.runs[run].cutoff
  {
    OpeningKeepsLaterRuns(x.runs, x.opening, x.terminal, x.weeks);
    OpenRunHasShape(x.runs, x.opening, x.terminal);
    assert forall id :: id in x.runs ==> id in mid && mid[id].cutoff == x.runs[id].cutoff;
  }

  /**
   One attempt. A run that is refused or gives way, has already published, or whose week
   is still open leaves the report alone; otherwise it reads, and publishes the rollup
   of what it read unless a newer snapshot is published. The transform never raises and
   the gate never refuses.
   */
  method Attempt(
    log: RunLogTable, report: ReportStore, flow: FlowId, request: WeekRequest, at: Moments, terminal: FlowOracle,
    source: Reading)
    returns (result: AttemptEnd)
    requires log.Valid() && report.Valid() && at.freshId !in log.rows
    requires forall ws, cutoff :: source(ws, cutoff).Failure? ==> !source(ws, cutoff).error.Refused?
    modifies log, report
    ensures log.Valid() && report.Valid()
    ensures var listed := ClosedWeeks(at.computed, request);
            match listed
            case Failure(e) =>
              result == InvalidRequest(e) && log.rows == old(log.rows) && report.cells == old(report.cells)
            case Success(weeks) =>
              var x := Setting(
                old(log.rows), old(report.cells), OpeningOf(flow, weeks, at), weeks, terminal, source, at.loaded);
              && weeks != []
              && EndsAsItMust(x, log.rows, report.cells, result)
              && WritesItsRowAlone(x, log.rows, result)
  {
    var listed := ClosedWeeks(at.computed, request);
    if listed.Failure? {
      return InvalidRequest(listed.error);
    }
    var weeks := listed.value;
    WeeksAreClosed(at.computed, request);
    var opens := OpeningOf(flow, weeks, at);
    ghost var x := Setting(log.rows, report.cells, opens, weeks, terminal, source, at.loaded);
    OpeningAnswers(log.rows, opens, terminal);
    var answer := log.OpenRunRow(opens, terminal);
    if answer.Failure? {
      return NotOpened(answer.error);
    }
    ghost var mid := log.rows;
    var handle := answer.value;
    if handle.status == Skipped {
      GivingWayNamesTheHolder(x.runs, opens, terminal);
    }
    var end := RunOpened(log, report, handle, weeks, LastClosedWeek(at.computed), source, at.loaded, at.skipped);
    if IsReached(handle, weeks) && source(weeks, handle.cutoff).Success? {
      OpenedRunEnds(x, mid, handle, log.rows, report.cells, end, at.skipped);
    }
    return Ended(end);
  }
}

/**
 The stages of one flow run and the backfill over a range of weeks
 (data/pipelines/pipeline.py). Publication.dfy interleaves whole runs.

 What the stages answer is given here; WeeklyRun.dfy runs them. Their Prefect tasks are
 not part of this model.
 */
module WeeklyFlow {
  import opened Common
  import opened Weeks
  import opened RunLog

  /** What the load stage answers: published, or superseded by a newer snapshot. */
  datatype LoadAnswer = PublishedBy(tally: LoadTally) | SupersededBy(run: RunId)

  /** Why a stage failed: the load stage validates first, and says so. */
  datatype StageError = Refused(errorClass: string) | Broken(errorClass: string)

  datatype FlowEnd =
    | SlotTaken(holder: Option<RunId>)
    | AlreadyPublished
    | WeekStillOpen
    | StageFailed(stage: ErrorStage, errorClass: string, eventsRead: Option<nat>)
    | Superseded(run: RunId)
    | Published(tally: LoadTally, read: nat)

  /** What the stages answer when they are reached. */
  datatype Stages = Stages(
    extract: Result<nat, StageError>, transform: Result<nat, StageError>, load: Result<LoadAnswer, StageError>)

  /** The stage that a failure is recorded under. */
  predicate FailsAt(stages: Stages, stage: ErrorStage) {
    match stage
    case Extract => stages.extract.Failure? && !stages.extract.error.Refused?
    case Transform => stages.extract.Success? && stages.transform.Failure? && !stages.transform.error.Refused?
    case Load =>
      && stages.extract.Success? && stages.transform.Success?
      && stages.load.Failure? && !stages.load.error.Refused?
    case Validate =>
      || (stages.extract.Failure? && stages.extract.error.Refused?)
      || (stages.extract.Success? && stages.transform.Failure? && stages.transform.error.Refused?)
      || (stages.extract.Success? && stages.transform.Success? && stages.load.Failure? && stages.load.error.Refused?)
  }

  /** The run went past its handle and the cutoff guard. */
  predicate Reaches(handle: RunHandle, windowEnd: Time) {
    handle.status != Skipped && handle.status != Completed && windowEnd <= handle.cutoff
  }

  /**
   The stages run in order and stop at the first that fails; the failure carries
   the stage it is recorded under, and the number of events read once they were.
   */
  method RunStages(handle: RunHandle, windowEnd: Time, stages: Stages) returns (end: FlowEnd)
    ensures end.SlotTaken? <==> handle.status == Skipped
    ensures end.SlotTaken? ==> end.holder == handle.blockedBy
    ensures end.AlreadyPublished? <==> handle.status == Completed
    ensures end.StageFailed? || end.Superseded? || end.Published? <==> Reaches(handle, windowEnd)
    ensures forall stage ::
              (Reaches(handle, windowEnd) && FailsAt(stages, stage) <==> end.StageFailed? && end.stage == stage)
    ensures end.StageFailed? ==> (end.eventsRead.Some? <==> stages.extract.Success?)
    ensures end.StageFailed? && end.eventsRead.Some? ==> end.eventsRead.value == stages.extract.value
    ensures end.StageFailed? ==>
              end.errorClass == if stages.extract.Failure? then stages.extract.error.errorClass
                                else if stages.transform.Failure? then stages.transform.error.errorClass
                                else if stages.load.Failure? then stages.load.error.errorClass
                                else ""
    ensures end.Published? ==>
              && stages.extract == Success(end.read) && stages.transform.Success?
              && stages.load == Success(PublishedBy(end.tally))
    ensures end.Superseded? ==>
              stages.extract.Success? && stages.transform.Success? && stages.load == Success(SupersededBy(end.run))
  {
    if handle.status == Skipped {
      return SlotTaken(handle.blockedBy);
    }
    if handle.status == Completed {
      return AlreadyPublished;
    }
    if windowEnd > handle.cutoff {
      return WeekStillOpen;
    }
    var stage := Extract;
    var eventsRead: Option<nat> := None;
    var error: Option<StageError> := None;
    match stages.extract {
      case Failure(e) =>
        error := Some(e);
      case Success(events) =>
        eventsRead := Some(events);
        stage := Transform;
        match stages.transform {
          case Failure(e) =>
            error := Some(e);
          case Success(_) =>
            stage := Load;
            match stages.load {
              case Failure(e) =>
                error := Some(e);
              case Success(SupersededBy(run)) =>
                return Superseded(run);
              case Success(PublishedBy(tally)) =>
                return Published(tally, events);
            }
        }
    }
    if error.value.Refused? {
      stage := Validate;
    }
    return StageFailed(stage, error.value.errorClass, eventsRead);
  }

  // --- Backfill ------------------------------------------------------------------------

  datatype BackfillError = Unusable(reason: InvalidWeek) | NotAllClosed | StoppedAt(week: Date)

  /** Every Monday of `[fromWeek, week)` has been rebuilt. */
  ghost predicate RebuiltBefore<T(!new)>(outcome: Date -> Option<T>, fromWeek: Date, week: Date) {
    forall w: Date :: IsMonday(w) && fromWeek <= w < week ==> outcome(w).Some?
  }

  /**
   Rebuilds a range of weeks, oldest first, one subflow run per week; `outcome` is
   the result of each week's run, if it completes. It stops at the first week that
   does not, with every earlier week done.
   */
  method Backfill<T(!new)>(fromWeek: Date, toWeek: Date, now: Time, outcome: Date -> Option<T>)
    returns (results: Result<seq<T>, BackfillError>)
    ensures results.Success? <==>
            && IsMonday(fromWeek) && IsMonday(toWeek) && fromWeek <= toWeek <= LastClosedWeek(now)
            && RebuiltBefore(outcome, fromWeek, toWeek + 7)
    ensures results.Success? ==>
              && |results.value| == (toWeek - fromWeek) / 7 + 1
              && forall i :: 0 <= i < |results.value| ==> Some(results.value[i]) == outcome(fromWeek + 7 * i)
    ensures results.Failure? && results.error.StoppedAt? ==>
              var week := results.error.week;
              && IsMonday(week) && fromWeek <= week <= toWeek
              && outcome(week).None? && RebuiltBefore(outcome, fromWeek, week)
  {
    var listed := WeeksBetween(fromWeek, toWeek);
    if listed.Failure? {
      return Failure(Unusable(listed.error));
    }
    var weeks := listed.value;
    assert weeks[|weeks| - 1] == toWeek;
    if weeks[|weeks| - 1] > LastClosedWeek(now) {
      return Failure(NotAllClosed);
    }
    var done: seq<T> := [];
    for i := 0 to |weeks|
      invariant |done| == i
      invariant forall j :: 0 <= j < i ==> outcome(weeks[j]) == Some(done[j])
      invariant RebuiltBefore(outcome, fromWeek, fromWeek + 7 * i)
    {
      match outcome(weeks[i]) {
        case None =>
          return Failure(StoppedAt(weeks[i]));
        case Some(result) =>
          done := done + [result];
      }
    }
    return Success(done);
  }

  /**
   A backfill that stopped can be resumed from the week that failed: the weeks
   already done and the weeks of the second call are the weeks of the first, in
   order and each once.
   */
  lemma ResumingCoversTheRange(fromWeek: Date, week: Date, toWeek: Date)
    requires IsMonday(fromWeek) && IsMonday(week) && IsMonday(toWeek) && fromWeek < week <= toWeek
    ensures var done, rest := WeeksBetween(fromWeek, week - 7), WeeksBetween(week, toWeek);
            && done.Success? && rest.Success?
            && WeeksBetween(fromWeek, toWeek) == Success(done.value + rest.value)
  {
    var done, rest := WeeksBetween(fromWeek, week - 7).value, WeeksBetween(week, toWeek).value;
    var all := WeeksBetween(fromWeek, toWeek).value;
    var n := (week - fromWeek) / 7;
    assert all == done + rest;
  }
}

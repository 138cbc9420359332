/** What one execution and each transition do, in the rows' own fields (services/job_runner/service.py). */
module JobLaws {
  import opened Common
  import opened Weeks
  import opened JobRuns

  predicate Holds(r: JobRun, job: string) {
    r.job == job && (r.status == Pending || r.status == Processing)
  }

  /** A row that held the job for longer than `staleAfter` is failed; every other row is left alone. */
  predicate IsAfterSweep(r: JobRun, after: JobRun, job: string, staleAfter: Time, at: Time) {
    if Holds(r, job) && r.createdAt + staleAfter < at
    then after == JobRun(job, r.date, Failed, r.startedAt, Some(at),
                         Some("Abandoned: the run stopped without recording an outcome"), r.createdAt)
    else after == r
  }

  /** The text kept of an error: at most 2000 characters, never empty. */
  predicate IsKeptText(kept: string, error: string) {
    if error == "" then kept == "Unknown error"
    else kept <= error && |kept| == if |error| <= 2000 then |error| else 2000
  }

  predicate IsRowOf(r: JobRun, job: string, date: Date, work: WorkResult, at: Time) {
    && r.job == job && r.date == date && r.createdAt == at && r.startedAt == Some(at) && r.finishedAt == Some(at)
    && match work
       case Returns => r.status == Completed && r.errorMessage == None
       case Raises(error) => r.status == Failed && r.errorMessage.Some? && IsKeptText(r.errorMessage.value, error)
  }

  predicate IsHeld(rows: Rows, job: string, staleAfter: Time, at: Time) {
    exists i :: 0 <= i < |rows| && Holds(rows[i], job) && rows[i].createdAt + staleAfter >= at
  }

  predicate IsDone(rows: Rows, job: string, date: Date) {
    exists i :: 0 <= i < |rows| && rows[i].job == job && rows[i].date == date && rows[i].status == Completed
  }

  lemma SweptRowIs(r: JobRun, job: string, staleAfter: Time, at: Time)
    ensures var after := SweptRow(r, job, staleAfter, at);
            && IsAfterSweep(r, after, job, staleAfter, at)
            && (after.job == job && IsActive(after) <==> Holds(r, job) && r.createdAt + staleAfter >= at)
  {
  }

  lemma SweepLeavesTheLive(rows: Rows, job: string, staleAfter: Time, at: Time)
    ensures HasProcessingLock(Sweep(rows, job, staleAfter, at), job) <==> IsHeld(rows, job, staleAfter, at)
  {
    var swept := Sweep(rows, job, staleAfter, at);
    if i :| 0 <= i < |rows| && Holds(rows[i], job) && rows[i].createdAt + staleAfter >= at {
      SweptRowIs(rows[i], job, staleAfter, at);
      assert swept[i].job == job && IsActive(swept[i]);
    }
    if i :| 0 <= i < |swept| && swept[i].job == job && IsActive(swept[i]) {
      SweptRowIs(rows[i], job, staleAfter, at);
      assert Holds(rows[i], job);
    }
  }

  lemma SweepLeavesTheDone(rows: Rows, job: string, staleAfter: Time, at: Time, date: Date)
    ensures HasCompletedForDate(Sweep(rows, job, staleAfter, at), job, date) <==> IsDone(rows, job, date)
  {
    var swept := Sweep(rows, job, staleAfter, at);
    if i :| 0 <= i < |rows| && rows[i].job == job && rows[i].date == date && rows[i].status == Completed {
      assert CompletedFor(swept[i], job, date);
    }
    if i :| 0 <= i < |swept| && CompletedFor(swept[i], job, date) {
      assert rows[i].status == Completed;
    }
  }

  /**
   An execution first fails the rows that held the job too long. It gives up when a
   live row holds the job, is skipped when the date is done, and otherwise leaves
   one row that says how the work ended.
   */
  lemma RunFollowsTheRows(rows: Rows, job: string, date: Date, staleAfter: Time, work: WorkResult, at: Time)
    ensures var (after, outcome) := RunAlone(rows, job, date, staleAfter, work, at);
            var held, done := IsHeld(rows, job, staleAfter, at), IsDone(rows, job, date);
            && |after| == |rows| + (if held || done then 0 else 1)
            && (forall i :: 0 <= i < |rows| ==> IsAfterSweep(rows[i], after[i], job, staleAfter, at))
            && (!held && !done ==> IsRowOf(after[|rows|], job, date, work, at))
            && outcome == (if held then AbortedLocked
                           else if done then SkippedDuplicate
                           else match work case Returns => RanToCompletion case Raises(error) => Raised(error))
  {
    SweepLeavesTheLive(rows, job, staleAfter, at);
    SweepLeavesTheDone(rows, job, staleAfter, at, date);
    forall i | 0 <= i < |rows|
      ensures IsAfterSweep(rows[i], Sweep(rows, job, staleAfter, at)[i], job, staleAfter, at)
    {
      SweptRowIs(rows[i], job, staleAfter, at);
    }
  }

  /** Only the one row may differ, and it keeps its identity. */
  predicate OnlyMoves(rows: Rows, after: Rows, id: nat, to: JobStatus) {
    && id < |rows| == |after| && (forall i :: 0 <= i < |rows| && i != id ==> after[i] == rows[i])
    && after[id].status == to
    && after[id].job == rows[id].job && after[id].date == rows[id].date && after[id].createdAt == rows[id].createdAt
  }

  /** Pending goes to processing, processing to completed, either to failed, and nothing else moves. */
  lemma TransitionsMoveOneRow(rows: Rows, id: nat, message: string, at: Time)
    ensures var after := MarkedProcessing(rows, id, at);
            && (after.Some? <==> id < |rows| && rows[id].status == Pending)
            && (after.Some? ==>
                  && OnlyMoves(rows, after.value, id, Processing) && after.value[id].startedAt == Some(at)
                  && after.value[id].finishedAt == rows[id].finishedAt
                  && after.value[id].errorMessage == rows[id].errorMessage)
    ensures var after := MarkedCompleted(rows, id, at);
            && (after.Some? <==> id < |rows| && rows[id].status == Processing)
            && (after.Some? ==>
                  && OnlyMoves(rows, after.value, id, Completed) && after.value[id].finishedAt == Some(at)
                  && after.value[id].startedAt == rows[id].startedAt
                  && after.value[id].errorMessage == rows[id].errorMessage)
    ensures var after := MarkedFailed(rows, id, message, at);
            && (after.Some? <==> id < |rows| && (rows[id].status == Pending || rows[id].status == Processing))
            && (after.Some? ==>
                  && OnlyMoves(rows, after.value, id, Failed) && after.value[id].finishedAt == Some(at)
                  && after.value[id].startedAt == rows[id].startedAt
                  && after.value[id].errorMessage.Some? && IsKeptText(after.value[id].errorMessage.value, message))
  {
  }
}

/**
 The `job_runs` table and `run_job` (services/job_runner/service.py and models.py),
 one execution at a time. JobExecutions.dfy interleaves executions.

 Rows are listed in the order they were inserted and a row's id is its place, which
 stands for the random ids of the source being all different.
 */
module JobRuns {
  import opened Common
  import opened Weeks

  const STALE_AFTER: Time := 6 * 3_600_000_000
  const MAX_ERROR_MESSAGE: nat := 2000
  const ABANDONED_MESSAGE: string := "Abandoned: the run stopped without recording an outcome"

  datatype JobStatus = Pending | Processing | Completed | Failed

  datatype JobRun = JobRun(
    job: string, date: Date, status: JobStatus, startedAt: Option<Time>, finishedAt: Option<Time>,
    errorMessage: Option<string>, createdAt: Time)

  type Rows = seq<JobRun>

  datatype Outcome = RanToCompletion | SkippedDuplicate | AbortedLocked | Raised(error: string)

  predicate IsActive(r: JobRun) { r.status.Pending? || r.status.Processing? }

  predicate IsFinal(r: JobRun) { !IsActive(r) }

  predicate HasProcessingLock(rows: Rows, job: string) {
    exists i :: 0 <= i < |rows| && rows[i].job == job && IsActive(rows[i])
  }

  predicate CompletedFor(r: JobRun, job: string, date: Date) {
    r.job == job && r.date == date && r.status.Completed?
  }

  predicate HasCompletedForDate(rows: Rows, job: string, date: Date) {
    exists i :: 0 <= i < |rows| && CompletedFor(rows[i], job, date)
  }

  // --- Transactions, as functions of the rows ------------------------------------------

  predicate IsStale(r: JobRun, job: string, olderThan: Time, now: Time) {
    r.job == job && IsActive(r) && r.createdAt < now - olderThan
  }

  function FailedRow(r: JobRun, message: string, now: Time): JobRun {
    r.(status := Failed, finishedAt := Some(now), errorMessage := Some(message))
  }

  function SweptRow(r: JobRun, job: string, olderThan: Time, now: Time): JobRun {
    if IsStale(r, job, olderThan, now) then FailedRow(r, ABANDONED_MESSAGE, now) else r
  }

  function Sweep(rows: Rows, job: string, olderThan: Time, now: Time): (r: Rows)
    ensures |r| == |rows|
    ensures forall i :: 0 <= i < |rows| ==> r[i] == SweptRow(rows[i], job, olderThan, now)
  {
    if rows == [] then [] else [SweptRow(rows[0], job, olderThan, now)] + Sweep(rows[1..], job, olderThan, now)
  }

  function NewRow(job: string, date: Date, now: Time): JobRun {
    JobRun(job, date, Pending, None, None, None, now)
  }

  /** The insert of `create_job_run`: the unique index lets a job hold one active row. */
  function Claim(rows: Rows, job: string, date: Date, now: Time): Option<Rows> {
    if HasProcessingLock(rows, job) then None else Some(rows + [NewRow(job, date, now)])
  }

  function MarkedProcessing(rows: Rows, id: nat, now: Time): Option<Rows> {
    if id < |rows| && rows[id].status.Pending?
    then Some(rows[id := rows[id].(status := Processing, startedAt := Some(now))])
    else None
  }

  function MarkedCompleted(rows: Rows, id: nat, now: Time): Option<Rows> {
    if id < |rows| && rows[id].status.Processing?
    then Some(rows[id := rows[id].(status := Completed, finishedAt := Some(now))])
    else None
  }

  function Recorded(message: string): string {
    var text := if message == "" then "Unknown error" else message;
    if |text| > MAX_ERROR_MESSAGE then text[..MAX_ERROR_MESSAGE] else text
  }

  function MarkedFailed(rows: Rows, id: nat, message: string, now: Time): Option<Rows> {
    if id < |rows| && IsActive(rows[id]) then Some(rows[id := FailedRow(rows[id], Recorded(message), now)])
    else None
  }

  // --- What every transaction keeps ----------------------------------------------------

  /** The table's check constraints on one row. */
  predicate MeetsConstraints(r: JobRun) {
    && (r.status.Pending? || r.status.Failed? || r.startedAt.Some?)
    && ((r.status.Completed? || r.status.Failed?) <==> r.finishedAt.Some?)
    && (r.status.Failed? ==> r.errorMessage.Some?)
  }

  /** Only the newest row of a job may be active. */
  predicate OnlyNewestActive(rows: Rows) {
    forall i, j :: 0 <= i < j < |rows| && rows[i].job == rows[j].job ==> IsFinal(rows[i])
  }

  predicate TableInvariant(rows: Rows) {
    && OnlyNewestActive(rows)
    && forall i :: 0 <= i < |rows| ==> MeetsConstraints(rows[i])
  }

  /** How one row may move on: final rows never change, active ones keep their identity. */
  predicate RowEvolves(before: JobRun, after: JobRun) {
    && after.job == before.job && after.date == before.date && after.createdAt == before.createdAt
    && (IsFinal(before) ==> after == before)
    && (before.status.Processing? ==> !after.status.Pending? && after.startedAt == before.startedAt)
  }

  predicate RowsEvolve(before: Rows, after: Rows) {
    && |before| <= |after|
    && forall i :: 0 <= i < |before| ==> RowEvolves(before[i], after[i])
  }

  lemma SweepKeeps(rows: Rows, job: string, olderThan: Time, now: Time)
    requires TableInvariant(rows)
    ensures TableInvariant(Sweep(rows, job, olderThan, now)) && RowsEvolve(rows, Sweep(rows, job, olderThan, now))
  {
    var after := Sweep(rows, job, olderThan, now);
    forall i, j | 0 <= i < j < |after| && after[i].job == after[j].job
      ensures IsFinal(after[i])
    {
      assert rows[i].job == rows[j].job;
    }
  }

  lemma ClaimKeeps(rows: Rows, job: string, date: Date, now: Time)
    requires TableInvariant(rows) && Claim(rows, job, date, now).Some?
    ensures TableInvariant(Claim(rows, job, date, now).value)
    ensures RowsEvolve(rows, Claim(rows, job, date, now).value)
  {
  }

  lemma UpdateKeeps(rows: Rows, id: nat, row: JobRun)
    requires TableInvariant(rows) && id < |rows|
    requires IsActive(rows[id]) && RowEvolves(rows[id], row) && MeetsConstraints(row)
    ensures TableInvariant(rows[id := row]) && RowsEvolve(rows, rows[id := row])
  {
    var after := rows[id := row];
    forall i, j | 0 <= i < j < |rows| && after[i].job == after[j].job
      ensures IsFinal(after[i])
    {
      assert rows[i].job == rows[j].job;
    }
  }

  lemma MarksKeep(rows: Rows, id: nat, message: string, now: Time)
    requires TableInvariant(rows)
    ensures MarkedProcessing(rows, id, now).Some? ==>
              && TableInvariant(MarkedProcessing(rows, id, now).value)
              && RowsEvolve(rows, MarkedProcessing(rows, id, now).value)
    ensures MarkedCompleted(rows, id, now).Some? ==>
              && TableInvariant(MarkedCompleted(rows, id, now).value)
              && RowsEvolve(rows, MarkedCompleted(rows, id, now).value)
    ensures MarkedFailed(rows, id, message, now).Some? ==>
              && TableInvariant(MarkedFailed(rows, id, message, now).value)
              && RowsEvolve(rows, MarkedFailed(rows, id, message, now).value)
  {
    if id < |rows| && IsActive(rows[id]) {
      assert MeetsConstraints(rows[id]);
      UpdateKeeps(rows, id, FailedRow(rows[id], Recorded(message), now));
      if rows[id].status.Pending? {
        UpdateKeeps(rows, id, rows[id].(status := Processing, startedAt := Some(now)));
      }
      if rows[id].status.Processing? {
        UpdateKeeps(rows, id, rows[id].(status := Completed, finishedAt := Some(now)));
      }
    }
  }

  // --- run_job, alone ------------------------------------------------------------------

  /** How the caller's work ends. */
  datatype WorkResult = Returns | Raises(error: string)

  /** The row of an execution whose work has ended. */
  function EndedRow(claimed: JobRun, work: WorkResult, at: Time): JobRun {
    var started := claimed.(startedAt := Some(at), finishedAt := Some(at));
    match work
    case Returns => started.(status := Completed)
    case Raises(error) => started.(status := Failed, errorMessage := Some(Recorded(error)))
  }

  /** What `run_job` does to the table and returns when nothing else touches the table meanwhile. */
  function RunAlone(
    rows: Rows, job: string, date: Date, staleAfter: Time, work: WorkResult, at: Time): (Rows, Outcome)
  {
    var swept := Sweep(rows, job, staleAfter, at);
    if HasProcessingLock(swept, job) then (swept, AbortedLocked)
    else if HasCompletedForDate(swept, job, date) then (swept, SkippedDuplicate)
    else
      (swept + [EndedRow(NewRow(job, date, at), work, at)],
       match work case Returns => RanToCompletion case Raises(error) => Raised(error))
  }

  class JobRunner {
    var rows: Rows
    var now: Time

    constructor ()
      ensures rows == [] && TableInvariant(rows)
    {
      rows := [];
      now := 0;
    }

    /** Fails the job's stale active rows and returns how many there were. */
    method SweepAbandoned(job: string, olderThan: Time) returns (swept: nat)
      requires TableInvariant(rows)
      modifies this`rows
      ensures rows == Sweep(old(rows), job, olderThan, now) && TableInvariant(rows)
      ensures swept == |set i | 0 <= i < |old(rows)| && IsStale(old(rows)[i], job, olderThan, now)|
    {
      SweepKeeps(rows, job, olderThan, now);
      swept := |set i | 0 <= i < |rows| && IsStale(rows[i], job, olderThan, now)|;
      rows := Sweep(rows, job, olderThan, now);
    }

    /** Claims the job, or reports that another execution holds it. */
    method CreateJobRun(job: string, date: Date) returns (id: Result<nat, string>)
      requires TableInvariant(rows)
      modifies this`rows
      ensures id.Success? <==> !HasProcessingLock(old(rows), job)
      ensures id.Success? ==> id.value == |old(rows)| && rows == old(rows) + [NewRow(job, date, now)]
      ensures id.Failure? ==> rows == old(rows)
      ensures TableInvariant(rows)
    {
      var claimed := Claim(rows, job, date, now);
      if claimed.None? {
        return Failure("JobAlreadyRunning");
      }
      ClaimKeeps(rows, job, date, now);
      id := Success(|rows|);
      rows := claimed.value;
    }

    method MarkProcessing(id: nat) returns (ok: bool)
      requires TableInvariant(rows)
      modifies this`rows
      ensures ok == MarkedProcessing(old(rows), id, now).Some?
      ensures rows == if ok then MarkedProcessing(old(rows), id, now).value else old(rows)
      ensures TableInvariant(rows)
    {
      MarksKeep(rows, id, "", now);
      ok := id < |rows| && rows[id].status.Pending?;
      if ok {
        rows := rows[id := rows[id].(status := Processing, startedAt := Some(now))];
      }
    }

    method MarkCompleted(id: nat) returns (ok: bool)
      requires TableInvariant(rows)
      modifies this`rows
      ensures ok == MarkedCompleted(old(rows), id, now).Some?
      ensures rows == if ok then MarkedCompleted(old(rows), id, now).value else old(rows)
      ensures TableInvariant(rows)
    {
      MarksKeep(rows, id, "", now);
      ok := id < |rows| && rows[id].status.Processing?;
      if ok {
        rows := rows[id := rows[id].(status := Completed, finishedAt := Some(now))];
      }
    }

    method MarkFailed(id: nat, message: string) returns (ok: bool)
      requires TableInvariant(rows)
      modifies this`rows
      ensures ok == MarkedFailed(old(rows), id, message, now).Some?
      ensures rows == if ok then MarkedFailed(old(rows), id, message, now).value else old(rows)
      ensures TableInvariant(rows)
    {
      MarksKeep(rows, id, message, now);
      ok := id < |rows| && IsActive(rows[id]);
      if ok {
        rows := rows[id := FailedRow(rows[id], Recorded(message), now)];
      }
    }

    /** The claimed row ends final: completed when the work returns, failed with its error otherwise. */
    method PerformClaimed(id: nat, work: WorkResult) returns (outcome: Outcome)
      requires TableInvariant(rows) && id < |rows| && rows[id].status.Pending?
      modifies this`rows
      ensures rows == old(rows)[id := EndedRow(old(rows)[id], work, now)]
      ensures outcome == match work case Returns => RanToCompletion case Raises(error) => Raised(error)
      ensures TableInvariant(rows)
    {
      var started := MarkProcessing(id);
      var error := None;
      if !started {
        error := Some("JobRunStateError");
      } else if work.Raises? {
        error := Some(work.error);
      } else {
        var completed := MarkCompleted(id);
        if !completed {
          error := Some("JobRunStateError");
        }
      }
      if error.Some? {
        var _ := MarkFailed(id, error.value);
        return Raised(error.value);
      }
      return RanToCompletion;
    }

    /** One execution with the table to itself. */
    method RunJob(job: string, date: Date, work: WorkResult, staleAfter: Time := STALE_AFTER) returns (outcome: Outcome)
      requires TableInvariant(rows)
      modifies this`rows
      ensures (rows, outcome) == RunAlone(old(rows), job, date, staleAfter, work, now)
      ensures TableInvariant(rows)
    {
      var _ := SweepAbandoned(job, staleAfter);
      ghost var swept := rows;
      if HasProcessingLock(rows, job) {
        return AbortedLocked;
      }
      if HasCompletedForDate(rows, job, date) {
        return SkippedDuplicate;
      }
      var claimed := CreateJobRun(job, date);
      if claimed.Failure? {
        return AbortedLocked;
      }
      outcome := PerformClaimed(claimed.value, work);
      assert rows == swept + [EndedRow(NewRow(job, date, now), work, now)];
    }
  }
}

/**
 An execution that nothing disturbs: its steps, taken one after another, do what
 `run_job` does with the table to itself (services/job_runner/service.py).
 */
module JobRefinement {
  import opened Common
  import opened Weeks
  import opened JobRuns
  import opened JobExecutions

  /** The next step of an execution whose every call answers. */
  function OwnStep(phase: Phase, who: int, staleAfter: Time, work: WorkResult): Step
    requires IsRunning(phase)
  {
    match phase
    case Starting => SweepStep(who, staleAfter)
    case Swept => CheckLock(who)
    case LockFree => CheckCompleted(who)
    case NotDoneYet => InsertRow(who, true)
    case Beaten => RecheckLock(who)
    case Claimed(_) => BeginProcessing(who, true)
    case Working(_) => EndWork(who, work.Raises?)
    case WorkDone(_) => Complete(who, true)
    case Unwinding(_) => Fail(who, if work.Raises? then work.error else "JobRunStateError")
  }

  function StepsLeft(phase: Phase): nat {
    match phase
    case Starting => 8
    case Swept => 7
    case LockFree => 6
    case NotDoneYet => 5
    case Claimed(_) => 4
    case Working(_) => 3
    case WorkDone(_) => 2
    case Unwinding(_) | Beaten => 1
    case _ => 0
  }

  /** The state when the execution has ended, with no step of another in between. */
  function Undisturbed(s: State, who: int, staleAfter: Time, work: WorkResult): State
    requires who in s.executions
    decreases StepsLeft(s.executions[who].phase)
  {
    var phase := s.executions[who].phase;
    if IsRunning(phase) then Undisturbed(After(s, OwnStep(phase, who, staleAfter, work)), who, staleAfter, work)
    else s
  }

  /** What the execution answers. */
  predicate Answers(phase: Phase, outcome: Outcome) {
    phase == Ended(outcome) || (phase.Finished? && outcome.RanToCompletion?)
  }

  /** Left alone from here, the execution ends with these rows and this answer, and touches nothing else. */
  predicate EndsWith(s: State, who: int, staleAfter: Time, work: WorkResult, rows: Rows, outcome: Outcome)
    requires who in s.executions
  {
    var end := Undisturbed(s, who, staleAfter, work);
    && who in end.executions && Answers(end.executions[who].phase, outcome)
    && end == State(rows, s.executions[who := end.executions[who]], s.now)
  }

  lemma TakesItsStep(
    s: State, next: State, who: int, staleAfter: Time, work: WorkResult, rows: Rows, outcome: Outcome)
    requires who in s.executions && IsRunning(s.executions[who].phase)
    requires next == After(s, OwnStep(s.executions[who].phase, who, staleAfter, work))
    requires who in next.executions && EndsWith(next, who, staleAfter, work, rows, outcome)
    ensures EndsWith(s, who, staleAfter, work, rows, outcome)
  {
    assert next.now == s.now && next.executions == s.executions[who := next.executions[who]];
  }

  function OutcomeOf(work: WorkResult): Outcome {
    match work
    case Returns => RanToCompletion
    case Raises(error) => Raised(error)
  }

  lemma WorkingEnds(s: State, who: int, staleAfter: Time, work: WorkResult, id: nat)
    requires At(s, who, Working(id)) && id < |s.rows| && s.rows[id].status.Processing?
    ensures var row := s.rows[id];
            var ended := match work
                         case Returns => row.(status := Completed, finishedAt := Some(s.now))
                         case Raises(error) => FailedRow(row, Recorded(error), s.now);
            EndsWith(s, who, staleAfter, work, s.rows[id := ended], OutcomeOf(work))
  {
    var worked := After(s, EndWork(who, work.Raises?));
    var end := if work.Raises? then After(worked, Fail(who, work.error)) else After(worked, Complete(who, true));
    assert Undisturbed(end, who, staleAfter, work) == end;
    TakesItsStep(worked, end, who, staleAfter, work, end.rows, OutcomeOf(work));
    TakesItsStep(s, worked, who, staleAfter, work, end.rows, OutcomeOf(work));
  }

  lemma ClaimedEnds(s: State, who: int, staleAfter: Time, work: WorkResult, before: Rows)
    requires At(s, who, Claimed(|before|))
    requires s.rows == before + [NewRow(s.executions[who].job, s.executions[who].date, s.now)]
    ensures var e := s.executions[who];
            EndsWith(s, who, staleAfter, work, before + [EndedRow(NewRow(e.job, e.date, s.now), work, s.now)],
                     OutcomeOf(work))
  {
    var id, e := |before|, s.executions[who];
    var working := After(s, BeginProcessing(who, true));
    WorkingEnds(working, who, staleAfter, work, id);
    var ended := EndedRow(NewRow(e.job, e.date, s.now), work, s.now);
    assert working.rows[id := ended] == before + [ended];
    TakesItsStep(s, working, who, staleAfter, work, before + [ended], OutcomeOf(work));
  }

  lemma UnlockedEnds(s: State, who: int, staleAfter: Time, work: WorkResult)
    requires At(s, who, LockFree) && !HasProcessingLock(s.rows, s.executions[who].job)
    ensures var e := s.executions[who];
            if HasCompletedForDate(s.rows, e.job, e.date)
            then EndsWith(s, who, staleAfter, work, s.rows, SkippedDuplicate)
            else EndsWith(s, who, staleAfter, work, s.rows + [EndedRow(NewRow(e.job, e.date, s.now), work, s.now)],
                          OutcomeOf(work))
  {
    var e := s.executions[who];
    var checked := After(s, CheckCompleted(who));
    if HasCompletedForDate(s.rows, e.job, e.date) {
      TakesItsStep(s, checked, who, staleAfter, work, s.rows, SkippedDuplicate);
    } else {
      var claimed := After(checked, InsertRow(who, true));
      ClaimedEnds(claimed, who, staleAfter, work, s.rows);
      var rows := s.rows + [EndedRow(NewRow(e.job, e.date, s.now), work, s.now)];
      TakesItsStep(checked, claimed, who, staleAfter, work, rows, OutcomeOf(work));
      TakesItsStep(s, checked, who, staleAfter, work, rows, OutcomeOf(work));
    }
  }

  /**
   Left alone, an execution ends with the rows and the answer `run_job` has with the
   table to itself, and touches nothing else.
   */
  lemma UndisturbedRunsAlone(s: State, who: int, staleAfter: Time, work: WorkResult)
    requires At(s, who, Starting)
    ensures var e := s.executions[who];
            var (rows, outcome) := RunAlone(s.rows, e.job, e.date, staleAfter, work, s.now);
            EndsWith(s, who, staleAfter, work, rows, outcome)
  {
    var e := s.executions[who];
    var (rows, outcome) := RunAlone(s.rows, e.job, e.date, staleAfter, work, s.now);
    var swept := After(s, SweepStep(who, staleAfter));
    var looked := After(swept, CheckLock(who));
    if !HasProcessingLock(swept.rows, e.job) {
      UnlockedEnds(looked, who, staleAfter, work);
    }
    TakesItsStep(swept, looked, who, staleAfter, work, rows, outcome);
    TakesItsStep(s, swept, who, staleAfter, work, rows, outcome);
  }

  /** An execution whose insert was refused gives up when a row still holds the job, and raises otherwise. */
  lemma BeatenGivesUpIff(s: State, who: int)
    requires At(s, who, Beaten)
    ensures var after := After(s, RecheckLock(who));
            && after == State(s.rows, s.executions[who := after.executions[who]], s.now)
            && after.executions[who].phase.Ended?
            && (after.executions[who].phase == Ended(AbortedLocked) <==>
                  exists i :: 0 <= i < |s.rows| && s.rows[i].job == s.executions[who].job
                              && (s.rows[i].status == Pending || s.rows[i].status == Processing))
  {
    var job := s.executions[who].job;
    if i :| 0 <= i < |s.rows| && s.rows[i].job == job
            && (s.rows[i].status == Pending || s.rows[i].status == Processing) {
      assert IsActive(s.rows[i]);
    }
  }
}

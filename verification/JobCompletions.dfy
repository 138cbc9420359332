/**
 When a date that has completed can complete again (`run_job` in
 services/job_runner/service.py): the completed-check comes before the claim, so it
 is decided by how far each execution had got.
 */
module JobCompletions {
  import opened Common
  import opened Weeks
  import opened JobRuns
  import opened JobExecutions

  /** Past the completed-check with nothing against it: no row yet, its own row still active, or already finished. */
  predicate MayFinish(s: State, who: int) {
    who in s.executions &&
    var phase := s.executions[who].phase;
    || phase.NotDoneYet?
    || phase.Finished?
    || ((phase.Claimed? || phase.Working? || phase.WorkDone?) && phase.id < |s.rows| && IsActive(s.rows[phase.id]))
  }

  predicate HasFinished(s: State, who: int) {
    who in s.executions && s.executions[who].phase.Finished?
  }

  /** The date of the execution has a completed row. */
  predicate DateIsDone(s: State, who: int) {
    who in s.executions && HasCompletedForDate(s.rows, s.executions[who].job, s.executions[who].date)
  }

  // --- Otherwise it never finishes -----------------------------------------------------

  lemma DoneStaysDone(before: Rows, after: Rows, job: string, date: Date)
    requires RowsEvolve(before, after) && HasCompletedForDate(before, job, date)
    ensures HasCompletedForDate(after, job, date)
  {
    var i :| 0 <= i < |before| && CompletedFor(before[i], job, date);
    assert after[i] == before[i];
  }

  lemma StepsKeepTheDate(s: State, step: Step, who: int)
    requires Enabled(s, step) && who in s.executions
    ensures var after := After(s, step);
            && who in after.executions
            && after.executions[who].job == s.executions[who].job
            && after.executions[who].date == s.executions[who].date
  {
  }

  lemma NoStepRevives(staleAfter: Time, s: State, step: Step, who: int)
    requires Invariant(staleAfter, s) && Enabled(s, step)
    requires DateIsDone(s, who) && !MayFinish(s, who)
    ensures DateIsDone(After(s, step), who) && !MayFinish(After(s, step), who)
  {
    StepsKeepTheDate(s, step, who);
    StepEvolvesRows(staleAfter, s, step);
    DoneStaysDone(s.rows, After(s, step).rows, s.executions[who].job, s.executions[who].date);
    assert OwnsSoundly(staleAfter, s.rows, s.executions[who]);
  }

  lemma {:induction false} NeverFinishes(
    staleAfter: Time, states: seq<State>, steps: seq<Step>, i: nat, j: nat, who: int)
    requires IsBehaviour(staleAfter, states, steps) && i <= j < |states|
    requires DateIsDone(states[i], who) && !MayFinish(states[i], who)
    ensures DateIsDone(states[j], who) && !MayFinish(states[j], who)
  {
    if i < j {
      NeverFinishes(staleAfter, states, steps, i, j - 1, who);
      BehaviourKeepsInvariant(staleAfter, states, steps, j - 1);
      NoStepRevives(staleAfter, states[j - 1], steps[j - 1], who);
    }
  }

  // --- and so it can -------------------------------------------------------------------

  lemma LastIsSound(staleAfter: Time, run: Run)
    requires IsRun(staleAfter, run)
    ensures Invariant(staleAfter, Last(run))
  {
    BehaviourKeepsInvariant(staleAfter, run.states, run.steps, |run.steps|);
  }

  lemma FreshExecution(executions: Executions) returns (who: int)
    ensures who !in executions
  {
    if executions == map[] {
      who := 0;
    } else {
      who := MaxOf(executions.Keys) + 1;
    }
  }

  /** A row's owner marks it, works and completes it, as long as no sweep took it. */
  lemma FinishesItsRow(staleAfter: Time, run: Run, who: int) returns (longer: Run)
    requires IsRun(staleAfter, run) && MayFinish(Last(run), who)
    requires !Last(run).executions[who].phase.NotDoneYet?
    ensures IsRun(staleAfter, longer) && Extends(longer, run) && HasFinished(Last(longer), who)
  {
    longer := run;
    LastIsSound(staleAfter, run);
    assert OwnsSoundly(staleAfter, Last(run).rows, Last(run).executions[who]);
    if Last(longer).executions[who].phase.Claimed? {
      longer := Extend(staleAfter, longer, BeginProcessing(who, true));
    }
    if Last(longer).executions[who].phase.Working? {
      longer := Extend(staleAfter, longer, EndWork(who, false));
    }
    if Last(longer).executions[who].phase.WorkDone? {
      longer := Extend(staleAfter, longer, Complete(who, true));
    }
  }

  lemma SweepFreesTheSlot(rows: Rows, job: string, staleAfter: Time, now: Time, id: nat)
    requires TableInvariant(rows) && id < |rows| && rows[id].job == job && IsActive(rows[id])
    requires rows[id].createdAt < now - staleAfter
    ensures !HasProcessingLock(Sweep(rows, job, staleAfter, now), job)
  {
    assert forall i :: 0 <= i < |rows| && rows[i].job == job && IsActive(rows[i]) ==> i == id;
  }

  /** Late enough, another execution of the job sweeps whatever holds its slot. */
  lemma FreesTheSlot(staleAfter: Time, run: Run, who: int, id: nat) returns (longer: Run)
    requires IsRun(staleAfter, run) && At(Last(run), who, NotDoneYet) && id < |Last(run).rows|
    requires IsActive(Last(run).rows[id]) && Last(run).rows[id].job == Last(run).executions[who].job
    ensures IsRun(staleAfter, longer) && Extends(longer, run) && At(Last(longer), who, NotDoneYet)
    ensures !HasProcessingLock(Last(longer).rows, Last(longer).executions[who].job)
  {
    var s := Last(run);
    var job, late := s.executions[who].job, s.rows[id].createdAt + staleAfter + 1;
    LastIsSound(staleAfter, run);
    longer := Extend(staleAfter, run, Tick(if late > s.now then late - s.now else 0));
    var other := FreshExecution(s.executions);
    longer := Extend(staleAfter, longer, Launch(other, job, 0));
    SweepFreesTheSlot(s.rows, job, staleAfter, Last(longer).now, id);
    longer := Extend(staleAfter, longer, SweepStep(other, staleAfter));
  }

  lemma FinishesIfItMay(staleAfter: Time, run: Run, who: int) returns (longer: Run)
    requires IsRun(staleAfter, run) && MayFinish(Last(run), who)
    ensures IsRun(staleAfter, longer) && Extends(longer, run) && HasFinished(Last(longer), who)
  {
    if !Last(run).executions[who].phase.NotDoneYet? {
      longer := FinishesItsRow(staleAfter, run, who);
    } else {
      longer := run;
      var job := Last(run).executions[who].job;
      if id :| 0 <= id < |Last(run).rows| && Last(run).rows[id].job == job && IsActive(Last(run).rows[id]) {
        longer := FreesTheSlot(staleAfter, run, who, id);
      }
      longer := CompletesOnceChecked(staleAfter, longer, who);
    }
  }

  /** Some continuation of the run in which the execution completes its date. */
  ghost predicate CanStillFinish(staleAfter: Time, run: Run, who: int) {
    exists longer :: IsRun(staleAfter, longer) && Extends(longer, run) && HasFinished(Last(longer), who)
  }

  /**
   After a completion for its date, an execution can still complete that date, in
   some continuation of the run, exactly when it was already past its
   completed-check and has no row yet, still holds an active row, or has finished.
   */
  lemma CompletesAgainIff(staleAfter: Time, run: Run, who: int)
    requires IsRun(staleAfter, run) && DateIsDone(Last(run), who)
    ensures CanStillFinish(staleAfter, run, who) <==> MayFinish(Last(run), who)
  {
    if MayFinish(Last(run), who) {
      var longer := FinishesIfItMay(staleAfter, run, who);
    } else if CanStillFinish(staleAfter, run, who) {
      var longer :| IsRun(staleAfter, longer) && Extends(longer, run) && HasFinished(Last(longer), who);
      assert longer.states[|run.steps|] == Last(run);
      NeverFinishes(staleAfter, longer.states, longer.steps, |run.steps|, |longer.steps|, who);
    }
  }
}

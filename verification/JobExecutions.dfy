/**
 Any number of `run_job` executions interleaved (services/job_runner/service.py).

 Every transaction is one step. A step may also commit and then fail to report it,
 any call may raise, and a process may be killed anywhere.
 */
module JobExecutions {
  import opened Common
  import opened Weeks
  import opened JobRuns

  /** Where an execution is. From `Claimed` on it owns the row `id`. */
  datatype Phase =
    | Starting | Swept | LockFree | NotDoneYet | Beaten
    | Claimed(id: nat)
    | Working(id: nat)
    | WorkDone(id: nat)
    | Unwinding(id: nat)
    | Ended(outcome: Outcome)
    | Finished(id: nat)
    | Killed

  datatype Execution = Execution(job: string, date: Date, phase: Phase)

  type Executions = map<int, Execution>

  datatype State = State(rows: Rows, executions: Executions, now: Time)

  datatype Step =
    | Tick(span: nat)
    | Launch(who: int, job: string, date: Date)
    | SweepStep(who: int, age: Time)
    | CheckLock(who: int)
    | CheckCompleted(who: int)
    | InsertRow(who: int, reported: bool)
    | RecheckLock(who: int)
    | BeginProcessing(who: int, reported: bool)
    | EndWork(who: int, raised: bool)
    | Complete(who: int, reported: bool)
    | Fail(who: int, message: string)
    | DatabaseError(who: int)
    | Kill(who: int)

  predicate At(s: State, who: int, phase: Phase) {
    who in s.executions && s.executions[who].phase == phase
  }

  predicate Owns(phase: Phase) {
    phase.Claimed? || phase.Working? || phase.WorkDone? || phase.Unwinding? || phase.Finished?
  }

  predicate IsRunning(phase: Phase) {
    !phase.Ended? && !phase.Finished? && !phase.Killed?
  }

  predicate Enabled(s: State, step: Step) {
    match step
    case Tick(_) => true
    case Launch(who, _, _) => who !in s.executions
    case SweepStep(who, _) => At(s, who, Starting)
    case CheckLock(who) => At(s, who, Swept)
    case CheckCompleted(who) => At(s, who, LockFree)
    case InsertRow(who, _) => At(s, who, NotDoneYet)
    case RecheckLock(who) => At(s, who, Beaten)
    case BeginProcessing(who, _) => who in s.executions && s.executions[who].phase.Claimed?
    case EndWork(who, _) => who in s.executions && s.executions[who].phase.Working?
    case Complete(who, _) => who in s.executions && s.executions[who].phase.WorkDone?
    case Fail(who, _) => who in s.executions && s.executions[who].phase.Unwinding?
    case DatabaseError(who) =>
      who in s.executions && IsRunning(s.executions[who].phase) && !s.executions[who].phase.Working?
    case Kill(who) => who in s.executions && IsRunning(s.executions[who].phase)
  }

  function Moved(s: State, who: int, phase: Phase): State
    requires who in s.executions
  {
    s.(executions := s.executions[who := s.executions[who].(phase := phase)])
  }

  function After(s: State, step: Step): State
    requires Enabled(s, step)
  {
    match step
    case Tick(span) => s.(now := s.now + span)
    case Launch(who, job, date) => s.(executions := s.executions[who := Execution(job, date, Starting)])
    case SweepStep(who, age) =>
      Moved(s, who, Swept).(rows := Sweep(s.rows, s.executions[who].job, age, s.now))
    case CheckLock(who) =>
      Moved(s, who, if HasProcessingLock(s.rows, s.executions[who].job) then Ended(AbortedLocked) else LockFree)
    case CheckCompleted(who) =>
      var e := s.executions[who];
      Moved(s, who, if HasCompletedForDate(s.rows, e.job, e.date) then Ended(SkippedDuplicate) else NotDoneYet)
    case InsertRow(who, reported) =>
      var claimed := Claim(s.rows, s.executions[who].job, s.executions[who].date, s.now);
      if claimed.None? then Moved(s, who, Beaten)
      else
        Moved(s, who, if reported then Claimed(|s.rows|) else Ended(Raised("database"))).(rows := claimed.value)
    case RecheckLock(who) =>
      var locked := HasProcessingLock(s.rows, s.executions[who].job);
      Moved(s, who, Ended(if locked then AbortedLocked else Raised("IntegrityError")))
    case BeginProcessing(who, reported) =>
      var id := s.executions[who].phase.id;
      var marked := MarkedProcessing(s.rows, id, s.now);
      if marked.None? then Moved(s, who, Unwinding(id))
      else Moved(s, who, if reported then Working(id) else Unwinding(id)).(rows := marked.value)
    case EndWork(who, raised) =>
      var id := s.executions[who].phase.id;
      Moved(s, who, if raised then Unwinding(id) else WorkDone(id))
    case Complete(who, reported) =>
      var id := s.executions[who].phase.id;
      var marked := MarkedCompleted(s.rows, id, s.now);
      if marked.None? then Moved(s, who, Unwinding(id))
      else Moved(s, who, if reported then Finished(id) else Unwinding(id)).(rows := marked.value)
    case Fail(who, message) =>
      var marked := MarkedFailed(s.rows, s.executions[who].phase.id, message, s.now);
      Moved(s, who, Ended(Raised(message))).(rows := if marked.Some? then marked.value else s.rows)
    case DatabaseError(who) =>
      var phase := s.executions[who].phase;
      Moved(s, who, if Owns(phase) && !phase.Unwinding? then Unwinding(phase.id) else Ended(Raised("database")))
    case Kill(who) => Moved(s, who, Killed)
  }

  /** Executions may sweep at different ages, each at least `staleAfter`. */
  predicate SweepsNoSooner(staleAfter: Time, step: Step) {
    step.SweepStep? ==> step.age >= staleAfter
  }

  ghost predicate IsBehaviour(staleAfter: Time, states: seq<State>, steps: seq<Step>) {
    && |states| == |steps| + 1
    && states[0].rows == [] && states[0].executions == map[]
    && (forall i :: 0 <= i < |steps| ==> Enabled(states[i], steps[i]) && states[i + 1] == After(states[i], steps[i]))
    && (forall i :: 0 <= i < |steps| ==> SweepsNoSooner(staleAfter, steps[i]))
  }

  // --- The invariant -------------------------------------------------------------------

  /** The sweep failed the row because it was older than `staleAfter`. */
  predicate WasSwept(staleAfter: Time, r: JobRun) {
    && r.status.Failed? && r.errorMessage == Some(ABANDONED_MESSAGE)
    && r.finishedAt.Some? && r.createdAt < r.finishedAt.value - staleAfter
  }

  /** What an execution may rely on about the row it owns: only a sweep moves it meanwhile. */
  predicate OwnerSees(staleAfter: Time, phase: Phase, r: JobRun) {
    match phase
    case Claimed(_) => r.status.Pending? || WasSwept(staleAfter, r)
    case Working(_) => r.status.Processing? || WasSwept(staleAfter, r)
    case WorkDone(_) => r.status.Processing? || WasSwept(staleAfter, r)
    case Finished(_) => r.status.Completed?
    case _ => true
  }

  predicate OwnsSoundly(staleAfter: Time, rows: Rows, e: Execution) {
    Owns(e.phase) ==>
      && e.phase.id < |rows|
      && rows[e.phase.id].job == e.job && rows[e.phase.id].date == e.date
      && OwnerSees(staleAfter, e.phase, rows[e.phase.id])
  }

  predicate SameRow(e: Execution, f: Execution) {
    Owns(e.phase) && Owns(f.phase) && e.phase.id == f.phase.id
  }

  ghost predicate OwnersAreSound(staleAfter: Time, rows: Rows, executions: Executions) {
    forall who :: who in executions ==> OwnsSoundly(staleAfter, rows, executions[who])
  }

  ghost predicate OwnersDiffer(executions: Executions) {
    forall a, b :: a in executions && b in executions && SameRow(executions[a], executions[b]) ==> a == b
  }

  ghost predicate Invariant(staleAfter: Time, s: State) {
    && TableInvariant(s.rows)
    && OwnersAreSound(staleAfter, s.rows, s.executions)
    && OwnersDiffer(s.executions)
  }

  lemma SweepSparesNoOwner(staleAfter: Time, rows: Rows, job: string, age: Time, now: Time, e: Execution)
    requires OwnsSoundly(staleAfter, rows, e) && age >= staleAfter
    ensures OwnsSoundly(staleAfter, Sweep(rows, job, age, now), e)
  {
  }

  /** A step of another execution on its own row leaves this owner's row alone. */
  lemma OthersRowIsUntouched(staleAfter: Time, rows: Rows, after: Rows, id: nat, e: Execution)
    requires OwnsSoundly(staleAfter, rows, e) && |rows| <= |after| && !(Owns(e.phase) && e.phase.id == id)
    requires forall i :: 0 <= i < |rows| && i != id ==> after[i] == rows[i]
    ensures OwnsSoundly(staleAfter, after, e)
  {
  }

  /** The execution `who` moves to `phase` and changes at most the row `id`, its own. */
  lemma OwnStepKeepsOwners(staleAfter: Time, s: State, after: State, who: int, id: nat)
    requires Invariant(staleAfter, s) && who in s.executions && who in after.executions
    requires after.executions == s.executions[who := after.executions[who]]
    requires id >= |s.rows| || (Owns(s.executions[who].phase) && s.executions[who].phase.id == id)
    requires |s.rows| <= |after.rows| && forall i :: 0 <= i < |s.rows| && i != id ==> after.rows[i] == s.rows[i]
    requires Owns(after.executions[who].phase) ==> after.executions[who].phase.id == id
    requires OwnsSoundly(staleAfter, after.rows, after.executions[who])
    ensures OwnersAreSound(staleAfter, after.rows, after.executions) && OwnersDiffer(after.executions)
  {
    forall other | other in after.executions
      ensures OwnsSoundly(staleAfter, after.rows, after.executions[other])
      ensures other != who ==> !SameRow(after.executions[who], after.executions[other])
    {
      if other != who {
        assert OwnsSoundly(staleAfter, s.rows, s.executions[other]);
        assert !SameRow(s.executions[who], s.executions[other]);
        OthersRowIsUntouched(staleAfter, s.rows, after.rows, id, s.executions[other]);
      }
    }
  }

  lemma SweepStepKeepsInvariant(staleAfter: Time, s: State, who: int, age: Time)
    requires Invariant(staleAfter, s) && Enabled(s, SweepStep(who, age)) && age >= staleAfter
    ensures Invariant(staleAfter, After(s, SweepStep(who, age)))
  {
    var job := s.executions[who].job;
    SweepKeeps(s.rows, job, age, s.now);
    var after := After(s, SweepStep(who, age));
    forall other | other in after.executions
      ensures OwnsSoundly(staleAfter, after.rows, after.executions[other])
    {
      SweepSparesNoOwner(staleAfter, s.rows, job, age, s.now, s.executions[other]);
    }
    forall a, b | a in after.executions && b in after.executions && SameRow(after.executions[a], after.executions[b])
      ensures a == b
    {
      assert SameRow(s.executions[a], s.executions[b]);
    }
  }

  lemma InsertKeepsInvariant(staleAfter: Time, s: State, who: int, reported: bool)
    requires Invariant(staleAfter, s) && Enabled(s, InsertRow(who, reported))
    ensures Invariant(staleAfter, After(s, InsertRow(who, reported)))
  {
    var e := s.executions[who];
    if Claim(s.rows, e.job, e.date, s.now).Some? {
      ClaimKeeps(s.rows, e.job, e.date, s.now);
    }
    OwnStepKeepsOwners(staleAfter, s, After(s, InsertRow(who, reported)), who, |s.rows|);
  }

  lemma RowStepKeepsInvariant(staleAfter: Time, s: State, step: Step, who: int)
    requires Invariant(staleAfter, s) && Enabled(s, step)
    requires (step.BeginProcessing? || step.Complete? || step.Fail?) && step.who == who
    ensures Invariant(staleAfter, After(s, step))
  {
    var id := s.executions[who].phase.id;
    assert OwnsSoundly(staleAfter, s.rows, s.executions[who]);
    MarksKeep(s.rows, id, if step.Fail? then step.message else "", s.now);
    OwnStepKeepsOwners(staleAfter, s, After(s, step), who, id);
  }

  lemma QuietStepKeepsInvariant(staleAfter: Time, s: State, step: Step)
    requires Invariant(staleAfter, s) && Enabled(s, step)
    requires step.CheckLock? || step.CheckCompleted? || step.RecheckLock? || step.EndWork? || step.DatabaseError?
          || step.Kill?
    ensures Invariant(staleAfter, After(s, step))
  {
    var e := s.executions[step.who];
    assert OwnsSoundly(staleAfter, s.rows, e);
    var id := if Owns(e.phase) then e.phase.id else |s.rows|;
    OwnStepKeepsOwners(staleAfter, s, After(s, step), step.who, id);
  }

  lemma StepKeepsInvariant(staleAfter: Time, s: State, step: Step)
    requires Invariant(staleAfter, s) && Enabled(s, step) && SweepsNoSooner(staleAfter, step)
    ensures Invariant(staleAfter, After(s, step))
  {
    match step
    case Tick(_) =>
    case Launch(who, job, date) =>
      var after := After(s, step);
      forall a, b | a in after.executions && b in after.executions && SameRow(after.executions[a], after.executions[b])
        ensures a == b
      {
        assert SameRow(s.executions[a], s.executions[b]);
      }
    case SweepStep(who, age) => SweepStepKeepsInvariant(staleAfter, s, who, age);
    case InsertRow(who, reported) => InsertKeepsInvariant(staleAfter, s, who, reported);
    case BeginProcessing(who, _) => RowStepKeepsInvariant(staleAfter, s, step, who);
    case Complete(who, _) => RowStepKeepsInvariant(staleAfter, s, step, who);
    case Fail(who, _) => RowStepKeepsInvariant(staleAfter, s, step, who);
    case _ => QuietStepKeepsInvariant(staleAfter, s, step);
  }

  lemma {:induction false} BehaviourKeepsInvariant(staleAfter: Time, states: seq<State>, steps: seq<Step>, i: nat)
    requires IsBehaviour(staleAfter, states, steps) && i < |states|
    ensures Invariant(staleAfter, states[i])
  {
    if i > 0 {
      BehaviourKeepsInvariant(staleAfter, states, steps, i - 1);
      StepKeepsInvariant(staleAfter, states[i - 1], steps[i - 1]);
    }
  }

  lemma StepEvolvesRows(staleAfter: Time, s: State, step: Step)
    requires Invariant(staleAfter, s) && Enabled(s, step)
    ensures RowsEvolve(s.rows, After(s, step).rows)
  {
    match step
    case SweepStep(who, age) => SweepKeeps(s.rows, s.executions[who].job, age, s.now);
    case InsertRow(who, _) =>
    case BeginProcessing(who, _) => MarksKeep(s.rows, s.executions[who].phase.id, "", s.now);
    case Complete(who, _) => MarksKeep(s.rows, s.executions[who].phase.id, "", s.now);
    case Fail(who, message) => MarksKeep(s.rows, s.executions[who].phase.id, message, s.now);
    case _ =>
  }

  // --- What holds over every run -------------------------------------------------------

  /** In every state a job has at most one active row, and every row meets the table's constraints. */
  lemma OneActiveRowPerJob(staleAfter: Time, states: seq<State>, steps: seq<Step>, i: nat, a: nat, b: nat)
    requires IsBehaviour(staleAfter, states, steps) && i < |states|
    requires a < |states[i].rows| && b < |states[i].rows|
    ensures MeetsConstraints(states[i].rows[a])
    ensures (IsActive(states[i].rows[a]) && IsActive(states[i].rows[b])
          && states[i].rows[a].job == states[i].rows[b].job)
            ==> a == b
  {
    BehaviourKeepsInvariant(staleAfter, states, steps, i);
  }

  /** Completed and failed rows, swept ones included, never change again. */
  lemma {:induction false} FinalRowsNeverChange(
    staleAfter: Time, states: seq<State>, steps: seq<Step>, i: nat, j: nat, id: nat)
    requires IsBehaviour(staleAfter, states, steps) && i <= j < |states|
    requires id < |states[i].rows| && IsFinal(states[i].rows[id])
    ensures id < |states[j].rows| && states[j].rows[id] == states[i].rows[id]
  {
    if i < j {
      FinalRowsNeverChange(staleAfter, states, steps, i, j - 1, id);
      BehaviourKeepsInvariant(staleAfter, states, steps, j - 1);
      StepEvolvesRows(staleAfter, states[j - 1], steps[j - 1]);
    }
  }

  /**
   Two calls of `work` for one job overlap only if the earlier execution's row was
   swept as stale: it was older than `staleAfter` when the sweep failed it.
   */
  lemma OverlapMeansSwept(
    staleAfter: Time, states: seq<State>, steps: seq<Step>, i: nat, first: int, second: int)
    requires IsBehaviour(staleAfter, states, steps) && i < |states|
    requires first in states[i].executions && second in states[i].executions && first != second
    requires states[i].executions[first].phase.Working? && states[i].executions[second].phase.Working?
    requires states[i].executions[first].job == states[i].executions[second].job
    requires states[i].executions[first].phase.id <= states[i].executions[second].phase.id
    ensures var id := states[i].executions[first].phase.id;
            id < |states[i].rows| && WasSwept(staleAfter, states[i].rows[id])
  {
    BehaviourKeepsInvariant(staleAfter, states, steps, i);
    var s := states[i];
    assert OwnsSoundly(staleAfter, s.rows, s.executions[first]);
    assert OwnsSoundly(staleAfter, s.rows, s.executions[second]);
    assert !SameRow(s.executions[first], s.executions[second]);
  }

  /** An execution whose row was swept never finishes, and its row is never completed. */
  lemma SweptNeverCompletes(staleAfter: Time, states: seq<State>, steps: seq<Step>, i: nat, j: nat, who: int, id: nat)
    requires IsBehaviour(staleAfter, states, steps) && i <= j < |states|
    requires id < |states[i].rows| && WasSwept(staleAfter, states[i].rows[id])
    requires who in states[j].executions
    ensures id < |states[j].rows| && WasSwept(staleAfter, states[j].rows[id])
    ensures states[j].executions[who].phase != Finished(id)
  {
    FinalRowsNeverChange(staleAfter, states, steps, i, j, id);
    BehaviourKeepsInvariant(staleAfter, states, steps, j);
    assert OwnsSoundly(staleAfter, states[j].rows, states[j].executions[who]);
  }

  /** An execution reports completion only with its own row completed. */
  lemma FinishedMeansCompleted(staleAfter: Time, states: seq<State>, steps: seq<Step>, i: nat, who: int)
    requires IsBehaviour(staleAfter, states, steps) && i < |states|
    requires who in states[i].executions && states[i].executions[who].phase.Finished?
    ensures var e := states[i].executions[who];
            e.phase.id < |states[i].rows| && CompletedFor(states[i].rows[e.phase.id], e.job, e.date)
  {
    BehaviourKeepsInvariant(staleAfter, states, steps, i);
    assert OwnsSoundly(staleAfter, states[i].rows, states[i].executions[who]);
  }

  /** An execution of the job and date that has not yet made its completed-check, or has stopped. */
  predicate NotPastCheck(s: State, who: int, job: string, date: Date) {
    who in s.executions && s.executions[who].job == job && s.executions[who].date == date ==>
      var phase := s.executions[who].phase;
      phase.Starting? || phase.Swept? || phase.LockFree? || phase.Ended? || phase.Killed?
  }

  lemma StepStaysBeforeCheck(s: State, step: Step, who: int, job: string, date: Date)
    requires Enabled(s, step) && HasCompletedForDate(s.rows, job, date)
    requires NotPastCheck(s, who, job, date)
    ensures NotPastCheck(After(s, step), who, job, date)
  {
  }

  /**
   Once a date has completed, an execution that has not yet made its completed-check
   never claims a row and never calls `work`, whatever the others do.
   */
  lemma {:induction false} LateCheckNeverWorks(
    staleAfter: Time, states: seq<State>, steps: seq<Step>, i: nat, j: nat, who: int, job: string, date: Date)
    requires IsBehaviour(staleAfter, states, steps) && i <= j < |states|
    requires HasCompletedForDate(states[i].rows, job, date)
    requires NotPastCheck(states[i], who, job, date)
    ensures HasCompletedForDate(states[j].rows, job, date)
    ensures NotPastCheck(states[j], who, job, date)
  {
    var id :| 0 <= id < |states[i].rows| && CompletedFor(states[i].rows[id], job, date);
    FinalRowsNeverChange(staleAfter, states, steps, i, j, id);
    if i < j {
      LateCheckNeverWorks(staleAfter, states, steps, i, j - 1, who, job, date);
      StepStaysBeforeCheck(states[j - 1], steps[j - 1], who, job, date);
    }
  }

  // --- and what does not ---------------------------------------------------------------

  datatype Run = Run(states: seq<State>, steps: seq<Step>)

  ghost predicate IsRun(staleAfter: Time, run: Run) {
    IsBehaviour(staleAfter, run.states, run.steps)
  }

  function Last(run: Run): State
    requires run.states != []
  {
    run.states[|run.states| - 1]
  }

  predicate Extends(longer: Run, run: Run) {
    run.states <= longer.states && run.steps <= longer.steps
  }

  lemma Extend(staleAfter: Time, run: Run, step: Step) returns (longer: Run)
    requires IsRun(staleAfter, run) && Enabled(Last(run), step) && SweepsNoSooner(staleAfter, step)
    ensures IsRun(staleAfter, longer) && Last(longer) == After(Last(run), step) && Extends(longer, run)
  {
    longer := Run(run.states + [After(Last(run), step)], run.steps + [step]);
  }

  /** An execution that starts while the table is empty passes every check. */
  lemma PassesTheChecks(staleAfter: Time, run: Run, who: int, job: string, date: Date) returns (longer: Run)
    requires IsRun(staleAfter, run) && Last(run).rows == [] && who !in Last(run).executions
    ensures IsRun(staleAfter, longer) && Last(longer).rows == []
    ensures Last(longer).executions == Last(run).executions[who := Execution(job, date, NotDoneYet)]
  {
    longer := Extend(staleAfter, run, Launch(who, job, date));
    longer := Extend(staleAfter, longer, SweepStep(who, staleAfter));
    longer := Extend(staleAfter, longer, CheckLock(who));
    longer := Extend(staleAfter, longer, CheckCompleted(who));
  }

  /** Past its checks, an execution completes whenever the job has no active row. */
  lemma CompletesOnceChecked(staleAfter: Time, run: Run, who: int) returns (longer: Run)
    requires IsRun(staleAfter, run) && At(Last(run), who, NotDoneYet)
    requires !HasProcessingLock(Last(run).rows, Last(run).executions[who].job)
    ensures IsRun(staleAfter, longer)
    ensures var e, before, after := Last(run).executions[who], Last(run).rows, Last(longer).rows;
            && |after| == |before| + 1 && after[..|before|] == before && CompletedFor(after[|before|], e.job, e.date)
    ensures At(Last(longer), who, Finished(|Last(run).rows|)) && Extends(longer, run)
    ensures Last(longer).executions.Keys == Last(run).executions.Keys
    ensures forall other :: other in Last(run).executions && other != who ==>
              Last(longer).executions[other] == Last(run).executions[other]
  {
    var before := Last(run).rows;
    longer := Extend(staleAfter, run, InsertRow(who, true));
    assert Last(longer).rows
          == before + [NewRow(Last(run).executions[who].job, Last(run).executions[who].date, Last(run).now)];
    longer := Extend(staleAfter, longer, BeginProcessing(who, true));
    longer := Extend(staleAfter, longer, EndWork(who, false));
    longer := Extend(staleAfter, longer, Complete(who, true));
  }

  /**
   The checks run before the claim, so two executions that both pass them can both
   complete one date, one after the other: the lock does not forbid it.
   */
  lemma ADateCanCompleteTwice(staleAfter: Time, job: string, date: Date) returns (run: Run)
    ensures IsRun(staleAfter, run) && |Last(run).rows| == 2
    ensures CompletedFor(Last(run).rows[0], job, date) && CompletedFor(Last(run).rows[1], job, date)
  {
    run := Run([State([], map[], 0)], []);
    run := PassesTheChecks(staleAfter, run, 0, job, date);
    run := PassesTheChecks(staleAfter, run, 1, job, date);
    run := CompletesOnceChecked(staleAfter, run, 1);
    ghost var first := Last(run).rows;
    run := CompletesOnceChecked(staleAfter, run, 0);
    assert Last(run).rows[..1][0] == first[0];
  }
}

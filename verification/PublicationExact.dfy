/**
 Exactly when a load misleads the readers of the report: when the weeks of the
 attempt that commits it are not those its run's row records.
 */
module PublicationExact {
  import opened Common
  import opened Weeks
  import opened RunLog
  import opened WeeklyLoad
  import opened WeeklyPublish
  import opened Publication

  // --- A load outside its row ----------------------------------------------------------

  /** A week of the attempt that its row does not record. */
  predicate IsStray(runs: RunTable, a: Attempt, week: Date) {
    && a.handle.Some? && a.handle.value.runId in runs
    && week in a.weeks && IsMonday(week)
    && !(runs[a.handle.value.runId].weeksFrom <= week <= runs[a.handle.value.runId].weeksTo)
  }

  lemma OtherWeeksStray(opening: Time, retry: Time, request: WeekRequest) returns (week: Date)
    requires ClosedWeeks(opening, request).Success? && ClosedWeeks(retry, request).Success?
    requires ClosedWeeks(opening, request) != ClosedWeeks(retry, request)
    ensures var recorded, own := ClosedWeeks(opening, request).value, ClosedWeeks(retry, request).value;
            && recorded != [] && own != []
            && week in own && IsMonday(week) && !(MinWeek(recorded) <= week <= MaxWeek(recorded))
  {
    SameWeeksIff(opening, retry, request);
    ClosedWeeksAreEveryMonday(retry, request);
    NewestWeekOfLookback(opening, request);
    NewestWeekOfLookback(retry, request);
    OldestWeekOfLookback(opening, request);
    OldestWeekOfLookback(retry, request);
    var own := ClosedWeeks(retry, request).value;
    week := if WeekStartOf(opening) < WeekStartOf(retry) then MaxWeek(own) else MinWeek(own);
  }

  /** An attempt that does not match its row has a stray week. */
  lemma MismatchStrays(q: Requests, s: System, attempt: nat) returns (week: Date)
    requires IsConsistent(q, s) && attempt in s.attempts && s.attempts[attempt].handle.Some?
    requires !MatchesItsRow(s.db.runs, s.attempts[attempt])
    ensures IsStray(s.db.runs, s.attempts[attempt], week)
  {
    var a := s.attempts[attempt];
    assert AttemptIsRecorded(q, s.db.runs, a);
    var id := a.handle.value.runId;
    assert RowIsRecorded(q, s.db.runs[id], s.rowClock[id]);
    RecomputesIff(q, s, attempt);
    SameWeeksIff(s.rowClock[id], a.startedAt, q(a.flow));
    week := OtherWeeksStray(s.rowClock[id], a.startedAt, q(a.flow));
  }

  predicate HasRecordOf(records: seq<Record>, week: Date) {
    exists i :: 0 <= i < |records| && records[i].key.weekStart == week
  }

  lemma LoadedWeekShows(
    before: ReportTable, r: LoadRequest, now: Time, after: ReportTable, week: Date)
    requires ValidBatch(r.records, r.weeks) && HasRecordOf(r.records, week)
    requires after == PublishedTable(before, BatchMap(r.records), r.weeks, now)
    ensures WeekOf(FiguresOf(after), week) != map[]
  {
    BatchMapHolds(r.records);
    var i :| 0 <= i < |r.records| && r.records[i].key.weekStart == week;
    assert r.records[i].key in WeekOf(FiguresOf(after), week);
  }

  /** No load is behind a stray week the last commit covers: it is not in its run's row, and it is after the rest. */
  lemma NothingIsBehindAStrayWeek(runs: RunTable, commits: seq<Commit>, last: Commit, week: Date)
    requires CommitCovers(last, week)
    requires last.run in runs && !(runs[last.run].weeksFrom <= week <= runs[last.run].weeksTo)
    ensures forall i: nat :: !IsBehind(runs, commits + [last], week, i)
  {
    var grown := commits + [last];
    assert grown[|commits|] == last;
    forall i: nat
      ensures !IsBehind(runs, grown, week, i)
    {
      if i < |commits| {
        assert CommitCovers(grown[|commits|], week);
      }
    }
  }

  /** Whatever the state before, a committed load with a record of a stray week misleads the readers of that week. */
  lemma StrayLoadMisleads(
    q: Requests, s: System, attempt: nat, records: seq<Record>, now: Time, eventsRead: Option<nat>, tally: LoadTally,
    s': System, week: Date)
    requires IsConsistent(q, s) && LoadStep(s, attempt, records, now, eventsRead, Loaded(tally), s')
    requires IsStray(s.db.runs, s.attempts[attempt], week) && HasRecordOf(records, week)
    ensures !ReadersAreRight(s', week)
  {
    var a := s.attempts[attempt];
    var r := LoadRequestOf(a, records, eventsRead);
    PublishCompletesTheRun(s.db, r, now, tally, s'.db);
    LoadedWeekShows(s.db.cells, r, now, s'.db.cells, week);
    assert SameIdentity(s.db.runs[r.run], s'.db.runs[r.run]);
    NothingIsBehindAStrayWeek(s'.db.runs, s.commits, CommitOf(r), week);
  }

  // --- Whole runs ----------------------------------------------------------------------

  /** A committed load has a record of each of its weeks that its row does not record. */
  ghost predicate StrayWeeksHaveRecords(s: System, step: Step) {
    step.Load? && step.outcome.Loaded? && step.attempt in s.attempts ==>
      forall week :: IsStray(s.db.runs, s.attempts[step.attempt], week) ==> HasRecordOf(step.records, week)
  }

  ghost predicate EveryStrayWeekHasRecords(run: seq<System>, steps: seq<Step>)
    requires |run| == |steps| + 1
  {
    forall i :: 0 <= i < |steps| ==> StrayWeeksHaveRecords(run[i], steps[i])
  }

  ghost predicate ReadersAreAlwaysRight(run: seq<System>) {
    forall n, week :: 0 <= n < |run| && IsMonday(week) ==> ReadersAreRight(run[n], week)
  }

  lemma MismatchedStepMisleads(q: Requests, run: seq<System>, steps: seq<Step>, i: nat) returns (week: Date)
    requires IsBehaviour(q, run, steps) && i < |steps|
    requires StrayWeeksHaveRecords(run[i], steps[i]) && !LoadMatches(run[i], steps[i])
    ensures IsMonday(week) && !ReadersAreRight(run[i + 1], week)
  {
    var s, step := run[i], steps[i];
    EveryStateIsConsistent(q, run, steps, i);
    assert IsStep(q, run, steps, i);
    week := MismatchStrays(q, s, step.attempt);
    StrayLoadMisleads(
      q, s, step.attempt, step.records, step.now, step.eventsRead, step.outcome.tally, run[i + 1], week);
  }

  /**
   Readers are right about every week in every state of a run exactly when each
   committed load is of the weeks its row records, whatever the clocks, retries and
   crashes - for the runs in which a load that strays outside its row has a record
   there. From right to left `ReadersSeeTheNewestSnapshot` needs no such condition.
   */
  lemma ReadersAreAlwaysRightIff(q: Requests, run: seq<System>, steps: seq<Step>)
    requires IsBehaviour(q, run, steps) && EveryStrayWeekHasRecords(run, steps)
    ensures ReadersAreAlwaysRight(run) <==> EveryLoadMatches(run, steps)
  {
    if EveryLoadMatches(run, steps) {
      forall n, week | 0 <= n < |run| && IsMonday(week)
        ensures ReadersAreRight(run[n], week)
      {
        ReadersSeeTheNewestSnapshot(q, run, steps, n, week);
      }
    } else {
      var i :| 0 <= i < |steps| && !LoadMatches(run[i], steps[i]);
      var week := MismatchedStepMisleads(q, run, steps, i);
    }
  }

  // --- What one attempt can do ---------------------------------------------------------

  /** The attempt is past its guard, its run is still running, and no newer snapshot is published. */
  ghost predicate MayLoad(s: System, attempt: nat) {
    && attempt in s.attempts
    && var a := s.attempts[attempt];
       && a.handle.Some? && a.handle.value.status == Running
       && a.weeks != [] && PassesCutoffGuard(a.weeks, a.handle.value.cutoff)
       && HoldsSlot(s.db.runs, PIPELINE, a.handle.value.runId)
       && !HasLaterRun(s.db.runs, LoadRequestOf(a, [], None))
  }

  /** Some load the attempt could commit leaves the readers of some week wrong. */
  ghost predicate CanMislead(s: System, attempt: nat) {
    exists records, now, eventsRead, outcome, s', week ::
      && LoadStep(s, attempt, records, now, eventsRead, outcome, s')
      && IsMonday(week) && !ReadersAreRight(s', week)
  }

  /** Any change between two tables has a log. */
  lemma ChangeOf(before: FigureTable, after: FigureTable, run: RunId, keys: set<Key>) returns (log: seq<Revision>)
    requires forall k :: k in keys ==> At(before, k) != At(after, k)
    ensures forall i :: 0 <= i < |log| ==>
              log[i].key in keys && log[i] == RevisionOf(run, log[i].key, At(before, log[i].key), At(after, log[i].key))
    ensures forall k :: k in keys ==> exists i :: 0 <= i < |log| && log[i].key == k
    ensures forall i, j :: 0 <= i < j < |log| ==> log[i].key != log[j].key
    decreases keys
  {
    log := [];
    if key :| key in keys {
      var rest := ChangeOf(before, after, run, keys - {key});
      log := rest + [RevisionOf(run, key, At(before, key), At(after, key))];
      forall k | k in keys
        ensures exists i :: 0 <= i < |log| && log[i].key == k
      {
        if k == key {
          assert log[|rest|].key == k;
        } else {
          assert k in keys - {key};
          var i :| 0 <= i < |rest| && rest[i].key == k;
          assert log[i].key == k;
        }
      }
    }
  }

  lemma ChangeLogExists(before: FigureTable, after: FigureTable, run: RunId) returns (log: seq<Revision>)
    ensures IsChangeLog(log, run, before, after)
  {
    var keys := set k | k in before.Keys + after.Keys && At(before, k) != At(after, k);
    log := ChangeOf(before, after, run, keys);
    forall k | At(before, k) != At(after, k)
      ensures exists i :: 0 <= i < |log| && log[i].key == k
    {
      assert k in keys;
    }
  }

  /** A load that may commit does, with any valid batch. */
  lemma LoadCommits(db: Database, r: LoadRequest, now: Time) returns (tally: LoadTally, after: Database)
    requires r.weeks != [] && !HasLaterRun(db.runs, r)
    requires r.run in db.runs && db.runs[r.run].status == Running
    ensures LoadTransaction(db, r, now, after, Loaded(tally))
  {
    var batch := BatchMap(r.records);
    tally := TallyOf(db.cells, batch, r.weeks, PublishedWeeks(db.runs, r.pipeline, r.run, r.weeks));
    var cells := PublishedTable(db.cells, batch, r.weeks, now);
    var log := ChangeLogExists(FiguresOf(db.cells), FiguresOf(cells), r.run);
    after := Database(CompleteRun(db.runs, r.run, now, tally, r.eventsRead).value, cells, db.history + log);
    assert after.history[|db.history|..] == log;
  }

  lemma LaterRunsIgnoreRecords(t: RunTable, a: Attempt, records: seq<Record>)
    requires a.handle.Some? && a.weeks != []
    ensures HasLaterRun(t, LoadRequestOf(a, records, None)) <==> HasLaterRun(t, LoadRequestOf(a, [], None))
  {
  }

  lemma LoadHappens(s: System, attempt: nat, records: seq<Record>) returns (tally: LoadTally, s': System)
    requires MayLoad(s, attempt) && ValidBatch(records, s.attempts[attempt].weeks)
    ensures LoadStep(s, attempt, records, s.clock, None, Loaded(tally), s')
  {
    var a := s.attempts[attempt];
    var r := LoadRequestOf(a, records, None);
    var db: Database;
    LaterRunsIgnoreRecords(s.db.runs, a, records);
    tally, db := LoadCommits(s.db, r, s.clock);
    s' := s.(db := db, commits := s.commits + [CommitOf(r)]);
  }

  /** Unless it matches its row, some valid batch of the attempt misleads. */
  lemma MismatchCanMislead(q: Requests, s: System, attempt: nat)
    requires IsConsistent(q, s) && MayLoad(s, attempt)
    requires !MatchesItsRow(s.db.runs, s.attempts[attempt])
    ensures CanMislead(s, attempt)
  {
    var a := s.attempts[attempt];
    var week := MismatchStrays(q, s, attempt);
    var records := [Record(Key("Zaragoza", "acme", week), Figures(1, 0, 0, 0, 0))];
    assert records[0].key.weekStart == week;
    var tally, s' := LoadHappens(s, attempt, records);
    StrayLoadMisleads(q, s, attempt, records, s.clock, None, tally, s', week);
  }

  lemma MatchCannotMislead(q: Requests, s: System, attempt: nat)
    requires Invariant(q, s) && attempt in s.attempts && MatchesItsRow(s.db.runs, s.attempts[attempt])
    ensures !CanMislead(s, attempt)
  {
    forall records, now, eventsRead, outcome, s', week
      | LoadStep(s, attempt, records, now, eventsRead, outcome, s') && IsMonday(week)
      ensures ReadersAreRight(s', week)
    {
      LoadKeeps(q, s, attempt, records, now, eventsRead, outcome, s');
      InvariantMakesReadersRight(q, s', week);
    }
  }

  /**
   In every state that loads of their own rows have reached, an attempt that may load
   can leave readers wrong exactly when its weeks are not those its row records, that
   is, when its run does not name its week and the row's weeks were computed in
   another UTC week.
   */
  lemma CanMisleadIff(q: Requests, run: seq<System>, steps: seq<Step>, n: nat, attempt: nat)
    requires IsBehaviour(q, run, steps) && EveryLoadMatches(run, steps) && n < |run|
    requires MayLoad(run[n], attempt)
    ensures CanMislead(run[n], attempt) <==> !MatchesItsRow(run[n].db.runs, run[n].attempts[attempt])
    ensures run[n].attempts[attempt].handle.value.runId in run[n].rowClock
    ensures CanMislead(run[n], attempt) <==> !SharesItsRowsWeek(q, run[n], run[n].attempts[attempt])
  {
    BehaviourKeepsInvariant(q, run, steps, n);
    RecomputesIff(q, run[n], attempt);
    if MatchesItsRow(run[n].db.runs, run[n].attempts[attempt]) {
      MatchCannotMislead(q, run[n], attempt);
    } else {
      MismatchCanMislead(q, run[n], attempt);
    }
  }
}

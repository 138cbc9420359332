/**
 Concrete runs of the system of module Publication: two in which readers are right,
 the second although the row is inserted after the week turned; and one for each
 condition of `IsOnTime` in which, without it, an attempt loads weeks its row does not
 record and readers see rows of a week that no completed run covers.

 One look-back flow run of one week. Day 14 is a Monday, so an attempt that starts in
 that week computes the week of day 7, and one that starts on day 21 the week of day 14.
 */
module PublicationRuns {
  import opened Common
  import opened Weeks
  import opened RunLog
  import opened WeeklyLoad
  import opened WeeklyPublish
  import opened Publication
  import opened PublicationOnTime

  datatype History = History(states: seq<System>, steps: seq<Step>)

  const FLOW: FlowId := 0
  const ROW: RunId := 0
  const ONE_INSERTED: LoadTally := LoadTally(1, 0, 0, 0, {})

  function Lookback(): Requests { (flow: FlowId) => WeekRequest(None, 1) }

  function NoAnswer(): FlowOracle { (flow: FlowId) => None }

  ghost predicate IsRun(run: History) {
    IsBehaviour(Lookback(), run.states, run.steps)
  }

  function Last(run: History): System
    requires run.states != []
  {
    run.states[|run.states| - 1]
  }

  ghost predicate InsertsOnTime(run: History)
    requires IsRun(run)
  {
    RowsAreInsertedOnTime(Lookback(), run.states, run.steps)
  }

  ghost predicate ResumesOnTime(run: History)
    requires IsRun(run)
  {
    RowsAreResumedOnTime(Lookback(), run.states, run.steps)
  }

  ghost predicate LoadsMatch(run: History)
    requires IsRun(run)
  {
    EveryLoadMatches(run.states, run.steps)
  }

  lemma BehaviourGrows(states: seq<System>, steps: seq<Step>, step: Step, next: System)
    requires IsBehaviour(Lookback(), states, steps) && Next(Lookback(), states[|steps|], step, next)
    ensures IsBehaviour(Lookback(), states + [next], steps + [step])
  {
    forall i | 0 <= i <= |steps|
      ensures IsStep(Lookback(), states + [next], steps + [step], i)
    {
      if i < |steps| {
        assert IsStep(Lookback(), states, steps, i);
      }
    }
  }

  lemma InsertsGrow(states: seq<System>, steps: seq<Step>, step: Step, next: System)
    requires |states| == |steps| + 1
    ensures RowsAreInsertedOnTime(Lookback(), states + [next], steps + [step])
       <==> RowsAreInsertedOnTime(Lookback(), states, steps) && InsertsInItsWeek(Lookback(), states[|steps|], step)
  {
    var q, more, longer := Lookback(), states + [next], steps + [step];
    assert forall i ::
        (0 <= i < |steps| ==> InsertsInItsWeek(q, more[i], longer[i]) == InsertsInItsWeek(q, states[i], steps[i]));
    assert InsertsInItsWeek(q, more[|steps|], longer[|steps|]) == InsertsInItsWeek(q, states[|steps|], step);
  }

  lemma ResumesGrow(states: seq<System>, steps: seq<Step>, step: Step, next: System)
    requires |states| == |steps| + 1
    ensures RowsAreResumedOnTime(Lookback(), states + [next], steps + [step])
       <==> RowsAreResumedOnTime(Lookback(), states, steps) && ResumesNoLaterRow(Lookback(), states[|steps|], step)
  {
    var q, more, longer := Lookback(), states + [next], steps + [step];
    assert forall i ::
        (0 <= i < |steps| ==> ResumesNoLaterRow(q, more[i], longer[i]) == ResumesNoLaterRow(q, states[i], steps[i]));
    assert ResumesNoLaterRow(q, more[|steps|], longer[|steps|]) == ResumesNoLaterRow(q, states[|steps|], step);
  }

  lemma MatchesGrow(states: seq<System>, steps: seq<Step>, step: Step, next: System)
    requires |states| == |steps| + 1
    ensures EveryLoadMatches(states + [next], steps + [step])
       <==> EveryLoadMatches(states, steps) && LoadMatches(states[|steps|], step)
  {
    var more, longer := states + [next], steps + [step];
    assert forall i :: (0 <= i < |steps| ==> LoadMatches(more[i], longer[i]) == LoadMatches(states[i], steps[i]));
    assert LoadMatches(more[|steps|], longer[|steps|]) == LoadMatches(states[|steps|], step);
  }

  lemma Extend(run: History, step: Step, next: System) returns (longer: History)
    requires IsRun(run) && Next(Lookback(), Last(run), step, next)
    ensures IsRun(longer) && Last(longer) == next
    ensures InsertsOnTime(longer) <==> InsertsOnTime(run) && InsertsInItsWeek(Lookback(), Last(run), step)
    ensures ResumesOnTime(longer) <==> ResumesOnTime(run) && ResumesNoLaterRow(Lookback(), Last(run), step)
    ensures LoadsMatch(longer) <==> LoadsMatch(run) && LoadMatches(Last(run), step)
  {
    longer := History(run.states + [next], run.steps + [step]);
    BehaviourGrows(run.states, run.steps, step, next);
    InsertsGrow(run.states, run.steps, step, next);
    ResumesGrow(run.states, run.steps, step, next);
    MatchesGrow(run.states, run.steps, step, next);
  }

  // --- One step at a time --------------------------------------------------------------

  lemma WeekComputedAt(moment: Time)
    ensures ClosedWeeks(moment, WeekRequest(None, 1)) == Success([WeekStartOf(moment) - 7])
  {
    assert ClosedWeeks(moment, WeekRequest(None, 1)).value == [LastClosedWeek(moment)];
  }

  /** An attempt that starts at `moment`. */
  lemma Start(run: History, attempt: nat, moment: Time) returns (longer: History)
    requires IsRun(run) && attempt !in Last(run).attempts
    ensures IsRun(longer)
    ensures Last(longer) == Last(run).(
              clock := moment,
              attempts := Last(run).attempts[attempt := Attempt(FLOW, moment, [WeekStartOf(moment) - 7], None)])
    ensures InsertsOnTime(longer) <==> InsertsOnTime(run)
    ensures ResumesOnTime(longer) <==> ResumesOnTime(run)
    ensures LoadsMatch(longer) <==> LoadsMatch(run)
  {
    WeekComputedAt(moment);
    longer := Extend(run, Tick(moment), Last(run).(clock := moment));
    var s := Last(longer);
    longer := Extend(longer, Begin(attempt, FLOW),
                     s.(attempts := s.attempts[attempt := Attempt(FLOW, moment, [WeekStartOf(moment) - 7], None)]));
  }

  function NewRow(week: Date, cutoff: Time): Run {
    Run(PIPELINE, Some(FLOW), Running, None, cutoff, None, week, week, cutoff, None, None, None, None)
  }

  lemma OpenOnEmptyTable(week: Date, now: Time)
    ensures OpenRun(map[], OpenRequest(PIPELINE, FLOW, week, week, now, ROW), NoAnswer())
         == OpenResult(map[ROW := NewRow(week, now)], Success(RunHandle(ROW, Running, now, None, None, false)))
  {
    assert CompletedCutoffs(map[], PIPELINE) == {};
    assert SweepAbandoned(map[], PIPELINE, FLOW, now, NoAnswer()) == map[];
  }

  lemma OpenOwnRow(week: Date, cutoff: Time, request: OpenRequest)
    requires request.flow == FLOW && request.pipeline == PIPELINE
    ensures OpenRun(map[ROW := NewRow(week, cutoff)], request, NoAnswer())
         == OpenResult(map[ROW := NewRow(week, cutoff)], Success(RunHandle(ROW, Running, cutoff, None, None, true)))
  {
    var t: RunTable := map[ROW := NewRow(week, cutoff)];
    assert CompletedCutoffs(t, PIPELINE) == {};
    assert SweepAbandoned(t, PIPELINE, FLOW, request.now, NoAnswer()) == t;
    assert BelongsTo(t, FLOW, ROW);
    assert forall id :: BelongsTo(t, FLOW, id) ==> id == ROW;
  }

  /** The first attempt to open inserts the row, with the database clock at `now`. */
  lemma Insert(run: History, attempt: nat, now: Time) returns (longer: History)
    requires IsRun(run) && attempt in Last(run).attempts && Last(run).db.runs == map[] && Last(run).rowClock == map[]
    requires var a := Last(run).attempts[attempt]; a.flow == FLOW && |a.weeks| == 1 && a.handle == None
    ensures IsRun(longer)
    ensures var a := Last(run).attempts[attempt];
            Last(longer) == Last(run).(
              db := Last(run).db.(runs := map[ROW := NewRow(a.weeks[0], now)]),
              rowClock := map[ROW := a.startedAt],
              attempts := Last(run).attempts[
                attempt := a.(handle := Some(RunHandle(ROW, Running, now, None, None, false)))])
    ensures InsertsOnTime(longer)
       <==> InsertsOnTime(run) && WeekStartOf(now) <= WeekStartOf(Last(run).attempts[attempt].startedAt)
    ensures ResumesOnTime(longer) <==> ResumesOnTime(run)
    ensures LoadsMatch(longer) <==> LoadsMatch(run)
  {
    var s := Last(run);
    var a := s.attempts[attempt];
    OpenOnEmptyTable(a.weeks[0], now);
    assert RunOfFlow(s.db.runs, a.flow).None?;
    longer := Extend(run, Open(attempt, ROW, now, NoAnswer()), s.(
      db := s.db.(runs := map[ROW := NewRow(a.weeks[0], now)]),
      rowClock := map[ROW := a.startedAt],
      attempts := s.attempts[attempt := a.(handle := Some(RunHandle(ROW, Running, now, None, None, false)))]));
  }

  /** Another attempt of the flow run finds that row, still running. */
  lemma Resume(run: History, attempt: nat, week: Date, cutoff: Time) returns (longer: History)
    requires IsRun(run) && attempt in Last(run).attempts && Last(run).db.runs == map[ROW := NewRow(week, cutoff)]
    requires Last(run).rowClock.Keys == {ROW}
    requires var a := Last(run).attempts[attempt]; a.flow == FLOW && |a.weeks| == 1 && a.handle == None
    ensures IsRun(longer)
    ensures var a := Last(run).attempts[attempt];
            Last(longer) == Last(run).(attempts := Last(run).attempts[
              attempt := a.(handle := Some(RunHandle(ROW, Running, cutoff, None, None, true)))])
    ensures InsertsOnTime(longer) <==> InsertsOnTime(run)
    ensures ResumesOnTime(longer)
       <==> ResumesOnTime(run)
            && WeekStartOf(Last(run).rowClock[ROW]) <= WeekStartOf(Last(run).attempts[attempt].startedAt)
    ensures LoadsMatch(longer) <==> LoadsMatch(run)
  {
    var s := Last(run);
    var a := s.attempts[attempt];
    OpenOwnRow(week, cutoff, RequestOf(a, cutoff, 1));
    assert BelongsTo(s.db.runs, FLOW, ROW);
    assert forall id :: BelongsTo(s.db.runs, FLOW, id) ==> id == ROW;
    longer := Extend(run, Open(attempt, 1, cutoff, NoAnswer()), s.(attempts := s.attempts[
      attempt := a.(handle := Some(RunHandle(ROW, Running, cutoff, None, None, true)))]));
  }

  function RecordOf(week: Date): Record {
    Record(Key("Zaragoza", "acme", week), Figures(5, 1, 0, 0, 0))
  }

  /** The database after the only row's run has published one record of `week`. */
  function Published(row: Run, week: Date, now: Time): Database {
    var record := RecordOf(week);
    Database(
      map[ROW := row.(status := Completed, finishedAt := Some(now), tally := Some(ONE_INSERTED),
            eventsRead := Some(1))],
      map[record.key := Cell(record.figures, now)],
      [RevisionOf(ROW, record.key, None, Some(record.figures))])
  }

  function OneRow(row: Run): Database {
    Database(map[ROW := row], map[], [])
  }

  lemma SingleBatch(records: seq<Record>, record: Record)
    requires records == [record]
    ensures BatchMap(records) == map[record.key := record.figures]
  {
    assert BatchMap(records[..0]) == map[];
  }

  lemma FirstTally(row: Run, batch: FigureTable, record: Record, weeks: seq<Date>)
    requires row.status == Running && batch == map[record.key := record.figures]
    ensures TallyOf(map[], batch, weeks, PublishedWeeks(OneRow(row).runs, PIPELINE, ROW, weeks)) == ONE_INSERTED
  {
    assert InsertedKeys(map[], batch) == {record.key} && UpdatedKeys(map[], batch) == {};
    assert DeletedKeys(map[], batch, weeks) == {};
    assert PublishedWeeks(OneRow(row).runs, PIPELINE, ROW, weeks) == {};
  }

  lemma FirstRevision(row: Run, week: Date, now: Time, batch: FigureTable)
    requires batch == map[RecordOf(week).key := RecordOf(week).figures]
    ensures Published(row, week, now).cells == PublishedTable(map[], batch, [week], now)
    ensures HistoryGrows(OneRow(row), Published(row, week, now), ROW)
  {
    var after := Published(row, week, now);
    assert after.history[0..] == after.history;
    assert FiguresOf(map[]) == map[];
    assert FiguresOf(after.cells) == batch;
    assert after.history[0].key == RecordOf(week).key;
  }

  lemma FirstCompletion(row: Run, week: Date, now: Time)
    requires row.status == Running
    ensures CompleteRun(OneRow(row).runs, ROW, now, ONE_INSERTED, Some(1)) == Some(Published(row, week, now).runs)
  {
    var t := OneRow(row).runs;
    assert t[ROW] == row;
    assert CompleteRun(t, ROW, now, ONE_INSERTED, Some(1)).value == Published(row, week, now).runs;
  }

  lemma NothingNewer(row: Run, r: LoadRequest)
    requires row.status == Running && r.weeks != []
    ensures !HasLaterRun(OneRow(row).runs, r)
  {
  }

  lemma FirstLoad(row: Run, week: Date, r: LoadRequest, now: Time)
    requires row.status == Running
    requires r.pipeline == PIPELINE && r.run == ROW && r.weeks == [week] && r.records == [RecordOf(week)]
    requires r.eventsRead == Some(1)
    ensures LoadTransaction(OneRow(row), r, now, Published(row, week, now), Loaded(ONE_INSERTED))
  {
    SingleBatch(r.records, RecordOf(week));
    FirstTally(row, BatchMap(r.records), RecordOf(week), r.weeks);
    FirstRevision(row, week, now, BatchMap(r.records));
    FirstCompletion(row, week, now);
    NothingNewer(row, r);
  }

  /** The state after that load. */
  ghost function AfterLoad(s: System, a: Attempt, row: Run, week: Date): System
    requires a.handle.Some? && a.weeks == [week]
  {
    s.(db := Published(row, week, s.clock), commits := [CommitOf(LoadRequestOf(a, [RecordOf(week)], Some(1)))])
  }

  lemma LoadIsAStep(s: System, attempt: nat, row: Run, week: Date)
    requires attempt in s.attempts && row.status == Running
    requires s.db == OneRow(row) && s.commits == []
    requires var a := s.attempts[attempt];
             && a.weeks == [week] && a.handle.Some? && a.handle.value.runId == ROW
             && a.handle.value.status == Running && PassesCutoffGuard([week], a.handle.value.cutoff)
    ensures LoadStep(s, attempt, [RecordOf(week)], s.clock, Some(1), Loaded(ONE_INSERTED),
                     AfterLoad(s, s.attempts[attempt], row, week))
  {
    var a, s' := s.attempts[attempt], AfterLoad(s, s.attempts[attempt], row, week);
    var r := LoadRequestOf(a, [RecordOf(week)], Some(1));
    FirstLoad(row, week, r, s.clock);
    assert s'.db == Published(row, week, s.clock) && s'.commits == s.commits + [CommitOf(r)];
  }

  /** The attempt passes the cutoff guard and publishes its week under the row. */
  lemma Publish(run: History, attempt: nat, row: Run, week: Date) returns (longer: History)
    requires IsRun(run) && attempt in Last(run).attempts && row.status == Running
    requires Last(run).db == OneRow(row) && Last(run).commits == []
    requires var a := Last(run).attempts[attempt];
             && a.weeks == [week] && a.handle.Some? && a.handle.value.runId == ROW
             && a.handle.value.status == Running && PassesCutoffGuard([week], a.handle.value.cutoff)
    ensures IsRun(longer) && Last(longer).db == Published(row, week, Last(run).clock)
    ensures InsertsOnTime(longer) <==> InsertsOnTime(run)
    ensures ResumesOnTime(longer) <==> ResumesOnTime(run)
    ensures LoadsMatch(longer) <==> LoadsMatch(run) && row.weeksFrom == week == row.weeksTo
  {
    var s := Last(run);
    LoadIsAStep(s, attempt, row, week);
    longer := Extend(run, Step.Load(attempt, [RecordOf(week)], s.clock, Some(1), Loaded(ONE_INSERTED)),
                     AfterLoad(s, s.attempts[attempt], row, week));
  }

  // --- The runs ------------------------------------------------------------------------

  lemma Nothing() returns (run: History)
    ensures IsRun(run) && Last(run) == System(Database(map[], map[], []), 0, map[], map[], [])
    ensures InsertsOnTime(run) && ResumesOnTime(run) && LoadsMatch(run)
  {
    run := History([System(Database(map[], map[], []), 0, map[], map[], [])], []);
  }

  /** What the report shows of a week. */
  function Shown(run: History, week: Date): FigureTable
    requires run.states != []
  {
    WeekOf(FiguresOf(Last(run).db.cells), week)
  }

  lemma ShownAfterPublishing(run: History, row: Run, week: Date, now: Time)
    requires run.states != [] && Last(run).db == Published(row, week, now)
    ensures Shown(run, week) == map[RecordOf(week).key := RecordOf(week).figures] != map[]
    ensures IsWeekComputed(Last(run).db.runs, PIPELINE, week) <==>
              row.pipeline == PIPELINE && row.weeksFrom <= week <= row.weeksTo
  {
    assert RecordOf(week).key in Shown(run, week);
    assert row.pipeline == PIPELINE && row.weeksFrom <= week <= row.weeksTo ==>
        ComputesWeek(Last(run).db.runs, PIPELINE, week, ROW);
  }

  /** An attempt that starts at `moment`, opens at `cutoff` and publishes week 7. */
  lemma PublishWeek7(moment: Time, cutoff: Time) returns (run: History)
    requires WeekStartOf(moment) == 14 && Midnight(14) <= cutoff
    ensures IsRun(run) && ResumesOnTime(run) && LoadsMatch(run)
    ensures InsertsOnTime(run) <==> WeekStartOf(cutoff) <= 14
    ensures Shown(run, 7) == map[RecordOf(7).key := RecordOf(7).figures]
    ensures IsWeekComputed(Last(run).db.runs, PIPELINE, 7)
  {
    run := Nothing();
    run := Start(run, 0, moment);
    run := Insert(run, 0, cutoff);
    run := Publish(run, 0, NewRow(7, cutoff), 7);
    ShownAfterPublishing(run, NewRow(7, cutoff), 7, moment);
  }

  /** A run that is on time and publishes a week. */
  lemma AWeekIsPublished() returns (run: History)
    ensures IsRun(run) && InsertsOnTime(run) && ResumesOnTime(run) && LoadsMatch(run)
    ensures Shown(run, 7) == map[RecordOf(7).key := RecordOf(7).figures]
    ensures IsWeekComputed(Last(run).db.runs, PIPELINE, 7)
  {
    run := PublishWeek7(Midnight(14), Midnight(14));
  }

  /**
   Being on time is not needed: the weeks are computed in the last second of Sunday,
   the row is inserted in the first of Monday, and the attempt publishes its own weeks.
   */
  lemma AMidnightOpeningIsRight() returns (run: History)
    ensures IsRun(run) && !InsertsOnTime(run) && LoadsMatch(run)
    ensures Shown(run, 7) == map[RecordOf(7).key := RecordOf(7).figures]
    ensures IsWeekComputed(Last(run).db.runs, PIPELINE, 7)
    ensures forall n, week :: 0 <= n < |run.states| && IsMonday(week) ==> ReadersAreRight(run.states[n], week)
  {
    run := PublishWeek7(Midnight(21) - 1_000_000, Midnight(21) + 1_000_000);
    forall n, week | 0 <= n < |run.states| && IsMonday(week)
      ensures ReadersAreRight(run.states[n], week)
    {
      ReadersSeeTheNewestSnapshot(Lookback(), run.states, run.steps, n, week);
    }
  }

  /** The row of week 7 is inserted a week ahead, and a later attempt finds it. */
  lemma InsertedEarly() returns (run: History)
    ensures IsRun(run) && ResumesOnTime(run) && !InsertsOnTime(run)
    ensures Last(run).db == OneRow(NewRow(7, Midnight(21))) && Last(run).commits == []
    ensures 1 in Last(run).attempts && Last(run).attempts[1].weeks == [14]
    ensures Last(run).attempts[1].handle == Some(RunHandle(ROW, Running, Midnight(21), None, None, true))
  {
    run := Nothing();
    run := Start(run, 0, Midnight(14));
    run := Insert(run, 0, Midnight(21));
    run := Start(run, 1, Midnight(21));
    run := Resume(run, 1, 7, Midnight(21));
  }

  /**
   Without `RowsAreInsertedOnTime`: the row of week 7 is inserted with the database
   clock a week ahead. A retry a week later computes week 14, passes the guard
   against that cutoff, and publishes week 14 under the row of week 7.
   */
  lemma AnEarlyCutoffShowsAnUncoveredWeek() returns (run: History)
    ensures IsRun(run) && ResumesOnTime(run) && !InsertsOnTime(run) && !LoadsMatch(run)
    ensures !IsWeekComputed(Last(run).db.runs, PIPELINE, 14) && !ReadersAreRight(Last(run), 14)
  {
    run := InsertedEarly();
    var now := Last(run).clock;
    run := Publish(run, 1, NewRow(7, Midnight(21)), 14);
    ShownAfterPublishing(run, NewRow(7, Midnight(21)), 14, now);
  }

  /** Two attempts have started, a week apart. */
  lemma TwoStarted() returns (run: History)
    ensures IsRun(run) && InsertsOnTime(run) && ResumesOnTime(run)
    ensures Last(run) == System(
              Database(map[], map[], []), Midnight(21),
              map[0 := Attempt(FLOW, Midnight(14), [7], None), 1 := Attempt(FLOW, Midnight(21), [14], None)],
              map[], [])
  {
    run := Nothing();
    run := Start(run, 0, Midnight(14));
    run := Start(run, 1, Midnight(21));
  }

  /** A later attempt inserts the row of week 14, and an earlier one finds it. */
  lemma ResumedLate() returns (run: History)
    ensures IsRun(run) && InsertsOnTime(run) && !ResumesOnTime(run)
    ensures Last(run).db == OneRow(NewRow(14, Midnight(21))) && Last(run).commits == []
    ensures 0 in Last(run).attempts && Last(run).attempts[0].weeks == [7]
    ensures Last(run).attempts[0].handle == Some(RunHandle(ROW, Running, Midnight(21), None, None, true))
  {
    run := TwoStarted();
    run := Insert(run, 1, Midnight(21));
    run := Resume(run, 0, 14, Midnight(21));
  }

  /**
   Without `RowsAreResumedOnTime`: an attempt that computed week 7 is delayed until
   a later attempt has inserted the row of week 14. It resumes that row and
   publishes week 7 under it.
   */
  lemma ALateAttemptShowsAnUncoveredWeek() returns (run: History)
    ensures IsRun(run) && InsertsOnTime(run) && !ResumesOnTime(run) && !LoadsMatch(run)
    ensures !IsWeekComputed(Last(run).db.runs, PIPELINE, 7) && !ReadersAreRight(Last(run), 7)
  {
    run := ResumedLate();
    var now := Last(run).clock;
    run := Publish(run, 0, NewRow(14, Midnight(21)), 7);
    ShownAfterPublishing(run, NewRow(14, Midnight(21)), 7, now);
  }
}

/**
 What a committed load reports about itself, over whole runs: its counts and the weeks
 it calls revised, in terms of the report before and after it and of the loads
 committed earlier.
 */
module PublicationReports {
  import opened Common
  import opened Weeks
  import opened RunLog
  import opened WeeklyLoad
  import opened WeeklyPublish
  import opened Publication

  ghost predicate IsCommittedLoad(step: Step) {
    step.Load? && step.outcome.Loaded?
  }

  /** A load committed earlier covers the week. */
  predicate WasPublishedBefore(commits: seq<Commit>, week: Date) {
    exists c :: 0 <= c < |commits| && commits[c].weeksFrom <= week <= commits[c].weeksTo
  }

  /** The weeks the transaction takes as published are those an earlier commit covers. */
  lemma PublishedMeansCommitted(runs: RunTable, commits: seq<Commit>, own: RunId, weeks: seq<Date>, week: Date)
    requires CommitsInvariant(runs, commits) && own in runs && runs[own].status != Completed
    requires week in weeks
    ensures week in PublishedWeeks(runs, PIPELINE, own, weeks) <==> WasPublishedBefore(commits, week)
  {
    if c :| 0 <= c < |commits| && commits[c].weeksFrom <= week <= commits[c].weeksTo {
      assert CommitMatchesRow(runs, commits[c]);
      assert commits[c].run in runs && Covers(runs[commits[c].run], week);
    }
    if id :| id in runs && id != own && runs[id].pipeline == PIPELINE && Covers(runs[id], week) {
      var c: nat :| IsCommitOf(commits, id, c);
      assert CommitMatchesRow(runs, commits[c]);
    }
  }

  lemma ReportedRevisions(s: System, r: LoadRequest, now: Time, after: Database, tally: LoadTally, week: Date)
    requires CommitsInvariant(s.db.runs, s.commits) && r.pipeline == PIPELINE && ValidBatch(r.records, r.weeks)
    requires LoadTransaction(s.db, r, now, after, Loaded(tally))
    ensures week in tally.weeksRevised <==>
              && WasPublishedBefore(s.commits, week)
              && WeekOf(FiguresOf(s.db.cells), week) != WeekOf(FiguresOf(after.cells), week)
  {
    var batch, published := BatchMap(r.records), PublishedWeeks(s.db.runs, PIPELINE, r.run, r.weeks);
    ValidBatchStaysIn(r.records, r.weeks);
    RevisedWeeksAreTheChangedOnes(s.db.cells, batch, r.weeks, published, now, week);
    if week in r.weeks {
      PublishedMeansCommitted(s.db.runs, s.commits, r.run, r.weeks, week);
    } else {
      UnpublishedWeeksKeepFigures(s.db.cells, batch, r.weeks, now, week);
    }
  }

  /**
   A week is reported as revised exactly when a load committed earlier covers it and
   this load changed its rows: a week published for the first time never is.
   */
  lemma RevisedMeansPublishedAndChanged(q: Requests, run: seq<System>, steps: seq<Step>, i: nat, week: Date)
    requires IsBehaviour(q, run, steps) && EveryLoadMatches(run, steps) && i < |steps| && IsCommittedLoad(steps[i])
    ensures week in steps[i].outcome.tally.weeksRevised <==>
              && WasPublishedBefore(run[i].commits, week)
              && WeekOf(FiguresOf(run[i].db.cells), week) != WeekOf(FiguresOf(run[i + 1].db.cells), week)
  {
    BehaviourKeepsInvariant(q, run, steps, i);
    assert IsStep(q, run, steps, i);
    var step := steps[i];
    var r := LoadRequestOf(run[i].attempts[step.attempt], step.records, step.eventsRead);
    ReportedRevisions(run[i], r, step.now, run[i + 1].db, step.outcome.tally, week);
  }

  /** The four counts are the rows that are new, changed, left as they were in its weeks, and gone. */
  ghost predicate CountsHold(before: ReportTable, after: ReportTable, weeks: seq<Date>, tally: LoadTally) {
    && tally.rowsInserted == |set k | k in after && k !in before|
    && tally.rowsUpdated == |set k | k in after && k in before && after[k].figures != before[k].figures|
    && tally.rowsUnchanged
       == |set k: Key | k in after && k in before && k.weekStart in weeks && after[k].figures == before[k].figures|
    && tally.rowsDeleted == |set k | k in before && k !in after|
  }

  lemma NewAndChangedKeys(cells: ReportTable, batch: FigureTable, weeks: seq<Date>, now: Time, after: ReportTable)
    requires StaysIn(batch, weeks) && after == PublishedTable(cells, batch, weeks, now)
    ensures (set k | k in after && k !in cells) == InsertedKeys(cells, batch)
    ensures (set k | k in after && k in cells && after[k].figures != cells[k].figures) == UpdatedKeys(cells, batch)
  {
  }

  lemma KeptAndGoneKeys(cells: ReportTable, batch: FigureTable, weeks: seq<Date>, now: Time, after: ReportTable)
    requires StaysIn(batch, weeks) && after == PublishedTable(cells, batch, weeks, now)
    ensures (set k: Key | k in after && k in cells && k.weekStart in weeks && after[k].figures == cells[k].figures)
         == (set k | k in batch && k in cells && cells[k].figures == batch[k])
    ensures (set k | k in cells && k !in after) == DeletedKeys(cells, batch, weeks)
  {
  }

  lemma TallyCounts(
    cells: ReportTable, records: seq<Record>, weeks: seq<Date>, published: set<Date>, now: Time, after: ReportTable)
    requires ValidBatch(records, weeks) && after == PublishedTable(cells, BatchMap(records), weeks, now)
    ensures CountsHold(cells, after, weeks, TallyOf(cells, BatchMap(records), weeks, published))
  {
    var batch := BatchMap(records);
    ValidBatchStaysIn(records, weeks);
    TallyAddsUp(cells, records, weeks, published, now);
    NewAndChangedKeys(cells, batch, weeks, now, after);
    KeptAndGoneKeys(cells, batch, weeks, now, after);
  }

  lemma LoadCountsWhatItDid(q: Requests, run: seq<System>, steps: seq<Step>, i: nat)
    requires IsBehaviour(q, run, steps) && i < |steps| && IsCommittedLoad(steps[i])
    ensures steps[i].attempt in run[i].attempts
    ensures CountsHold(run[i].db.cells, run[i + 1].db.cells, run[i].attempts[steps[i].attempt].weeks,
                       steps[i].outcome.tally)
  {
    assert IsStep(q, run, steps, i);
    var step := steps[i];
    var r := LoadRequestOf(run[i].attempts[step.attempt], step.records, step.eventsRead);
    var published := PublishedWeeks(run[i].db.runs, PIPELINE, r.run, r.weeks);
    TallyCounts(run[i].db.cells, r.records, r.weeks, published, step.now, run[i + 1].db.cells);
  }

  /** A row of the report carries the moment its figures were last changed. */
  lemma RowsCarryTheirMoment(q: Requests, run: seq<System>, steps: seq<Step>, i: nat, key: Key)
    requires IsBehaviour(q, run, steps) && i < |steps| && IsCommittedLoad(steps[i])
    requires key in run[i + 1].db.cells
    ensures var before, after := run[i].db.cells, run[i + 1].db.cells[key];
            if key in before && before[key].figures == after.figures then after == before[key]
            else after.computedAt == steps[i].now
  {
    assert IsStep(q, run, steps, i);
  }

  /** The entry says whose run it was, and what its row was before and after. */
  ghost predicate TellsTheChange(e: Revision, own: RunId, before: ReportTable, after: ReportTable) {
    && e.run == own
    && (e.before.Some? <==> e.key in before) && (e.key in before ==> e.before == Some(before[e.key].figures))
    && (e.after.Some? <==> e.key in after) && (e.key in after ==> e.after == Some(after[e.key].figures))
    && (e.operation == Insert <==> e.key !in before)
    && (e.operation == Delete <==> e.key in before && e.key !in after)
  }

  /** The row is new, gone or holds other figures. */
  ghost predicate IsChanged(key: Key, before: ReportTable, after: ReportTable) {
    || (key in before <==> key !in after)
    || (key in before && key in after && before[key].figures != after[key].figures)
  }

  /** One true entry for each changed row, and nothing else. */
  ghost predicate TellsEveryChange(entries: seq<Revision>, own: RunId, before: ReportTable, after: ReportTable) {
    && (forall n :: 0 <= n < |entries| ==>
          TellsTheChange(entries[n], own, before, after) && IsChanged(entries[n].key, before, after))
    && (forall n, m :: 0 <= n < m < |entries| ==> entries[n].key != entries[m].key)
    && (forall key :: IsChanged(key, before, after) ==> exists n :: 0 <= n < |entries| && entries[n].key == key)
  }

  lemma ChangedIff(key: Key, before: ReportTable, after: ReportTable)
    ensures IsChanged(key, before, after) <==> At(FiguresOf(before), key) != At(FiguresOf(after), key)
  {
  }

  lemma ChangeLogTells(log: seq<Revision>, own: RunId, before: ReportTable, after: ReportTable)
    requires IsChangeLog(log, own, FiguresOf(before), FiguresOf(after))
    ensures TellsEveryChange(log, own, before, after)
  {
    forall n | 0 <= n < |log|
      ensures TellsTheChange(log[n], own, before, after) && IsChanged(log[n].key, before, after)
    {
      ChangedIff(log[n].key, before, after);
    }
    forall key | IsChanged(key, before, after)
      ensures exists n :: 0 <= n < |log| && log[n].key == key
    {
      ChangedIff(key, before, after);
    }
  }

  /** A committed load adds to the history one true entry for each row it changes, and nothing else. */
  lemma RevisionsTellTheChange(q: Requests, run: seq<System>, steps: seq<Step>, i: nat)
    requires IsBehaviour(q, run, steps) && i < |steps| && IsCommittedLoad(steps[i])
    ensures steps[i].attempt in run[i].attempts && run[i].attempts[steps[i].attempt].handle.Some?
    ensures var before, after := run[i].db, run[i + 1].db;
            && before.history <= after.history
            && TellsEveryChange(after.history[|before.history|..],
                                run[i].attempts[steps[i].attempt].handle.value.runId, before.cells, after.cells)
  {
    assert IsStep(q, run, steps, i);
    var before, after := run[i].db, run[i + 1].db;
    ChangeLogTells(after.history[|before.history|..], run[i].attempts[steps[i].attempt].handle.value.runId,
                   before.cells, after.cells);
  }

  /** Nothing but a committed load changes the report or its history. */
  lemma OnlyCommittedLoadsPublish(q: Requests, run: seq<System>, steps: seq<Step>, i: nat)
    requires IsBehaviour(q, run, steps) && i < |steps| && !IsCommittedLoad(steps[i])
    ensures run[i + 1].db.cells == run[i].db.cells && run[i + 1].db.history == run[i].db.history
    ensures run[i + 1].commits == run[i].commits
  {
    assert IsStep(q, run, steps, i);
  }
}

/**
 The load, run against the tables: the upsert, the stale-key delete, the trigger
 that records both, and the transaction around them
 (data/pipelines/weekly_warehouse_client_performance/load.py).
 */
module WeeklyPublish {
  import opened Common
  import opened Weeks
  import opened RunLog
  import opened WeeklyLoad

  datatype Database = Database(runs: RunTable, cells: ReportTable, history: seq<Revision>)

  datatype LoadRequest = LoadRequest(
    pipeline: string,
    run: RunId,
    cutoff: Time,
    weeks: seq<Date>,
    records: seq<Record>,
    eventsRead: Option<nat>)

  /** How the load transaction ends. The last two roll everything back. */
  datatype LoadOutcome = Loaded(tally: LoadTally) | StaleSnapshot(newer: RunId) | RunNotRunning

  ghost predicate IsNewestLaterRun(t: RunTable, newer: RunId, r: LoadRequest)
    requires r.weeks != []
  {
    && ReadLaterSnapshot(t, newer, r.pipeline, r.run, r.cutoff, r.weeks)
    && forall id :: ReadLaterSnapshot(t, id, r.pipeline, r.run, r.cutoff, r.weeks)
                    ==> t[id].cutoff <= t[newer].cutoff
  }

  ghost predicate HasLaterRun(t: RunTable, r: LoadRequest)
    requires r.weeks != []
  {
    exists id :: ReadLaterSnapshot(t, id, r.pipeline, r.run, r.cutoff, r.weeks)
  }

  ghost predicate HistoryGrows(before: Database, after: Database, run: RunId) {
    && before.history <= after.history
    && IsChangeLog(after.history[|before.history|..], run, FiguresOf(before.cells), FiguresOf(after.cells))
  }

  /** One load transaction, from the tables it finds to the tables it leaves. */
  ghost predicate LoadTransaction(
    before: Database, r: LoadRequest, now: Time, after: Database, outcome: LoadOutcome)
    requires r.weeks != []
  {
    match outcome
    case StaleSnapshot(newer) =>
      IsNewestLaterRun(before.runs, newer, r) && after == before
    case RunNotRunning =>
      && !HasLaterRun(before.runs, r)
      && !(r.run in before.runs && before.runs[r.run].status == Running)
      && after == before
    case Loaded(tally) =>
      var batch := BatchMap(r.records);
      && !HasLaterRun(before.runs, r)
      && tally == TallyOf(before.cells, batch, r.weeks, PublishedWeeks(before.runs, r.pipeline, r.run, r.weeks))
      && CompleteRun(before.runs, r.run, now, tally, r.eventsRead) == Some(after.runs)
      && after.cells == PublishedTable(before.cells, batch, r.weeks, now)
      && HistoryGrows(before, after, r.run)
  }

  /** A load whose run is not running when it commits changes no published row. */
  lemma OnlyARunningRunPublishes(
    before: Database, r: LoadRequest, now: Time, after: Database, outcome: LoadOutcome)
    requires r.weeks != [] && LoadTransaction(before, r, now, after, outcome)
    ensures after != before ==>
              && r.run in before.runs && before.runs[r.run].status == Running
              && after.runs[r.run].status == Completed
              && !HasLaterRun(before.runs, r)
  {
  }

  // --- Change logs compose -------------------------------------------------------------

  lemma ChangeLogGrows(
    log: seq<Revision>, run: RunId, before: FigureTable, mid: FigureTable, key: Key,
    change: Option<Figures>)
    requires IsChangeLog(log, run, before, mid)
    requires forall i :: 0 <= i < |log| ==> log[i].key != key
    requires At(mid, key) != change
    ensures var revision := RevisionOf(run, key, At(mid, key), change);
            IsChangeLog(log + [revision], run, before, ApplyRevision(mid, revision))
  {
    var revision := RevisionOf(run, key, At(mid, key), change);
    var after := ApplyRevision(mid, revision);
    var grown := log + [revision];
    assert At(before, key) == At(mid, key);
    forall k
      ensures k != key ==> At(after, k) == At(mid, k)
    {
    }
    forall k | At(before, k) != At(after, k)
      ensures exists i :: 0 <= i < |grown| && grown[i].key == k
    {
      if k == key {
        assert grown[|log|].key == k;
      } else {
        var i :| 0 <= i < |log| && log[i].key == k;
        assert grown[i].key == k;
      }
    }
  }

  /** `history` extends `start` by a change log that touches only `keys`. */
  ghost predicate Logged(
    start: seq<Revision>, history: seq<Revision>, run: RunId,
    before: FigureTable, after: FigureTable, keys: set<Key>)
  {
    && start <= history
    && IsChangeLog(history[|start|..], run, before, after)
    && forall i :: |start| <= i < |history| ==> history[i].key in keys
  }

  lemma LoggedGrows(
    start: seq<Revision>, history: seq<Revision>, run: RunId,
    before: FigureTable, mid: FigureTable, keys: set<Key>, key: Key, change: Option<Figures>)
    requires Logged(start, history, run, before, mid, keys)
    requires key !in keys && At(mid, key) != change
    ensures var revision := RevisionOf(run, key, At(mid, key), change);
            Logged(start, history + [revision], run, before, ApplyRevision(mid, revision), keys + {key})
  {
    var revision := RevisionOf(run, key, At(mid, key), change);
    var log := history[|start|..];
    ChangeLogGrows(log, run, before, mid, key, change);
    assert (history + [revision])[|start|..] == log + [revision];
  }

  lemma WriteIsRevision(cells: ReportTable, run: RunId, key: Key, figures: Figures, now: Time)
    ensures FiguresOf(cells[key := Cell(figures, now)])
         == ApplyRevision(FiguresOf(cells), RevisionOf(run, key, At(FiguresOf(cells), key), Some(figures)))
  {
  }

  lemma ChangeLogsCompose(
    first: seq<Revision>, second: seq<Revision>, run: RunId,
    before: FigureTable, mid: FigureTable, after: FigureTable)
    requires IsChangeLog(first, run, before, mid) && IsChangeLog(second, run, mid, after)
    requires forall i, j :: 0 <= i < |first| && 0 <= j < |second| ==> first[i].key != second[j].key
    ensures IsChangeLog(first + second, run, before, after)
  {
    var all := first + second;
    assert forall i :: 0 <= i < |first| ==> At(mid, first[i].key) == At(after, first[i].key);
    assert forall j :: 0 <= j < |second| ==> At(before, second[j].key) == At(mid, second[j].key);
    forall k | At(before, k) != At(after, k)
      ensures exists i :: 0 <= i < |all| && all[i].key == k
    {
      if At(before, k) != At(mid, k) {
        var i :| 0 <= i < |first| && first[i].key == k;
        assert all[i].key == k;
      } else {
        var j :| 0 <= j < |second| && second[j].key == k;
        assert all[|first| + j].key == k;
      }
    }
  }

  // --- The report table and its history ------------------------------------------------

  class ReportStore {
    var cells: ReportTable
    var history: seq<Revision>

    /** Replaying the audit trail from an empty table rebuilds the published figures. */
    ghost predicate Valid()
      reads this
    {
      IsFaithful(history) && Replay(history) == FiguresOf(cells)
    }

    constructor ()
      ensures Valid() && cells == map[] && history == []
    {
      cells, history := map[], [];
    }

    /** The revisions trigger: no row changes without its record. */
    method WriteRow(run: RunId, key: Key, figures: Figures, now: Time)
      requires key in cells ==> cells[key].figures != figures
      modifies this
      ensures cells == old(cells)[key := Cell(figures, now)]
      ensures history == old(history) + [RevisionOf(run, key, At(FiguresOf(old(cells)), key), Some(figures))]
    {
      var before := if key in cells then Some(cells[key].figures) else None;
      cells := cells[key := Cell(figures, now)];
      history := history + [RevisionOf(run, key, before, Some(figures))];
    }

    method DeleteRow(run: RunId, key: Key)
      requires key in cells
      modifies this
      ensures cells == old(cells) - {key}
      ensures history == old(history) + [RevisionOf(run, key, At(FiguresOf(old(cells)), key), None)]
    {
      var before := cells[key].figures;
      cells := cells - {key};
      history := history + [RevisionOf(run, key, Some(before), None)];
    }

    /**
     `_upsert`: inserts new keys, updates changed ones, leaves the rest alone.
     Returns the keys of the rows the statement returns.
     */
    method Upsert(run: RunId, records: seq<Record>, now: Time)
      returns (inserted: set<Key>, updated: set<Key>)
      requires DistinctKeys(records)
      modifies this
      ensures cells == PublishedTable(old(cells), BatchMap(records), [], now)
      ensures inserted == InsertedKeys(old(cells), BatchMap(records))
      ensures updated == UpdatedKeys(old(cells), BatchMap(records))
      ensures Logged(old(history), history, run, FiguresOf(old(cells)), FiguresOf(cells), BatchMap(records).Keys)
    {
      inserted, updated := {}, {};
      assert BatchMap(records[..0]) == map[];
      assert cells == PublishedTable(cells, map[], [], now);
      for i := 0 to |records|
        invariant UpsertDone(old(cells), BatchMap(records[..i]), now, cells, inserted, updated)
        invariant Logged(old(history), history, run, FiguresOf(old(cells)), FiguresOf(cells),
              BatchMap(records[..i]).Keys)
      {
        var key, figures := records[i].key, records[i].figures;
        BatchGrows(records, i);
        UpsertOne(old(cells), BatchMap(records[..i]), key, figures, now, cells, inserted, updated);
        if key !in cells || cells[key].figures != figures {
          LoggedGrows(old(history), history, run, FiguresOf(old(cells)), FiguresOf(cells),
                      BatchMap(records[..i]).Keys, key, Some(figures));
          WriteIsRevision(cells, run, key, figures, now);
          if key in cells {
            updated := updated + {key};
          } else {
            inserted := inserted + {key};
          }
          WriteRow(run, key, figures, now);
          assert BatchMap(records[..i]).Keys + {key} == BatchMap(records[..i + 1]).Keys;
        }
      }
      assert records[..|records|] == records;
    }

    /** `_delete_stale_keys`: the keys of these weeks that the batch no longer contains. */
    method DeleteStaleKeys(run: RunId, batch: FigureTable, weeks: seq<Date>)
      returns (deleted: set<Key>)
      modifies this
      ensures cells == old(cells) - DeletedKeys(old(cells), batch, weeks)
      ensures Logged(old(history), history, run, FiguresOf(old(cells)), FiguresOf(cells), deleted)
      ensures deleted == DeletedKeys(old(cells), batch, weeks)
    {
      var stale := set k | k in cells && k.weekStart in weeks && k !in batch;
      deleted := {};
      while stale != {}
        invariant stale !! deleted && stale + deleted == DeletedKeys(old(cells), batch, weeks)
        invariant cells == old(cells) - deleted
        invariant Logged(old(history), history, run, FiguresOf(old(cells)), FiguresOf(cells), deleted)
        decreases stale
      {
        var key :| key in stale;
        LoggedGrows(old(history), history, run, FiguresOf(old(cells)), FiguresOf(cells), deleted, key, None);
        DeleteRow(run, key);
        deleted, stale := deleted + {key}, stale - {key};
      }
    }
  }

  /** The table and the returned keys after upserting `done`. */
  ghost predicate UpsertDone(
    before: ReportTable, done: FigureTable, now: Time,
    cells: ReportTable, inserted: set<Key>, updated: set<Key>)
  {
    && cells == PublishedTable(before, done, [], now)
    && inserted == InsertedKeys(before, done)
    && updated == UpdatedKeys(before, done)
  }

  lemma BatchGrows(records: seq<Record>, i: nat)
    requires DistinctKeys(records) && i < |records|
    ensures records[i].key !in BatchMap(records[..i])
    ensures BatchMap(records[..i + 1]) == BatchMap(records[..i])[records[i].key := records[i].figures]
  {
    BatchMapKeys(records[..i]);
    assert records[..i + 1][..i] == records[..i];
  }

  /** Upserting one more record is one more step towards the published table. */
  lemma UpsertOne(
    before: ReportTable, done: FigureTable, key: Key, figures: Figures, now: Time,
    cells: ReportTable, inserted: set<Key>, updated: set<Key>)
    requires key !in done && UpsertDone(before, done, now, cells, inserted, updated)
    ensures key !in cells ==>
              UpsertDone(before, done[key := figures], now, cells[key := Cell(figures, now)],
                         inserted + {key}, updated)
    ensures key in cells && cells[key].figures != figures ==>
              UpsertDone(before, done[key := figures], now, cells[key := Cell(figures, now)],
                         inserted, updated + {key})
    ensures key in cells && cells[key].figures == figures ==>
              UpsertDone(before, done[key := figures], now, cells, inserted, updated)
  {
  }

  lemma DeleteCompletesThePublish(cells: ReportTable, batch: FigureTable, weeks: seq<Date>, now: Time)
    ensures var upserted := PublishedTable(cells, batch, [], now);
            && DeletedKeys(upserted, batch, weeks) == DeletedKeys(cells, batch, weeks)
            && upserted - DeletedKeys(cells, batch, weeks) == PublishedTable(cells, batch, weeks, now)
  {
  }

  lemma LogsCompose(
    start: seq<Revision>, middle: seq<Revision>, end: seq<Revision>, run: RunId,
    before: FigureTable, mid: FigureTable, after: FigureTable, first: set<Key>, second: set<Key>)
    requires Logged(start, middle, run, before, mid, first)
    requires Logged(middle, end, run, mid, after, second)
    requires first !! second
    ensures Logged(start, end, run, before, after, first + second)
  {
    var one, two := middle[|start|..], end[|middle|..];
    assert end[|start|..] == one + two;
    ChangeLogsCompose(one, two, run, before, mid, after);
  }

  // --- load_weekly_rows ----------------------------------------------------------------

  lemma GreatestCutoff(t: RunTable, ids: set<RunId>) returns (greatest: RunId)
    requires ids != {} && ids <= t.Keys
    ensures greatest in ids && forall id :: id in ids ==> t[id].cutoff <= t[greatest].cutoff
  {
    greatest := PickOne(ids);
    if ids != {greatest} {
      var rest := GreatestCutoff(t, ids - {greatest});
      greatest := if t[greatest].cutoff < t[rest].cutoff then rest else greatest;
    }
  }

  method NewerCompletedRun(log: RunLogTable, r: LoadRequest) returns (newer: Option<RunId>)
    requires r.weeks != []
    ensures newer.None? <==> !HasLaterRun(log.rows, r)
    ensures newer.Some? ==> IsNewestLaterRun(log.rows, newer.value, r)
  {
    var later := set id | id in log.rows && ReadLaterSnapshot(log.rows, id, r.pipeline, r.run, r.cutoff, r.weeks);
    assert forall id :: ReadLaterSnapshot(log.rows, id, r.pipeline, r.run, r.cutoff, r.weeks) ==> id in later;
    if later == {} {
      return None;
    }
    ghost var greatest := GreatestCutoff(log.rows, later);
    var winner: RunId :| winner in later && forall id :: id in later ==> log.rows[id].cutoff <= log.rows[winner].cutoff;
    newer := Some(winner);
  }

  /** Steps 4 and 5 of the load: the recomputed weeks come to hold exactly the batch. */
  method ReplaceWeeks(report: ReportStore, r: LoadRequest, now: Time)
    returns (inserted: set<Key>, updated: set<Key>, deleted: set<Key>)
    requires report.Valid() && ValidBatch(r.records, r.weeks)
    modifies report
    ensures report.Valid()
    ensures report.cells == PublishedTable(old(report.cells), BatchMap(r.records), r.weeks, now)
    ensures old(report.history) <= report.history
    ensures IsChangeLog(report.history[|old(report.history)|..], r.run,
                        FiguresOf(old(report.cells)), FiguresOf(report.cells))
    ensures inserted == InsertedKeys(old(report.cells), BatchMap(r.records))
    ensures updated == UpdatedKeys(old(report.cells), BatchMap(r.records))
    ensures deleted == DeletedKeys(old(report.cells), BatchMap(r.records), r.weeks)
  {
    ghost var before, start := report.cells, report.history;
    var batch := BatchMap(r.records);
    inserted, updated := report.Upsert(r.run, r.records, now);
    ghost var middle, mid := report.history, FiguresOf(report.cells);
    deleted := report.DeleteStaleKeys(r.run, batch, r.weeks);
    DeleteCompletesThePublish(before, batch, r.weeks, now);
    ghost var after := FiguresOf(report.cells);
    LogsCompose(start, middle, report.history, r.run, FiguresOf(before), mid, after, batch.Keys, deleted);
    HistoryStaysFaithful(start, report.history[|start|..], r.run, FiguresOf(before), after);
    assert report.history == start + report.history[|start|..];
  }

  /** Steps 4 to 6: publish, then mark the run completed; roll back when it is not running. */
  method PublishAndComplete(log: RunLogTable, report: ReportStore, r: LoadRequest, now: Time)
    returns (committed: Option<LoadTally>)
    requires log.Valid() && report.Valid() && ValidBatch(r.records, r.weeks)
    modifies log, report
    ensures log.Valid() && report.Valid()
    ensures committed.None? ==>
              && !(r.run in old(log.rows) && old(log.rows)[r.run].status == Running)
              && log.rows == old(log.rows)
              && report.cells == old(report.cells) && report.history == old(report.history)
    ensures committed.Some? ==>
              && committed.value == TallyOf(old(report.cells), BatchMap(r.records), r.weeks,
                                            PublishedWeeks(old(log.rows), r.pipeline, r.run, r.weeks))
              && CompleteRun(old(log.rows), r.run, now, committed.value, r.eventsRead) == Some(log.rows)
              && report.cells == PublishedTable(old(report.cells), BatchMap(r.records), r.weeks, now)
              && old(report.history) <= report.history
              && IsChangeLog(report.history[|old(report.history)|..], r.run,
                             FiguresOf(old(report.cells)), FiguresOf(report.cells))
  {
    var savedCells, savedHistory := report.cells, report.history;
    var published := PublishedWeeks(log.rows, r.pipeline, r.run, r.weeks);
    var inserted, updated, deleted := ReplaceWeeks(report, r, now);
    var tally := TallyFrom(inserted, updated, deleted, |r.records|, published);
    ValidBatchStaysIn(r.records, r.weeks);
    var done := log.CompleteRunRow(r.run, now, tally, r.eventsRead);
    if !done {
      report.cells, report.history := savedCells, savedHistory;
      return None;
    }
    committed := Some(tally);
  }

  /** The transaction: everything commits with the run marked completed, or nothing does. */
  method LoadOnce(log: RunLogTable, report: ReportStore, r: LoadRequest, now: Time)
    returns (outcome: LoadOutcome)
    requires log.Valid() && report.Valid() && ValidBatch(r.records, r.weeks)
    modifies log, report
    ensures LoadTransaction(
              Database(old(log.rows), old(report.cells), old(report.history)), r, now,
              Database(log.rows, report.cells, report.history), outcome)
    ensures log.Valid() && report.Valid()
  {
    var newer := NewerCompletedRun(log, r);
    if newer.Some? {
      return StaleSnapshot(newer.value);
    }
    var committed := PublishAndComplete(log, report, r, now);
    outcome := if committed.None? then RunNotRunning else Loaded(committed.value);
  }

  datatype LoadResult = LoadCompleted(tally: LoadTally) | LoadSkipped(blockedBy: RunId)

  /** A stale snapshot is recorded on the run's own row, in a transaction of its own. */
  method LoadWeeklyRows(log: RunLogTable, report: ReportStore, r: LoadRequest, now: Time, later: Time)
    returns (result: Result<LoadResult, LoadOutcome>)
    requires log.Valid() && report.Valid() && ValidBatch(r.records, r.weeks)
    modifies log, report
    ensures log.Valid() && report.Valid()
    ensures HasLaterRun(old(log.rows), r) <==> result.Success? && result.value.LoadSkipped?
    ensures result.Failure? <==>
              !HasLaterRun(old(log.rows), r)
              && !(r.run in old(log.rows) && old(log.rows)[r.run].status == Running)
    ensures result.Success? && result.value.LoadSkipped? ==>
              && IsNewestLaterRun(old(log.rows), result.value.blockedBy, r)
              && log.rows == SkipRun(old(log.rows), r.run, result.value.blockedBy, later, "StaleSnapshot", r.eventsRead)
    ensures !(result.Success? && result.value.LoadCompleted?) ==>
              report.cells == old(report.cells) && report.history == old(report.history)
    ensures result.Failure? ==> log.rows == old(log.rows) && result.error == RunNotRunning
    ensures result.Success? && result.value.LoadCompleted? ==>
              LoadTransaction(
                Database(old(log.rows), old(report.cells), old(report.history)), r, now,
                Database(log.rows, report.cells, report.history), Loaded(result.value.tally))
  {
    var outcome := LoadOnce(log, report, r, now);
    match outcome
    case Loaded(tally) =>
      result := Success(LoadCompleted(tally));
    case RunNotRunning =>
      result := Failure(RunNotRunning);
    case StaleSnapshot(newer) =>
      log.SkipRunRow(r.run, newer, later, "StaleSnapshot", r.eventsRead);
      result := Success(LoadSkipped(newer));
  }
}

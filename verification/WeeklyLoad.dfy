/**
 The transactional load (data/pipelines/weekly_warehouse_client_performance/load.py)
 and the revisions trigger (schema.py).

 The report table is a map from its unique key to its figures; the history is
 the append-only sequence the trigger writes.
 */
module WeeklyLoad {
  import opened Common
  import opened Weeks
  import opened RunLog

  datatype Key = Key(warehouse: string, clientId: string, weekStart: Date)

  /** The five published figures. The rate is in ten-thousandths. */
  datatype Figures = Figures(
    inboundUnits: int, outboundOrders: int, stockouts: int, discrepancies: int, rate: int)

  datatype Record = Record(key: Key, figures: Figures)

  datatype Cell = Cell(figures: Figures, computedAt: Time)

  type ReportTable = map<Key, Cell>

  type FigureTable = map<Key, Figures>

  datatype Operation = Insert | Update | Delete

  datatype Revision = Revision(
    run: RunId, operation: Operation, key: Key, before: Option<Figures>, after: Option<Figures>)

  // --- The batch -----------------------------------------------------------------------

  predicate DistinctKeys(records: seq<Record>) {
    forall i, j :: 0 <= i < j < |records| ==> records[i].key != records[j].key
  }

  /** What the validation gate before the load guarantees about the batch. */
  ghost predicate ValidBatch(records: seq<Record>, weeks: seq<Date>) {
    && weeks != []
    && DistinctKeys(records)
    && (forall i :: 0 <= i < |records| ==> records[i].key.weekStart in weeks)
  }

  function BatchMap(records: seq<Record>): FigureTable {
    if records == [] then map[]
    else
      var last := records[|records| - 1];
      BatchMap(records[..|records| - 1])[last.key := last.figures]
  }

  /** Every week of the batch is one of the weeks being published. */
  ghost predicate StaysIn(batch: FigureTable, weeks: seq<Date>) {
    forall k :: k in batch ==> k.weekStart in weeks
  }

  lemma {:induction false} BatchMapKeys(records: seq<Record>)
    ensures BatchMap(records).Keys == set i | 0 <= i < |records| :: records[i].key
  {
    if records != [] {
      var front := records[..|records| - 1];
      BatchMapKeys(front);
    }
  }

  /** A valid batch is a map: one entry per record, with the record's figures. */
  lemma {:induction false} BatchMapHolds(records: seq<Record>)
    requires DistinctKeys(records)
    ensures |BatchMap(records)| == |records|
    ensures forall i :: 0 <= i < |records| ==> records[i].key in BatchMap(records)
    ensures forall i :: 0 <= i < |records| ==> BatchMap(records)[records[i].key] == records[i].figures
  {
    if records != [] {
      var front, last := records[..|records| - 1], records[|records| - 1];
      BatchMapHolds(front);
      NewKeyOfBatch(front, last);
      forall i | 0 <= i < |records|
        ensures records[i].key in BatchMap(records) && BatchMap(records)[records[i].key] == records[i].figures
      {
        if i < |front| {
          assert front[i] == records[i];
        }
      }
    }
  }

  lemma NewKeyOfBatch(front: seq<Record>, last: Record)
    requires forall i :: 0 <= i < |front| ==> front[i].key != last.key
    ensures last.key !in BatchMap(front)
  {
    BatchMapKeys(front);
  }

  lemma ValidBatchStaysIn(records: seq<Record>, weeks: seq<Date>)
    requires ValidBatch(records, weeks)
    ensures StaysIn(BatchMap(records), weeks) && |BatchMap(records)| == |records|
  {
    BatchMapKeys(records);
    BatchMapHolds(records);
  }

  // --- What a committed load leaves ----------------------------------------------------

  function FiguresOf(cells: ReportTable): FigureTable {
    map k | k in cells :: cells[k].figures
  }

  function WeekOf(figures: FigureTable, week: Date): FigureTable {
    map k | k in figures && k.weekStart == week :: figures[k]
  }

  /** A row whose figures did not change keeps its `computed_at`. */
  function PublishedTable(cells: ReportTable, batch: FigureTable, weeks: seq<Date>, now: Time): ReportTable {
    map k | k in cells.Keys + batch.Keys && (k in batch || k.weekStart !in weeks) ::
      if k in batch && !(k in cells && cells[k].figures == batch[k]) then Cell(batch[k], now)
      else cells[k]
  }

  ghost function InsertedKeys(cells: ReportTable, batch: FigureTable): set<Key> {
    set k | k in batch && k !in cells
  }

  ghost function UpdatedKeys(cells: ReportTable, batch: FigureTable): set<Key> {
    set k | k in batch && k in cells && cells[k].figures != batch[k]
  }

  ghost function DeletedKeys(cells: ReportTable, batch: FigureTable, weeks: seq<Date>): set<Key> {
    set k | k in cells && k.weekStart in weeks && k !in batch
  }

  ghost function TouchedKeys(cells: ReportTable, batch: FigureTable, weeks: seq<Date>): set<Key> {
    InsertedKeys(cells, batch) + UpdatedKeys(cells, batch) + DeletedKeys(cells, batch, weeks)
  }

  /** `_newer_completed_run`'s condition on one row. */
  predicate ReadLaterSnapshot(t: RunTable, id: RunId, pipeline: string, run: RunId, cutoff: Time, weeks: seq<Date>)
    requires weeks != []
  {
    && id in t && id != run
    && t[id].pipeline == pipeline
    && t[id].status == Completed
    && t[id].cutoff > cutoff
    && t[id].weeksFrom <= MaxWeek(weeks)
    && t[id].weeksTo >= MinWeek(weeks)
  }

  /** The weeks an earlier completed run already published. */
  function PublishedWeeks(t: RunTable, pipeline: string, run: RunId, weeks: seq<Date>): set<Date> {
    set w | w in weeks
            && exists id :: id in t && id != run && t[id].pipeline == pipeline && Covers(t[id], w)
  }

  /** The counts of a load, from the keys its statements returned. */
  function TallyFrom(
    inserted: set<Key>, updated: set<Key>, deleted: set<Key>, records: int, published: set<Date>): LoadTally
  {
    LoadTally(
      |inserted|, |updated|, records - |inserted + updated|, |deleted|,
      published * set k: Key | k in inserted + updated + deleted :: k.weekStart)
  }

  ghost function TallyOf(
    cells: ReportTable, batch: FigureTable, weeks: seq<Date>, published: set<Date>): LoadTally
  {
    TallyFrom(InsertedKeys(cells, batch), UpdatedKeys(cells, batch), DeletedKeys(cells, batch, weeks),
              |batch|, published)
  }

  // --- The history ---------------------------------------------------------------------

  function ApplyRevision(figures: FigureTable, revision: Revision): FigureTable {
    match revision.after
    case Some(f) => figures[revision.key := f]
    case None => figures - {revision.key}
  }

  function ReplayFrom(figures: FigureTable, history: seq<Revision>): FigureTable {
    if history == [] then figures
    else ApplyRevision(ReplayFrom(figures, history[..|history| - 1]), history[|history| - 1])
  }

  function Replay(history: seq<Revision>): FigureTable {
    ReplayFrom(map[], history)
  }

  function At(figures: FigureTable, key: Key): Option<Figures> {
    if key in figures then Some(figures[key]) else None
  }

  function OperationOf(before: Option<Figures>, after: Option<Figures>): Operation {
    if before.None? then Insert else if after.None? then Delete else Update
  }

  /** The revision the trigger writes when one row goes from `before` to `after`. */
  function RevisionOf(run: RunId, key: Key, before: Option<Figures>, after: Option<Figures>): Revision {
    Revision(run, OperationOf(before, after), key, before, after)
  }

  /** `log` records every difference between two tables, once, and nothing else. */
  ghost predicate IsChangeLog(log: seq<Revision>, run: RunId, before: FigureTable, after: FigureTable) {
    && (forall i, j :: 0 <= i < j < |log| ==> log[i].key != log[j].key)
    && (forall i :: 0 <= i < |log| ==>
          && At(before, log[i].key) != At(after, log[i].key)
          && log[i] == RevisionOf(run, log[i].key, At(before, log[i].key), At(after, log[i].key)))
    && (forall k :: At(before, k) != At(after, k) ==> exists i :: 0 <= i < |log| && log[i].key == k)
  }

  /** The entry at `i` starts from the figures the entries before it leave, and changes them. */
  ghost predicate EntryIsTrue(history: seq<Revision>, i: nat)
    requires i < |history|
  {
    && At(Replay(history[..i]), history[i].key) == history[i].before
    && history[i].before != history[i].after
    && history[i].operation == OperationOf(history[i].before, history[i].after)
  }

  ghost predicate IsFaithful(history: seq<Revision>) {
    forall i :: 0 <= i < |history| ==> EntryIsTrue(history, i)
  }

  lemma {:induction false} ReplayOneKey(figures: FigureTable, log: seq<Revision>, key: Key)
    requires forall i, j :: 0 <= i < j < |log| ==> log[i].key != log[j].key
    ensures (forall i :: 0 <= i < |log| ==> log[i].key != key)
            ==> At(ReplayFrom(figures, log), key) == At(figures, key)
    ensures forall i :: 0 <= i < |log| && log[i].key == key ==>
              At(ReplayFrom(figures, log), key) == log[i].after
  {
    if log != [] {
      var front, last := log[..|log| - 1], log[|log| - 1];
      ReplayOneKey(figures, front, key);
      assert ReplayFrom(figures, log) == ApplyRevision(ReplayFrom(figures, front), last);
      assert forall i :: 0 <= i < |front| ==> front[i] == log[i];
    }
  }

  lemma {:induction false} ReplayAppends(figures: FigureTable, first: seq<Revision>, second: seq<Revision>)
    ensures ReplayFrom(figures, first + second) == ReplayFrom(ReplayFrom(figures, first), second)
  {
    if second == [] {
      assert first + second == first;
    } else {
      var front := second[..|second| - 1];
      ReplayAppends(figures, first, front);
      assert (first + second)[..|first + second| - 1] == first + front;
    }
  }

  lemma SameWhereverLookedUp(a: FigureTable, b: FigureTable)
    requires forall k :: At(a, k) == At(b, k)
    ensures a == b
  {
    forall k
      ensures k in a <==> k in b
    {
      assert At(a, k) == At(b, k);
    }
    forall k | k in a
      ensures a[k] == b[k]
    {
      assert At(a, k) == At(b, k);
    }
  }

  /** Replaying a change log turns the table before into the table after. */
  lemma ChangeLogReplays(log: seq<Revision>, run: RunId, before: FigureTable, after: FigureTable)
    requires IsChangeLog(log, run, before, after)
    ensures ReplayFrom(before, log) == after
  {
    forall k
      ensures At(ReplayFrom(before, log), k) == At(after, k)
    {
      ReplayOneKey(before, log, k);
    }
    SameWhereverLookedUp(ReplayFrom(before, log), after);
  }

  lemma LoggedEntryIsTrue(
    history: seq<Revision>, log: seq<Revision>, run: RunId, before: FigureTable, after: FigureTable, i: nat)
    requires Replay(history) == before && IsChangeLog(log, run, before, after) && i < |log|
    ensures EntryIsTrue(history + log, |history| + i)
  {
    assert (history + log)[..|history| + i] == history + log[..i];
    ReplayAppends(map[], history, log[..i]);
    ReplayOneKey(before, log[..i], log[i].key);
  }

  lemma EarlierEntryStaysTrue(history: seq<Revision>, log: seq<Revision>, i: nat)
    requires i < |history| && EntryIsTrue(history, i)
    ensures EntryIsTrue(history + log, i)
  {
    assert (history + log)[..i] == history[..i];
  }

  /**
   The audit trail stays complete: if replaying it from an empty table gives the
   published figures, it still does after any committed change, and each new
   entry's old values are the figures it replaced.
   */
  lemma HistoryStaysFaithful(
    history: seq<Revision>, log: seq<Revision>, run: RunId, before: FigureTable, after: FigureTable)
    requires IsFaithful(history) && Replay(history) == before
    requires IsChangeLog(log, run, before, after)
    ensures IsFaithful(history + log) && Replay(history + log) == after
  {
    ReplayAppends(map[], history, log);
    ChangeLogReplays(log, run, before, after);
    forall i: nat | i < |history + log|
      ensures EntryIsTrue(history + log, i)
    {
      if i < |history| {
        EarlierEntryStaysTrue(history, log, i);
      } else {
        LoggedEntryIsTrue(history, log, run, before, after, i - |history|);
      }
    }
  }

  // --- What the counts mean ------------------------------------------------------------

  /** The recomputed weeks hold exactly the batch; every other week keeps its rows as they were. */
  lemma LoadReplacesExactlyItsWeeks(
    cells: ReportTable, batch: FigureTable, weeks: seq<Date>, now: Time, week: Date)
    requires StaysIn(batch, weeks)
    ensures var after := PublishedTable(cells, batch, weeks, now);
            && (week in weeks ==> WeekOf(FiguresOf(after), week) == WeekOf(batch, week))
            && (week !in weeks ==>
                  forall k: Key :: k.weekStart == week ==>
                    (k in after <==> k in cells) && (k in cells ==> after[k] == cells[k]))
  {
  }

  lemma UnpublishedWeeksKeepFigures(
    cells: ReportTable, batch: FigureTable, weeks: seq<Date>, now: Time, week: Date)
    requires StaysIn(batch, weeks) && week !in weeks
    ensures WeekOf(FiguresOf(PublishedTable(cells, batch, weeks, now)), week) == WeekOf(FiguresOf(cells), week)
  {
  }

  lemma BatchSplits(cells: ReportTable, batch: FigureTable)
    ensures var same := set k | k in batch && k in cells && cells[k].figures == batch[k];
            |batch| == |InsertedKeys(cells, batch)| + |UpdatedKeys(cells, batch)| + |same|
    ensures |InsertedKeys(cells, batch) + UpdatedKeys(cells, batch)|
         == |InsertedKeys(cells, batch)| + |UpdatedKeys(cells, batch)|
  {
    var inserted, updated := InsertedKeys(cells, batch), UpdatedKeys(cells, batch);
    var same := set k | k in batch && k in cells && cells[k].figures == batch[k];
    assert batch.Keys == inserted + updated + same;
  }

  lemma PublishedKeys(cells: ReportTable, batch: FigureTable, weeks: seq<Date>, now: Time)
    ensures PublishedTable(cells, batch, weeks, now).Keys
         == (cells.Keys - DeletedKeys(cells, batch, weeks)) + InsertedKeys(cells, batch)
  {
  }

  lemma TableGrowth(cells: ReportTable, batch: FigureTable, weeks: seq<Date>, now: Time)
    ensures |PublishedTable(cells, batch, weeks, now)|
         == |cells| + |InsertedKeys(cells, batch)| - |DeletedKeys(cells, batch, weeks)|
  {
    PublishedKeys(cells, batch, weeks, now);
  }

  /** The counts account for every record and for the change in the table's size. */
  lemma TallyAddsUp(
    cells: ReportTable, records: seq<Record>, weeks: seq<Date>, published: set<Date>, now: Time)
    requires ValidBatch(records, weeks)
    ensures var batch := BatchMap(records);
            var tally := TallyOf(cells, batch, weeks, published);
            && tally.rowsInserted + tally.rowsUpdated + tally.rowsUnchanged == |records|
            && tally.rowsInserted - tally.rowsDeleted == |PublishedTable(cells, batch, weeks, now)| - |cells|
            && tally.rowsUnchanged == |set k | k in batch && k in cells && cells[k].figures == batch[k]|
  {
    ValidBatchStaysIn(records, weeks);
    BatchSplits(cells, BatchMap(records));
    TableGrowth(cells, BatchMap(records), weeks, now);
  }

  /** A key is inserted, updated or deleted exactly when its figures change. */
  lemma TouchedMeansChanged(cells: ReportTable, batch: FigureTable, weeks: seq<Date>, now: Time, key: Key)
    requires StaysIn(batch, weeks)
    ensures key in TouchedKeys(cells, batch, weeks) <==>
            At(FiguresOf(cells), key) != At(FiguresOf(PublishedTable(cells, batch, weeks, now)), key)
  {
  }

  /** `weeks_revised` is exactly the already published weeks whose rows changed. */
  lemma RevisedWeeksAreTheChangedOnes(
    cells: ReportTable, batch: FigureTable, weeks: seq<Date>, published: set<Date>, now: Time, week: Date)
    requires StaysIn(batch, weeks)
    ensures var after := FiguresOf(PublishedTable(cells, batch, weeks, now));
            week in TallyOf(cells, batch, weeks, published).weeksRevised <==>
            week in published && WeekOf(after, week) != WeekOf(FiguresOf(cells), week)
  {
    var before := FiguresOf(cells);
    var after := FiguresOf(PublishedTable(cells, batch, weeks, now));
    var touched := TouchedKeys(cells, batch, weeks);
    if k :| k in touched && k.weekStart == week {
      TouchedMeansChanged(cells, batch, weeks, now, k);
      assert At(WeekOf(before, week), k) == At(before, k);
    } else {
      forall k
        ensures At(WeekOf(before, week), k) == At(WeekOf(after, week), k)
      {
        TouchedMeansChanged(cells, batch, weeks, now, k);
      }
      SameWhereverLookedUp(WeekOf(before, week), WeekOf(after, week));
    }
  }

  /** A load of what is already published changes nothing, not even a timestamp. */
  lemma ReloadWritesNothing(
    cells: ReportTable, batch: FigureTable, weeks: seq<Date>, published: set<Date>, first: Time, again: Time)
    requires StaysIn(batch, weeks)
    ensures var once := PublishedTable(cells, batch, weeks, first);
            && PublishedTable(once, batch, weeks, again) == once
            && TallyOf(once, batch, weeks, published) == LoadTally(0, 0, |batch|, 0, {})
  {
    var once := PublishedTable(cells, batch, weeks, first);
    NothingToPublish(once, batch, weeks, published, again);
  }

  lemma NothingToPublish(
    cells: ReportTable, batch: FigureTable, weeks: seq<Date>, published: set<Date>, now: Time)
    requires forall k :: k in batch ==> k in cells && cells[k].figures == batch[k]
    requires forall k :: k in cells && k !in batch ==> k.weekStart !in weeks
    ensures PublishedTable(cells, batch, weeks, now) == cells
    ensures TallyOf(cells, batch, weeks, published) == LoadTally(0, 0, |batch|, 0, {})
  {
    assert InsertedKeys(cells, batch) == {} && UpdatedKeys(cells, batch) == {};
    assert DeletedKeys(cells, batch, weeks) == {};
    var after := PublishedTable(cells, batch, weeks, now);
    PublishedKeys(cells, batch, weeks, now);
    assert forall k :: k in cells ==> after[k] == cells[k];
  }
}

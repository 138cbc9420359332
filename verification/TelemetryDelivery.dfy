/**
 The telemetry queue and the ingest together, over any run: what happens to every
 `track` call, how drops are accounted for, and what the server stores.

 The history of a run (`Log`) is not part of the program: it says what happened so
 that the program's own counts can be compared with it.
 */
module TelemetryDelivery {
  import opened Sequences
  import opened TelemetryIngest
  import opened TelemetryQueue

  /**
   How an item left the queue: sent and acknowledged, handed to the browser as the
   page went away, given up and counted, or taken off in place of another batch.
   */
  datatype Fate = Delivered | Handed | Failed | Lost

  datatype Settled = Settled(item: Item, fate: Fate)

  datatype Refusal = Refusal(call: nat, reason: DropReason)

  /**
   `calls`: how many `track` calls were made. `pushed`: everything ever queued.
   `settled`: everything that left the queue. `refusals`: the calls that queued
   nothing. `cutShort`: some drop report stopped half way for lack of room.
   `overcounted`: some batch given up was counted in full though fewer items left.
   */
  datatype Log = Log(
    calls: nat, pushed: seq<Item>, settled: seq<Settled>, refusals: seq<Refusal>, cutShort: bool, overcounted: bool)

  const NOTHING: Log := Log(0, [], [], [], false, false)

  /** What one attempt at sending the batch did. */
  datatype Attempt = Acknowledged | StoredUnheard | NeverArrived | Unavailable | Refused

  datatype State = State(client: QueueState, log: Log, attempts: seq<Attempt>, table: seq<Row>)

  datatype Step =
    | TrackCall(valid: bool)
    | Timer
    | Send(attempt: Attempt)
    | Resume(result: SendResult)
    | Hide(accepted: nat, arrived: seq<bool>)
    | OtherClient(raws: seq<Raw>)

  /** How an item travels: as the server's validation reads it. Event ids are unique. */
  ghost predicate IsWire(wire: Item -> Raw, ours: string -> bool) {
    && (forall i :: wire(i).Parsed? ==> ours(wire(i).event.eventId))
    && (forall a, b :: wire(a).Parsed? && wire(b).Parsed? && wire(a).event.eventId == wire(b).event.eventId
          ==> a.id == b.id)
  }

  // --- The steps -----------------------------------------------------------------------

  predicate Decided(attempts: seq<Attempt>) {
    attempts != [] && var last := attempts[|attempts| - 1];
    last.Acknowledged? || last.Refused? || |attempts| == MAX_RETRIES + 1
  }

  /** How sending the batch may end after these attempts. */
  predicate CanEnd(attempts: seq<Attempt>, result: SendResult) {
    match result
    case Threw => attempts == []
    case Accepted => Decided(attempts) && attempts[|attempts| - 1].Acknowledged?
    case GivenUp => Decided(attempts) && !attempts[|attempts| - 1].Acknowledged?
  }

  predicate Enabled(ours: string -> bool, s: State, step: Step) {
    match step
    case TrackCall(_) => true
    case Timer => true
    case Send(_) => s.client.flushing && !Decided(s.attempts)
    case Resume(result) => s.client.flushing && CanEnd(s.attempts, result)
    case Hide(_, _) => true
    case OtherClient(raws) => forall raw :: raw in raws && raw.Parsed? ==> !ours(raw.event.eventId)
  }

  function AfterClient(s: QueueState, log: Log, step: Step): QueueState {
    match step
    case TrackCall(valid) => AfterTrack(s, log.calls, valid)
    case Timer => AfterFlushStart(s)
    case Resume(result) => AfterResume(s, result)
    case Hide(accepted, _) => AfterHide(s, accepted)
    case _ => s
  }

  function Settle(items: seq<Item>, fate: Fate): seq<Settled> {
    MapSeq(items, i => Settled(i, fate))
  }

  function Reported(log: Log, s: QueueState): Log {
    log.(pushed := log.pushed + ReportsOf(s.dropped, s.issued)[..Smaller(|s.dropped|, Room(s.queue))],
         cutShort := log.cutShort || IsCutShort(s))
  }

  /** The items the beacons take off the queue. */
  function HandedBy(s: QueueState, accepted: nat): seq<Item> {
    var queue := AfterReport(s).queue;
    queue[..|queue| - |AfterBeacons(queue, accepted)|]
  }

  /** The items `queue.splice(0, batch.length)` takes off. */
  function Removed(s: QueueState): seq<Item> {
    s.queue[..Smaller(|s.batch|, |s.queue|)]
  }

  /** The batch in flight is no longer the front of the queue: a beacon took it meanwhile. */
  predicate IsDisplaced(s: QueueState) {
    s.flushing && !(s.batch <= s.queue)
  }

  function FateOfRemoved(s: QueueState, result: SendResult): Fate {
    if result.GivenUp? then Failed else if IsDisplaced(s) then Lost else Delivered
  }

  function SettledLog(s: QueueState, log: Log, result: SendResult): Log {
    log.(settled := log.settled + Settle(Removed(s), FateOfRemoved(s, result)),
         overcounted := log.overcounted || (result.GivenUp? && |s.queue| < |s.batch|))
  }

  function AfterSettling(s: QueueState, log: Log, result: SendResult): Log {
    var rest := s.(queue := Spliced(s.queue, |s.batch|));
    match result
    case Threw => Reported(log, s)
    case Accepted =>
      var sent := SettledLog(s, log, result);
      if rest.queue == [] then Reported(sent, rest) else sent
    case GivenUp =>
      Reported(SettledLog(s, log, result), rest.(dropped := Recorded(s.dropped, TransportFailed, |s.batch|)))
  }

  function AfterLog(s: QueueState, log: Log, step: Step): Log {
    match step
    case TrackCall(valid) =>
      var called := log.(calls := log.calls + 1);
      if !valid then called.(refusals := log.refusals + [Refusal(log.calls, SchemaRejected)])
      else if |s.queue| >= MAX_QUEUE_SIZE then called.(refusals := log.refusals + [Refusal(log.calls, BufferFull)])
      else called.(pushed := log.pushed + [Tracked(s.issued, log.calls)])
    case Timer => if !s.flushing && s.queue == [] then Reported(log, s) else log
    case Resume(result) => AfterSettling(s, log, result)
    case Hide(accepted, _) =>
      if s.queue == [] then log
      else Reported(log, s).(settled := log.settled + Settle(HandedBy(s, accepted), Handed))
    case _ => log
  }

  function AfterOneBeacon(wire: Item -> Raw, table: seq<Row>, queue: seq<Item>, arrived: bool): seq<Row> {
    if arrived then Ingested(table, MapSeq(FirstOf(queue), wire)) else table
  }

  /** What the beacons that did arrive store. */
  function AfterBeaconBatches(
    wire: Item -> Raw, table: seq<Row>, queue: seq<Item>, accepted: nat, arrived: seq<bool>): seq<Row>
    decreases accepted
  {
    if queue == [] || accepted == 0 || arrived == [] then table
    else
      AfterBeaconBatches(wire, AfterOneBeacon(wire, table, queue, arrived[0]), Spliced(queue, MAX_BATCH_SIZE),
                         accepted - 1, arrived[1..])
  }

  function AfterTable(wire: Item -> Raw, s: State, step: Step): seq<Row> {
    match step
    case Send(attempt) =>
      if attempt.Acknowledged? || attempt.StoredUnheard?
      then Ingested(s.table, MapSeq(s.client.batch, wire))
      else s.table
    case Hide(accepted, arrived) =>
      if s.client.queue == [] then s.table
      else AfterBeaconBatches(wire, s.table, AfterReport(s.client).queue, accepted, arrived)
    case OtherClient(raws) => Ingested(s.table, raws)
    case _ => s.table
  }

  function After(wire: Item -> Raw, s: State, step: Step): State {
    State(
      AfterClient(s.client, s.log, step),
      AfterLog(s.client, s.log, step),
      match step { case Send(attempt) => s.attempts + [attempt] case Resume(_) => [] case _ => s.attempts },
      AfterTable(wire, s, step))
  }

  ghost predicate Initial(s: State) {
    s.client == EMPTY && s.log == NOTHING && s.attempts == [] && s.table == []
  }

  /** A run: calls, timers, sends, answers and hides in any order. */
  ghost predicate IsBehaviour(wire: Item -> Raw, ours: string -> bool, states: seq<State>, steps: seq<Step>) {
    && |states| == |steps| + 1
    && Initial(states[0])
    && forall i :: 0 <= i < |steps|
          ==> Enabled(ours, states[i], steps[i]) && states[i + 1] == After(wire, states[i], steps[i])
  }

  // --- The queue's invariant -----------------------------------------------------------

  function ItemOf(s: Settled): Item { s.item }

  /** The queue is bounded, and a flush holds a batch of at most `MAX_BATCH_SIZE`. */
  predicate QueueIsSound(s: QueueState) {
    && |s.queue| <= MAX_QUEUE_SIZE && |s.batch| <= MAX_BATCH_SIZE
    && (s.flushing <==> s.batch != [])
  }

  predicate IsSettled(log: Log, i: Item) {
    i in MapSeq(log.settled, ItemOf)
  }

  /** The batch in flight is the front of the queue, or all of it has left the queue. */
  predicate BatchIsSound(s: QueueState, log: Log) {
    && (s.batch <= s.queue || forall i :: i in s.batch ==> IsSettled(log, i))
    && IdsAllDiffer(s.batch)
  }

  /** Everything pushed is settled or still queued, in order. */
  predicate IsFifo(s: QueueState, log: Log) {
    MapSeq(log.settled, ItemOf) + s.queue == log.pushed
  }

  lemma BeaconsKeepASuffix(queue: seq<Item>, accepted: nat)
    ensures AfterBeacons(queue, accepted) == queue[|queue| - |AfterBeacons(queue, accepted)|..]
  {
  }

  lemma StepKeepsQueueSound(s: QueueState, log: Log, step: Step)
    requires QueueIsSound(s) && (step.Resume? ==> s.flushing)
    ensures QueueIsSound(AfterClient(s, log, step))
  {
    match step
    case Hide(accepted, _) =>
      BeaconsKeepASuffix(AfterReport(s).queue, accepted);
    case _ =>
  }

  /** Reporting drops appends to the queue and to the log alike. */
  lemma ReportKeepsFifo(s: QueueState, log: Log)
    requires IsFifo(s, log)
    ensures IsFifo(AfterReport(s), Reported(log, s))
  {
    var reports := ReportsOf(s.dropped, s.issued)[..Smaller(|s.dropped|, Room(s.queue))];
    assert MapSeq(log.settled, ItemOf) + (s.queue + reports) == log.pushed + reports;
  }

  /** The front of the queue leaves it. */
  lemma SettlingKeepsFifo(s: QueueState, log: Log, gone: seq<Item>, rest: seq<Item>, fate: Fate)
    requires IsFifo(s, log) && s.queue == gone + rest
    ensures IsFifo(s.(queue := rest), log.(settled := log.settled + Settle(gone, fate)))
  {
    MapAppends(log.settled, Settle(gone, fate), ItemOf);
  }

  lemma ResumeKeepsFifo(s: QueueState, log: Log, result: SendResult)
    requires IsFifo(s, log) && s.flushing
    ensures IsFifo(AfterResume(s, result), AfterLog(s, log, Resume(result)))
  {
    var idle := s.(flushing := false, batch := []);
    var rest := Spliced(s.queue, |s.batch|);
    assert s.queue == Removed(s) + rest;
    SettlingKeepsFifo(s, log, Removed(s), rest, FateOfRemoved(s, result));
    match result
    case Threw => ReportKeepsFifo(idle, log);
    case Accepted =>
      if rest == [] {
        ReportKeepsFifo(idle.(queue := rest), SettledLog(s, log, result));
      }
    case GivenUp =>
      ReportKeepsFifo(idle.(queue := rest, dropped := Recorded(s.dropped, TransportFailed, |s.batch|)),
                      SettledLog(s, log, result));
  }

  lemma HideKeepsFifo(s: QueueState, log: Log, accepted: nat)
    requires IsFifo(s, log) && s.queue != []
    ensures IsFifo(AfterHide(s, accepted),
                   Reported(log, s).(settled := log.settled + Settle(HandedBy(s, accepted), Handed)))
  {
    var t := AfterReport(s);
    ReportKeepsFifo(s, log);
    BeaconsKeepASuffix(t.queue, accepted);
    SettlingKeepsFifo(t, Reported(log, s), HandedBy(s, accepted), AfterBeacons(t.queue, accepted), Handed);
  }

  lemma StepKeepsFifo(s: QueueState, log: Log, step: Step)
    requires IsFifo(s, log) && (step.Resume? ==> s.flushing)
    ensures IsFifo(AfterClient(s, log, step), AfterLog(s, log, step))
  {
    match step
    case Resume(result) => ResumeKeepsFifo(s, log, result);
    case Hide(accepted, _) =>
      if s.queue != [] {
        HideKeepsFifo(s, log, accepted);
      }
    case Timer =>
      if !s.flushing && s.queue == [] {
        ReportKeepsFifo(s.(flushing := false, batch := []), log);
      }
    case TrackCall(valid) =>
      if valid && |s.queue| < MAX_QUEUE_SIZE {
        var item := [Tracked(s.issued, log.calls)];
        assert MapSeq(log.settled, ItemOf) + (s.queue + item) == log.pushed + item;
      }
    case _ =>
  }

  // --- Every call has one place --------------------------------------------------------

  predicate IsCall(i: Item, call: nat) { i.Tracked? && i.call == call }

  predicate IsPushed(log: Log, call: nat) {
    exists i :: 0 <= i < |log.pushed| && IsCall(log.pushed[i], call)
  }

  predicate IsRefused(log: Log, call: nat) {
    exists i :: 0 <= i < |log.refusals| && log.refusals[i].call == call
  }

  ghost predicate CallsHaveOnePlace(log: Log) {
    && (forall call: nat :: IsPushed(log, call) || IsRefused(log, call) <==> call < log.calls)
    && (forall call: nat :: !(IsPushed(log, call) && IsRefused(log, call)))
    && (forall i, j :: 0 <= i < j < |log.refusals| ==> log.refusals[i].call != log.refusals[j].call)
    && (forall i, j :: 0 <= i < j < |log.pushed| && log.pushed[i].Tracked? && log.pushed[j].Tracked?
          ==> log.pushed[i].call != log.pushed[j].call)
  }

  predicate IdsAllDiffer(items: seq<Item>) {
    forall i, j :: 0 <= i < j < |items| ==> items[i].id != items[j].id
  }

  predicate AreAllIn(items: seq<Item>, pushed: seq<Item>) {
    forall i :: i in items ==> i in pushed
  }

  predicate IdsDiffer(pushed: seq<Item>, issued: nat) {
    && (forall i :: 0 <= i < |pushed| ==> pushed[i].id < issued)
    && IdsAllDiffer(pushed)
  }

  lemma ReportsKeepPlaces(log: Log, reports: seq<Item>, cutShort: bool)
    requires CallsHaveOnePlace(log) && forall i :: 0 <= i < |reports| ==> reports[i].DropReport?
    ensures CallsHaveOnePlace(log.(pushed := log.pushed + reports, cutShort := cutShort))
  {
    var after := log.(pushed := log.pushed + reports, cutShort := cutShort);
    forall call: nat
      ensures IsPushed(after, call) <==> IsPushed(log, call)
      ensures IsRefused(after, call) <==> IsRefused(log, call)
    {
      if IsPushed(log, call) {
        var i :| 0 <= i < |log.pushed| && IsCall(log.pushed[i], call);
        assert IsCall(after.pushed[i], call);
      }
    }
  }

  lemma PushKeepsPlaces(log: Log, id: nat)
    requires CallsHaveOnePlace(log)
    ensures CallsHaveOnePlace(log.(calls := log.calls + 1, pushed := log.pushed + [Tracked(id, log.calls)]))
  {
    var after := log.(calls := log.calls + 1, pushed := log.pushed + [Tracked(id, log.calls)]);
    assert !IsPushed(log, log.calls) && !IsRefused(log, log.calls);
    assert IsCall(after.pushed[|log.pushed|], log.calls);
    forall call: nat
      ensures IsPushed(after, call) <==> IsPushed(log, call) || call == log.calls
      ensures IsRefused(after, call) <==> IsRefused(log, call)
    {
      if IsPushed(log, call) {
        var i :| 0 <= i < |log.pushed| && IsCall(log.pushed[i], call);
        assert IsCall(after.pushed[i], call);
      }
    }
  }

  lemma RefusalKeepsPlaces(log: Log, reason: DropReason)
    requires CallsHaveOnePlace(log)
    ensures CallsHaveOnePlace(log.(calls := log.calls + 1, refusals := log.refusals + [Refusal(log.calls, reason)]))
  {
    var after := log.(calls := log.calls + 1, refusals := log.refusals + [Refusal(log.calls, reason)]);
    assert after.refusals[|log.refusals|].call == log.calls;
    forall call: nat
      ensures IsRefused(after, call) <==> IsRefused(log, call) || call == log.calls
      ensures IsPushed(after, call) <==> IsPushed(log, call)
    {
      if IsRefused(log, call) {
        var i :| 0 <= i < |log.refusals| && log.refusals[i].call == call;
        assert after.refusals[i].call == call;
      }
    }
    forall i | 0 <= i < |log.refusals|
      ensures log.refusals[i].call != log.calls
    {
      assert IsRefused(log, log.refusals[i].call);
    }
  }

  lemma SettlingKeepsPlaces(log: Log, after: Log)
    requires CallsHaveOnePlace(log)
    requires after == log.(settled := after.settled, overcounted := after.overcounted)
    ensures CallsHaveOnePlace(after)
  {
    assert forall call: nat ::
        (IsPushed(after, call) == IsPushed(log, call) && IsRefused(after, call) == IsRefused(log, call));
  }

  lemma StepKeepsPlaces(s: QueueState, log: Log, step: Step)
    requires CallsHaveOnePlace(log)
    ensures CallsHaveOnePlace(AfterLog(s, log, step))
  {
    match step
    case TrackCall(valid) =>
      if !valid {
        RefusalKeepsPlaces(log, SchemaRejected);
      } else if |s.queue| >= MAX_QUEUE_SIZE {
        RefusalKeepsPlaces(log, BufferFull);
      } else {
        PushKeepsPlaces(log, s.issued);
      }
    case Timer =>
      ReportStepKeepsPlaces(s, log);
    case Resume(result) =>
      var rest := s.(queue := Spliced(s.queue, |s.batch|));
      var settled := SettledLog(s, log, result);
      SettlingKeepsPlaces(log, settled);
      ReportStepKeepsPlaces(s, log);
      ReportStepKeepsPlaces(rest, settled);
      ReportStepKeepsPlaces(rest.(dropped := Recorded(s.dropped, TransportFailed, |s.batch|)), settled);
    case Hide(accepted, _) =>
      ReportStepKeepsPlaces(s, log);
      if s.queue != [] {
        SettlingKeepsPlaces(Reported(log, s), AfterLog(s, log, step));
      }
    case _ =>
  }

  lemma ReportStepKeepsPlaces(s: QueueState, log: Log)
    requires CallsHaveOnePlace(log)
    ensures CallsHaveOnePlace(Reported(log, s))
  {
    ReportsKeepPlaces(log, ReportsOf(s.dropped, s.issued)[..Smaller(|s.dropped|, Room(s.queue))],
          Reported(log, s).cutShort);
  }

  lemma ReportKeepsIds(s: QueueState, log: Log)
    requires IdsDiffer(log.pushed, s.issued)
    ensures IdsDiffer(Reported(log, s).pushed, AfterReport(s).issued)
  {
  }

  lemma StepKeepsIds(s: QueueState, log: Log, step: Step)
    requires IdsDiffer(log.pushed, s.issued) && QueueIsSound(s) && (step.Resume? ==> s.flushing)
    ensures IdsDiffer(AfterLog(s, log, step).pushed, AfterClient(s, log, step).issued)
  {
    match step
    case TrackCall(valid) =>
    case Timer => ReportKeepsIds(s.(flushing := false, batch := []), log);
    case Resume(result) =>
      var idle := s.(flushing := false, batch := []);
      var rest := Spliced(s.queue, |s.batch|);
      ReportKeepsIds(idle, log);
      ReportKeepsIds(idle.(queue := rest), log);
      ReportKeepsIds(idle.(queue := rest, dropped := Recorded(s.dropped, TransportFailed, |s.batch|)), log);
    case Hide(accepted, _) => ReportKeepsIds(s, log);
    case _ =>
  }

  // --- Drop accounting -----------------------------------------------------------------

  function RefusedFor(reason: DropReason): Refusal -> int {
    (r: Refusal) => if r.reason == reason then 1 else 0
  }

  function LostFor(reason: DropReason): Settled -> int {
    (s: Settled) => if s.fate.Failed? && reason.TransportFailed? then 1 else 0
  }

  function ReportedFor(reason: DropReason): Item -> int {
    (i: Item) => if i.DropReport? && i.reason == reason then i.count else 0
  }

  function PendingFor(reason: DropReason): Tally -> int {
    (t: Tally) => if t.reason == reason then t.count else 0
  }

  /** Events that were really dropped for a reason, from the history. */
  function Dropped(log: Log, reason: DropReason): int {
    SumOf(log.refusals, RefusedFor(reason)) + SumOf(log.settled, LostFor(reason))
  }

  /** Drops the program has announced, or still holds to announce. */
  function Announced(s: QueueState, log: Log, reason: DropReason): int {
    SumOf(log.pushed, ReportedFor(reason)) + SumOf(s.dropped, PendingFor(reason))
  }

  function Excess(s: QueueState, log: Log, reason: DropReason): int {
    Announced(s, log, reason) - Dropped(log, reason)
  }

  lemma {:induction false} RecordedAdds(dropped: seq<Tally>, reason: DropReason, count: nat, r: DropReason)
    ensures SumOf(Recorded(dropped, reason, count), PendingFor(r))
         == SumOf(dropped, PendingFor(r)) + if r == reason then count else 0
    ensures count > 0 && (forall t :: t in dropped ==> t.count > 0) ==>
              forall t :: t in Recorded(dropped, reason, count) ==> t.count > 0
  {
    if dropped == [] {
      assert Recorded(dropped, reason, count)[1..] == [];
    } else {
      if dropped[0].reason == reason {
        assert Recorded(dropped, reason, count)[1..] == dropped[1..];
      } else {
        RecordedAdds(dropped[1..], reason, count, r);
      }
    }
  }

  lemma {:induction false} ReportsCarryTheCounts(dropped: seq<Tally>, issued: nat, n: nat, r: DropReason)
    requires n <= |dropped|
    ensures SumOf(ReportsOf(dropped, issued)[..n], ReportedFor(r)) == SumOf(dropped[..n], PendingFor(r))
  {
    var reports := ReportsOf(dropped, issued);
    if n > 0 {
      ReportsCarryTheCounts(dropped, issued, n - 1, r);
      assert reports[..n] == reports[..n - 1] + [reports[n - 1]];
      assert dropped[..n] == dropped[..n - 1] + [dropped[n - 1]];
      SumAppends(reports[..n - 1], [reports[n - 1]], ReportedFor(r));
      SumAppends(dropped[..n - 1], [dropped[n - 1]], PendingFor(r));
    }
  }

  /** A report adds to the announced drops only when it is cut short after starting. */
  lemma ReportExcess(s: QueueState, log: Log, r: DropReason)
    ensures Excess(AfterReport(s), Reported(log, s), r)
         == Excess(s, log, r) + if IsCutShort(s) then SumOf(s.dropped[..Room(s.queue)], PendingFor(r)) else 0
  {
    var n := Smaller(|s.dropped|, Room(s.queue));
    var reports := ReportsOf(s.dropped, s.issued)[..n];
    ReportsCarryTheCounts(s.dropped, s.issued, n, r);
    SumAppends(log.pushed, reports, ReportedFor(r));
    if n == |s.dropped| {
      assert s.dropped[..n] == s.dropped;
    }
  }

  /** The program never announces fewer drops than it made, and more only after a cut or an overcount. */
  ghost predicate AccountsHold(s: QueueState, log: Log) {
    && (forall t :: t in s.dropped ==> t.count > 0)
    && (forall r :: Excess(s, log, r) >= 0)
    && (log.cutShort || log.overcounted <==> exists r :: Excess(s, log, r) > 0)
  }

  lemma ReportKeepsAccounts(s: QueueState, log: Log)
    requires AccountsHold(s, log)
    ensures AccountsHold(AfterReport(s), Reported(log, s))
  {
    forall r
      ensures Excess(AfterReport(s), Reported(log, s), r) >= Excess(s, log, r)
      ensures !IsCutShort(s) ==> Excess(AfterReport(s), Reported(log, s), r) == Excess(s, log, r)
    {
      ReportExcess(s, log, r);
      if IsCutShort(s) {
        var part := s.dropped[..Room(s.queue)];
        SumNonNegative(part, PendingFor(r));
      }
    }
    if IsCutShort(s) {
      var first, part := s.dropped[0].reason, s.dropped[..Room(s.queue)];
      ReportExcess(s, log, first);
      SumNonNegative(part, PendingFor(first));
    } else if log.cutShort || log.overcounted {
      var r :| Excess(s, log, r) > 0;
    }
  }

  /** Steps that leave every reason's excess alone keep the accounts. */
  lemma SameExcessKeepsAccounts(s: QueueState, log: Log, t: QueueState, after: Log)
    requires AccountsHold(s, log) && after.cutShort == log.cutShort && after.overcounted == log.overcounted
    requires forall tally :: tally in t.dropped ==> tally.count > 0
    requires forall r :: Excess(t, after, r) == Excess(s, log, r)
    ensures AccountsHold(t, after)
  {
  }

  lemma RefusalKeepsAccounts(s: QueueState, log: Log, reason: DropReason)
    requires AccountsHold(s, log) && !reason.TransportFailed?
    ensures AccountsHold(s.(dropped := Recorded(s.dropped, reason, 1)),
                         log.(calls := log.calls + 1, refusals := log.refusals + [Refusal(log.calls, reason)]))
  {
    var t := s.(dropped := Recorded(s.dropped, reason, 1));
    var after := log.(calls := log.calls + 1, refusals := log.refusals + [Refusal(log.calls, reason)]);
    RecordedAdds(s.dropped, reason, 1, reason);
    forall r
      ensures Excess(t, after, r) == Excess(s, log, r)
    {
      RecordedAdds(s.dropped, reason, 1, r);
      SumAppends(log.refusals, [Refusal(log.calls, reason)], RefusedFor(r));
    }
  }

  lemma PushKeepsAccounts(s: QueueState, log: Log, t: QueueState)
    requires AccountsHold(s, log) && t.dropped == s.dropped
    ensures AccountsHold(t, log.(calls := log.calls + 1, pushed := log.pushed + [Tracked(s.issued, log.calls)]))
  {
    var item := Tracked(s.issued, log.calls);
    var after := log.(calls := log.calls + 1, pushed := log.pushed + [item]);
    forall r
      ensures Excess(t, after, r) == Excess(s, log, r)
    {
      SumAppends(log.pushed, [item], ReportedFor(r));
    }
  }

  lemma {:induction false} SettledLosses(items: seq<Item>, fate: Fate, r: DropReason)
    ensures SumOf(Settle(items, fate), LostFor(r)) == if fate.Failed? && r.TransportFailed? then |items| else 0
  {
    if items != [] {
      SettledLosses(items[1..], fate, r);
    }
  }

  lemma SettlingKeepsAccounts(s: QueueState, log: Log, t: QueueState, gone: seq<Item>, fate: Fate)
    requires AccountsHold(s, log) && t.dropped == s.dropped && !fate.Failed?
    ensures AccountsHold(t, log.(settled := log.settled + Settle(gone, fate)))
  {
    var after := log.(settled := log.settled + Settle(gone, fate));
    forall r
      ensures Excess(t, after, r) == Excess(s, log, r)
    {
      SettledLosses(gone, fate, r);
      SumAppends(log.settled, Settle(gone, fate), LostFor(r));
    }
    SameExcessKeepsAccounts(s, log, t, after);
  }

  /** Giving a batch up counts it in full, which is too much when fewer items leave the queue. */
  lemma GiveUpExcess(s: QueueState, log: Log, t: QueueState, r: DropReason)
    requires t.dropped == Recorded(s.dropped, TransportFailed, |s.batch|)
    ensures Excess(t, SettledLog(s, log, GivenUp), r)
         == Excess(s, log, r) + if r.TransportFailed? then |s.batch| - |Removed(s)| else 0
  {
    RecordedAdds(s.dropped, TransportFailed, |s.batch|, r);
    SettledLosses(Removed(s), Failed, r);
    SumAppends(log.settled, Settle(Removed(s), Failed), LostFor(r));
  }

  lemma GiveUpKeepsAccounts(s: QueueState, log: Log, t: QueueState)
    requires AccountsHold(s, log) && s.batch != []
    requires t.dropped == Recorded(s.dropped, TransportFailed, |s.batch|)
    ensures AccountsHold(t, SettledLog(s, log, GivenUp))
  {
    var after := SettledLog(s, log, GivenUp);
    RecordedAdds(s.dropped, TransportFailed, |s.batch|, TransportFailed);
    forall r
      ensures Excess(t, after, r) >= Excess(s, log, r)
      ensures Excess(t, after, r) > Excess(s, log, r) <==> r.TransportFailed? && |s.queue| < |s.batch|
    {
      GiveUpExcess(s, log, t, r);
    }
    if log.cutShort || log.overcounted {
      var r :| Excess(s, log, r) > 0;
      assert Excess(t, after, r) > 0;
    } else if after.overcounted {
      assert Excess(t, after, TransportFailed) > 0;
    }
  }

  lemma DeliveryKeepsAccounts(s: QueueState, log: Log)
    requires AccountsHold(s, log)
    ensures AccountsHold(AfterResume(s, SendResult.Accepted), AfterLog(s, log, Resume(SendResult.Accepted)))
  {
    var rest := Spliced(s.queue, |s.batch|);
    var fate := FateOfRemoved(s, SendResult.Accepted);
    if rest == [] {
      var t := s.(flushing := false, batch := [], queue := rest);
      SettlingKeepsAccounts(s, log, t, Removed(s), fate);
      ReportKeepsAccounts(t, log.(settled := log.settled + Settle(Removed(s), fate)));
    } else {
      SettlingKeepsAccounts(s, log, s.(queue := rest, batch := FirstOf(rest)), Removed(s), fate);
    }
  }

  lemma ResumeKeepsAccounts(s: QueueState, log: Log, result: SendResult)
    requires AccountsHold(s, log) && s.batch != []
    ensures AccountsHold(AfterResume(s, result), AfterLog(s, log, Resume(result)))
  {
    var idle := s.(flushing := false, batch := []);
    match result
    case Threw =>
      SameExcessKeepsAccounts(s, log, idle, log);
      ReportKeepsAccounts(idle, log);
    case Accepted => DeliveryKeepsAccounts(s, log);
    case GivenUp =>
      var t := idle.(queue := Spliced(s.queue, |s.batch|), dropped := Recorded(s.dropped, TransportFailed, |s.batch|));
      GiveUpKeepsAccounts(s, log, t);
      ReportKeepsAccounts(t, SettledLog(s, log, GivenUp));
  }

  lemma StepKeepsAccounts(s: QueueState, log: Log, step: Step)
    requires AccountsHold(s, log) && QueueIsSound(s) && (step.Resume? ==> s.flushing)
    ensures AccountsHold(AfterClient(s, log, step), AfterLog(s, log, step))
  {
    match step
    case TrackCall(valid) =>
      if !valid {
        RefusalKeepsAccounts(s, log, SchemaRejected);
      } else if |s.queue| >= MAX_QUEUE_SIZE {
        RefusalKeepsAccounts(s, log, BufferFull);
      } else {
        PushKeepsAccounts(s, log, AfterTrack(s, log.calls, valid));
      }
    case Timer =>
      SameExcessKeepsAccounts(s, log, AfterFlushStart(s).(dropped := s.dropped), log);
      if !s.flushing && s.queue == [] {
        ReportKeepsAccounts(s.(flushing := false, batch := []), log);
      }
    case Resume(result) => ResumeKeepsAccounts(s, log, result);
    case Hide(accepted, _) =>
      if s.queue != [] {
        var t := AfterReport(s);
        ReportKeepsAccounts(s, log);
        SettlingKeepsAccounts(t, Reported(log, s), AfterHide(s, accepted), HandedBy(s, accepted), Handed);
      }
    case _ =>
  }

  // --- What the server stores ----------------------------------------------------------

  predicate IsRowOf(wire: Item -> Raw, i: Item, row: Row) {
    IsStorable(wire(i)) && row == ToRow(wire(i).event)
  }

  /** Every row with one of this client's ids is the row of an item it queued, and ids are unique. */
  ghost predicate TableIsSound(wire: Item -> Raw, ours: string -> bool, pushed: seq<Item>, table: seq<Row>) {
    && UniqueIds(table)
    && forall r :: r in table && ours(r.id) ==> exists i :: i in pushed && IsRowOf(wire, i, r)
  }

  predicate AreStored(wire: Item -> Raw, items: seq<Item>, table: seq<Row>) {
    forall i :: i in items && IsStorable(wire(i)) ==> ToRow(wire(i).event) in table
  }

  predicate HasReached(attempts: seq<Attempt>) {
    exists k :: 0 <= k < |attempts| && (attempts[k].Acknowledged? || attempts[k].StoredUnheard?)
  }

  predicate DeliveredAreStored(wire: Item -> Raw, settled: seq<Settled>, table: seq<Row>) {
    forall s :: s in settled && s.fate.Delivered? ==> AreStored(wire, [s.item], table)
  }

  predicate AttemptsAreSound(wire: Item -> Raw, s: QueueState, attempts: seq<Attempt>, table: seq<Row>) {
    && (!s.flushing ==> attempts == [])
    && (HasReached(attempts) ==> AreStored(wire, s.batch, table))
  }

  lemma BatchEventsAreAccepted(wire: Item -> Raw, ours: string -> bool, items: seq<Item>, at: nat)
    requires IsWire(wire, ours) && at < |items| && IsStorable(wire(items[at]))
    requires IdsAllDiffer(items)
    ensures wire(items[at]).event in AcceptedEvents(MapSeq(items, wire))
  {
    var raws := MapSeq(items, wire);
    AcceptedIff(raws, wire(items[at]).event);
    assert IsItsEvent(raws, at, wire(items[at]).event) by {
      forall j | 0 <= j < at && IsStorable(raws[j])
        ensures raws[j].event.eventId != raws[at].event.eventId
      {
        assert items[j].id != items[at].id;
      }
    }
  }

  lemma AcceptedComeFromItems(wire: Item -> Raw, items: seq<Item>, e: TelemetryEvent)
    requires e in AcceptedEvents(MapSeq(items, wire))
    ensures exists i :: i in items && IsRowOf(wire, i, ToRow(e))
  {
    var raws := MapSeq(items, wire);
    AcceptedIff(raws, e);
    var k: nat :| IsItsEvent(raws, k, e);
    assert items[k] in items && IsRowOf(wire, items[k], ToRow(e));
  }

  lemma SameIdSameItem(pushed: seq<Item>, a: Item, b: Item)
    requires IdsAllDiffer(pushed)
    requires a in pushed && b in pushed && a.id == b.id
    ensures a == b
  {
    var i :| 0 <= i < |pushed| && pushed[i] == a;
    var j :| 0 <= j < |pushed| && pushed[j] == b;
  }

  /** A batch that reaches the server stores each of its valid items, exactly once, however often it is sent. */
  lemma IngestStoresTheBatch(
    wire: Item -> Raw, ours: string -> bool, pushed: seq<Item>, items: seq<Item>, table: seq<Row>)
    requires IsWire(wire, ours) && TableIsSound(wire, ours, pushed, table)
    requires IdsAllDiffer(pushed) && IdsAllDiffer(items) && AreAllIn(items, pushed)
    ensures var after := Ingested(table, MapSeq(items, wire));
            table <= after && TableIsSound(wire, ours, pushed, after) && AreStored(wire, items, after)
  {
    var events := AcceptedEvents(MapSeq(items, wire));
    var after := Stored(table, events);
    StoredHolds(table, events);
    forall r | r in after && ours(r.id)
      ensures exists i :: i in pushed && IsRowOf(wire, i, r)
    {
      if r !in table {
        var e :| e in events && r == ToRow(e);
        AcceptedComeFromItems(wire, items, e);
      }
    }
    forall i | i in items && IsStorable(wire(i))
      ensures ToRow(wire(i).event) in after
    {
      var at :| 0 <= at < |items| && items[at] == i;
      BatchEventsAreAccepted(wire, ours, items, at);
      var k :| 0 <= k < |after| && after[k].id == wire(i).event.eventId;
      assert after[k] in after && ours(after[k].id);
      var o :| o in pushed && IsRowOf(wire, o, after[k]);
      SameIdSameItem(pushed, o, i);
    }
  }

  lemma OthersKeepTableSound(
    wire: Item -> Raw, ours: string -> bool, pushed: seq<Item>, table: seq<Row>, raws: seq<Raw>)
    requires TableIsSound(wire, ours, pushed, table)
    requires forall raw :: raw in raws && raw.Parsed? ==> !ours(raw.event.eventId)
    ensures table <= Ingested(table, raws) && TableIsSound(wire, ours, pushed, Ingested(table, raws))
  {
    var events := AcceptedEvents(raws);
    StoredHolds(table, events);
    forall e | e in events
      ensures !ours(e.eventId)
    {
      AcceptedIff(raws, e);
    }
  }

  lemma BeaconKeepsTableSound(
    wire: Item -> Raw, ours: string -> bool, pushed: seq<Item>, table: seq<Row>, queue: seq<Item>, arrived: bool)
    requires IsWire(wire, ours) && TableIsSound(wire, ours, pushed, table)
    requires IdsAllDiffer(pushed) && IdsAllDiffer(queue) && AreAllIn(queue, pushed)
    ensures table <= AfterOneBeacon(wire, table, queue, arrived)
    ensures TableIsSound(wire, ours, pushed, AfterOneBeacon(wire, table, queue, arrived))
  {
    if arrived {
      IngestStoresTheBatch(wire, ours, pushed, FirstOf(queue), table);
    }
  }

  lemma {:induction false} BeaconsGrowTable(
    wire: Item -> Raw, table: seq<Row>, queue: seq<Item>, accepted: nat, arrived: seq<bool>)
    ensures table <= AfterBeaconBatches(wire, table, queue, accepted, arrived)
    decreases accepted
  {
    if queue != [] && accepted != 0 && arrived != [] {
      var next := AfterOneBeacon(wire, table, queue, arrived[0]);
      StoredHolds(table, AcceptedEvents(MapSeq(FirstOf(queue), wire)));
      BeaconsGrowTable(wire, next, Spliced(queue, MAX_BATCH_SIZE), accepted - 1, arrived[1..]);
    }
  }

  lemma {:induction false} BeaconsKeepTableSound(
    wire: Item -> Raw, ours: string -> bool, pushed: seq<Item>, table: seq<Row>, queue: seq<Item>, accepted: nat,
    arrived: seq<bool>)
    requires IsWire(wire, ours) && TableIsSound(wire, ours, pushed, table)
    requires IdsAllDiffer(pushed) && IdsAllDiffer(queue) && AreAllIn(queue, pushed)
    ensures TableIsSound(wire, ours, pushed, AfterBeaconBatches(wire, table, queue, accepted, arrived))
    decreases accepted
  {
    if queue != [] && accepted != 0 && arrived != [] {
      var next, rest := AfterOneBeacon(wire, table, queue, arrived[0]), Spliced(queue, MAX_BATCH_SIZE);
      BeaconKeepsTableSound(wire, ours, pushed, table, queue, arrived[0]);
      BeaconsKeepTableSound(wire, ours, pushed, next, rest, accepted - 1, arrived[1..]);
    }
  }

  ghost predicate Invariant(wire: Item -> Raw, ours: string -> bool, s: State) {
    && QueueIsSound(s.client)
    && BatchIsSound(s.client, s.log)
    && IsFifo(s.client, s.log)
    && CallsHaveOnePlace(s.log)
    && IdsDiffer(s.log.pushed, s.client.issued)
    && AccountsHold(s.client, s.log)
    && TableIsSound(wire, ours, s.log.pushed, s.table)
    && AttemptsAreSound(wire, s.client, s.attempts, s.table)
    && DeliveredAreStored(wire, s.log.settled, s.table)
  }

  lemma QueuedArePushed(s: QueueState, log: Log)
    requires IsFifo(s, log) && IdsDiffer(log.pushed, s.issued)
    ensures AreAllIn(s.queue, log.pushed) && IdsAllDiffer(s.queue)
  {
    var gone := |log.settled|;
    assert forall i :: 0 <= i < |s.queue| ==> s.queue[i] == log.pushed[gone + i];
  }

  /** A beacon that is taken takes at least the first full batch. */
  lemma BeaconsTakeTheFront(s: QueueState, accepted: nat)
    requires accepted > 0
    ensures FirstOf(AfterReport(s).queue) <= HandedBy(s, accepted)
  {
  }

  /** A beacon taken during a flush takes the batch in flight. */
  lemma BeaconsTakeTheBatch(s: QueueState, log: Log, accepted: nat, arrived: seq<bool>)
    requires s.batch <= s.queue && |s.batch| <= MAX_BATCH_SIZE && accepted > 0 && s.queue != []
    ensures forall i :: i in s.batch ==> IsSettled(AfterLog(s, log, Hide(accepted, arrived)), i)
  {
    var gone := HandedBy(s, accepted);
    BeaconsTakeTheFront(s, accepted);
    MapAppends(log.settled, Settle(gone, Handed), ItemOf);
    assert s.batch <= gone;
    assert forall i :: 0 <= i < |s.batch| ==> MapSeq(Settle(gone, Handed), ItemOf)[i] == s.batch[i];
  }

  /** The step takes a batch off the front of the queue to send it. */
  predicate TakesBatch(s: QueueState, log: Log, step: Step) {
    AfterClient(s, log, step).flushing && (!s.flushing || step.Resume?)
  }

  lemma TakenBatchIsTheFront(s: QueueState, log: Log, step: Step)
    requires QueueIsSound(s) && TakesBatch(s, log, step)
    ensures AfterClient(s, log, step).batch == FirstOf(AfterClient(s, log, step).queue)
  {
  }

  lemma OtherStepsKeepTheBatch(s: QueueState, log: Log, step: Step)
    requires QueueIsSound(s) && BatchIsSound(s, log) && !step.Hide? && !TakesBatch(s, log, step)
    requires step.Resume? ==> s.flushing
    ensures BatchIsSound(AfterClient(s, log, step), AfterLog(s, log, step))
  {
    if step.Resume? {
      assert AfterClient(s, log, step).batch == [];
    } else {
      assert AfterLog(s, log, step).settled == log.settled;
      assert AfterClient(s, log, step).batch == s.batch && s.queue <= AfterClient(s, log, step).queue;
    }
  }

  lemma HideKeepsBatchSound(s: QueueState, log: Log, accepted: nat, arrived: seq<bool>)
    requires QueueIsSound(s) && BatchIsSound(s, log)
    ensures BatchIsSound(AfterHide(s, accepted), AfterLog(s, log, Hide(accepted, arrived)))
  {
    if s.queue != [] {
      if !(s.batch <= s.queue) {
        MapAppends(log.settled, Settle(HandedBy(s, accepted), Handed), ItemOf);
      } else if accepted > 0 {
        BeaconsTakeTheBatch(s, log, accepted, arrived);
      }
    }
  }

  lemma StepKeepsBatchSound(s: QueueState, log: Log, step: Step)
    requires QueueIsSound(s) && BatchIsSound(s, log) && IsFifo(s, log) && IdsDiffer(log.pushed, s.issued)
    requires step.Resume? ==> s.flushing
    ensures BatchIsSound(AfterClient(s, log, step), AfterLog(s, log, step))
  {
    if step.Hide? {
      HideKeepsBatchSound(s, log, step.accepted, step.arrived);
    } else if TakesBatch(s, log, step) {
      StepKeepsFifo(s, log, step);
      StepKeepsIds(s, log, step);
      QueuedArePushed(AfterClient(s, log, step), AfterLog(s, log, step));
      TakenBatchIsTheFront(s, log, step);
    } else {
      OtherStepsKeepTheBatch(s, log, step);
    }
  }

  /** The items of the batch in flight were queued once each. */
  lemma BatchIsPushed(s: QueueState, log: Log)
    requires IsFifo(s, log) && BatchIsSound(s, log)
    ensures AreAllIn(s.batch, log.pushed) && IdsAllDiffer(s.batch)
  {
    assert log.pushed == MapSeq(log.settled, ItemOf) + s.queue;
  }

  lemma PushedGrows(s: QueueState, log: Log, step: Step)
    ensures log.pushed <= AfterLog(s, log, step).pushed
  {
  }

  lemma SoundWithMorePushed(
    wire: Item -> Raw, ours: string -> bool, pushed: seq<Item>, more: seq<Item>, table: seq<Row>)
    requires TableIsSound(wire, ours, pushed, table) && pushed <= more
    ensures TableIsSound(wire, ours, more, table)
  {
    assert more == pushed + more[|pushed|..];
  }

  /** The table only grows, and its rows with this client's ids stay rows of items it queued. */
  lemma StepKeepsTableSound(wire: Item -> Raw, ours: string -> bool, s: State, step: Step)
    requires IsWire(wire, ours) && Invariant(wire, ours, s) && Enabled(ours, s, step)
    ensures s.table <= After(wire, s, step).table
    ensures TableIsSound(wire, ours, AfterLog(s.client, s.log, step).pushed, AfterTable(wire, s, step))
  {
    var pushed := AfterLog(s.client, s.log, step).pushed;
    PushedGrows(s.client, s.log, step);
    SoundWithMorePushed(wire, ours, s.log.pushed, pushed, s.table);
    QueuedArePushed(s.client, s.log);
    match step
    case Send(attempt) =>
      if attempt.Acknowledged? || attempt.StoredUnheard? {
        BatchIsPushed(s.client, s.log);
        IngestStoresTheBatch(wire, ours, pushed, s.client.batch, s.table);
      }
    case Hide(accepted, arrived) =>
      if s.client.queue != [] {
        ReportKeepsFifo(s.client, s.log);
        ReportKeepsIds(s.client, s.log);
        QueuedArePushed(AfterReport(s.client), Reported(s.log, s.client));
        BeaconsGrowTable(wire, s.table, AfterReport(s.client).queue, accepted, arrived);
        BeaconsKeepTableSound(wire, ours, pushed, s.table, AfterReport(s.client).queue, accepted, arrived);
      }
    case OtherClient(raws) => OthersKeepTableSound(wire, ours, pushed, s.table, raws);
    case _ =>
  }

  lemma ReachedAfterSending(attempts: seq<Attempt>, attempt: Attempt)
    ensures HasReached(attempts + [attempt])
          <==> HasReached(attempts) || attempt.Acknowledged? || attempt.StoredUnheard?
  {
    var more := attempts + [attempt];
    if HasReached(attempts) {
      var k :| 0 <= k < |attempts| && (attempts[k].Acknowledged? || attempts[k].StoredUnheard?);
      assert more[k] == attempts[k];
    }
    assert more[|attempts|] == attempt;
  }

  lemma StoredStays(wire: Item -> Raw, items: seq<Item>, table: seq<Row>, later: seq<Row>)
    requires AreStored(wire, items, table) && table <= later
    ensures AreStored(wire, items, later)
  {
    assert forall r :: r in table ==> r in later by {
      assert later == table + later[|table|..];
    }
  }

  /** A batch with an attempt that reached the server is stored. */
  lemma StepKeepsAttemptsSound(wire: Item -> Raw, ours: string -> bool, s: State, step: Step)
    requires IsWire(wire, ours) && Invariant(wire, ours, s) && Enabled(ours, s, step)
    ensures var after := After(wire, s, step);
            AttemptsAreSound(wire, after.client, after.attempts, after.table)
  {
    var after := After(wire, s, step);
    StepKeepsTableSound(wire, ours, s, step);
    if HasReached(s.attempts) {
      StoredStays(wire, s.client.batch, s.table, after.table);
    }
    match step
    case Send(attempt) =>
      ReachedAfterSending(s.attempts, attempt);
      BatchIsPushed(s.client, s.log);
      if attempt.Acknowledged? || attempt.StoredUnheard? {
        IngestStoresTheBatch(wire, ours, s.log.pushed, s.client.batch, s.table);
      }
    case TrackCall(valid) =>
      assert s.client.flushing ==> after.client.batch == s.client.batch && after.client.flushing;
    case _ =>
  }

  /** An acknowledged batch still at the front of the queue is stored as it leaves. */
  lemma RemovedAreStored(wire: Item -> Raw, ours: string -> bool, s: State, result: SendResult)
    requires Invariant(wire, ours, s) && Enabled(ours, s, Resume(result)) && !result.Threw?
    ensures DeliveredAreStored(wire, Settle(Removed(s.client), FateOfRemoved(s.client, result)), s.table)
  {
    if FateOfRemoved(s.client, result).Delivered? {
      assert Removed(s.client) == s.client.batch;
    }
  }

  lemma StepKeepsDeliveredStored(wire: Item -> Raw, ours: string -> bool, s: State, step: Step)
    requires IsWire(wire, ours) && Invariant(wire, ours, s) && Enabled(ours, s, step)
    ensures DeliveredAreStored(wire, AfterLog(s.client, s.log, step).settled, After(wire, s, step).table)
  {
    var table := After(wire, s, step).table;
    StepKeepsTableSound(wire, ours, s, step);
    forall x | x in s.log.settled && x.fate.Delivered?
      ensures AreStored(wire, [x.item], table)
    {
    }
    if step.Resume? && !step.result.Threw? {
      RemovedAreStored(wire, ours, s, step.result);
    }
  }

  lemma StepKeepsInvariant(wire: Item -> Raw, ours: string -> bool, s: State, step: Step)
    requires IsWire(wire, ours) && Invariant(wire, ours, s) && Enabled(ours, s, step)
    ensures Invariant(wire, ours, After(wire, s, step))
  {
    StepKeepsQueueSound(s.client, s.log, step);
    StepKeepsBatchSound(s.client, s.log, step);
    StepKeepsFifo(s.client, s.log, step);
    StepKeepsPlaces(s.client, s.log, step);
    StepKeepsIds(s.client, s.log, step);
    StepKeepsAccounts(s.client, s.log, step);
    StepKeepsTableSound(wire, ours, s, step);
    StepKeepsAttemptsSound(wire, ours, s, step);
    StepKeepsDeliveredStored(wire, ours, s, step);
  }

  lemma InitialIsSound(wire: Item -> Raw, ours: string -> bool, s: State)
    requires Initial(s)
    ensures Invariant(wire, ours, s)
  {
  }

  lemma {:induction false} BehaviourKeepsInvariant(
    wire: Item -> Raw, ours: string -> bool, states: seq<State>, steps: seq<Step>, i: nat)
    requires IsWire(wire, ours) && IsBehaviour(wire, ours, states, steps) && i < |states|
    ensures Invariant(wire, ours, states[i])
  {
    if i == 0 {
      InitialIsSound(wire, ours, states[0]);
    } else {
      BehaviourKeepsInvariant(wire, ours, states, steps, i - 1);
      StepKeepsInvariant(wire, ours, states[i - 1], steps[i - 1]);
    }
  }

  // --- Over any run --------------------------------------------------------------------

  /** Where a `track` call can be: refused and counted, still queued, or out of the queue. */
  datatype Place = InRefusals | InQueue | Out(fate: Fate)

  predicate IsAt(s: QueueState, log: Log, call: nat, place: Place) {
    match place
    case InRefusals => IsRefused(log, call)
    case InQueue => exists i :: 0 <= i < |s.queue| && IsCall(s.queue[i], call)
    case Out(fate) =>
      exists i :: 0 <= i < |log.settled| && IsCall(log.settled[i].item, call) && log.settled[i].fate == fate
  }

  /** A place other than the refusals is a position in the pushed items. */
  lemma PlaceIsAPosition(s: QueueState, log: Log, call: nat, place: Place) returns (at: nat)
    requires IsFifo(s, log) && !place.InRefusals? && IsAt(s, log, call, place)
    ensures at < |log.pushed| && IsCall(log.pushed[at], call)
    ensures place == if at < |log.settled| then Out(log.settled[at].fate) else InQueue
  {
    match place
    case InQueue =>
      var i :| 0 <= i < |s.queue| && IsCall(s.queue[i], call);
      at := |log.settled| + i;
    case Out(fate) =>
      var i :| 0 <= i < |log.settled| && IsCall(log.settled[i].item, call) && log.settled[i].fate == fate;
      at := i;
  }

  lemma CallHasOnePlace(s: QueueState, log: Log, call: nat) returns (place: Place)
    requires IsFifo(s, log) && CallsHaveOnePlace(log) && call < log.calls
    ensures IsAt(s, log, call, place)
    ensures forall other :: IsAt(s, log, call, other) ==> other == place
  {
    if IsRefused(log, call) {
      place := InRefusals;
      forall other | IsAt(s, log, call, other)
        ensures other == place
      {
        if !other.InRefusals? {
          var at := PlaceIsAPosition(s, log, call, other);
        }
      }
    } else {
      var at :| 0 <= at < |log.pushed| && IsCall(log.pushed[at], call);
      if at < |log.settled| {
        place := Out(log.settled[at].fate);
      } else {
        place := InQueue;
      }
      forall other | IsAt(s, log, call, other)
        ensures other == place
      {
        var found := PlaceIsAPosition(s, log, call, other);
      }
    }
  }

  /**
   The queue is bounded, the batch in flight is its prefix unless a beacon took that
   batch, and every `track` call made so far is in exactly one place: refused and
   counted as dropped, still queued, delivered, handed to the browser as the page
   went away, given up and counted as dropped, or lost.
   */
  lemma EveryCallIsAccountedFor(
    wire: Item -> Raw, ours: string -> bool, states: seq<State>, steps: seq<Step>, i: nat, call: nat)
    returns (place: Place)
    requires IsWire(wire, ours) && IsBehaviour(wire, ours, states, steps) && i < |states|
    requires call < states[i].log.calls
    ensures |states[i].client.queue| <= MAX_QUEUE_SIZE
    ensures states[i].client.batch <= states[i].client.queue || IsDisplaced(states[i].client)
    ensures IsAt(states[i].client, states[i].log, call, place)
    ensures forall other :: IsAt(states[i].client, states[i].log, call, other) ==> other == place
  {
    BehaviourKeepsInvariant(wire, ours, states, steps, i);
    place := CallHasOnePlace(states[i].client, states[i].log, call);
  }

  /**
   The drops the program makes are never under-reported: what was announced or is
   still pending is at least what was dropped, for every reason. It is exactly what
   was dropped as long as, and only as long as, no drop report was cut short by a
   full queue after its first event, and no batch was given up when fewer items than
   it held were left to take off the queue.
   */
  lemma DropsAreAccountedForIff(wire: Item -> Raw, ours: string -> bool, states: seq<State>, steps: seq<Step>, i: nat)
    requires IsWire(wire, ours) && IsBehaviour(wire, ours, states, steps) && i < |states|
    ensures forall r :: Announced(states[i].client, states[i].log, r) >= Dropped(states[i].log, r)
    ensures (forall r :: Announced(states[i].client, states[i].log, r) == Dropped(states[i].log, r))
       <==> !states[i].log.cutShort && !states[i].log.overcounted
  {
    BehaviourKeepsInvariant(wire, ours, states, steps, i);
    var s, log := states[i].client, states[i].log;
    forall r
      ensures Announced(s, log, r) == Dropped(log, r) + Excess(s, log, r) && Excess(s, log, r) >= 0
    {
    }
  }

  /** The reply an attempt gets. */
  function ReplyOf(a: Attempt): Reply {
    match a
    case Acknowledged => Ok
    case Refused => ClientError
    case Unavailable => RetryLater
    case StoredUnheard | NeverArrived => NoReply
  }

  /**
   A batch is sent at most four times, each time but the last answered with a retry or
   nothing, and its flush goes on as `sendWithRetry` answers: accepted exactly when the
   last attempt was, given up at a refusal or after the fourth.
   */
  lemma {:induction false} BatchesAreSentAtMostFourTimes(
    wire: Item -> Raw, ours: string -> bool, states: seq<State>, steps: seq<Step>, i: nat)
    requires IsBehaviour(wire, ours, states, steps) && i < |states|
    ensures var attempts := states[i].attempts;
            && |attempts| <= 4
            && forall j :: 0 <= j < |attempts| - 1 ==>
                             ReplyOf(attempts[j]) == RetryLater || ReplyOf(attempts[j]) == NoReply
    ensures i < |steps| && steps[i].Resume? && !steps[i].result.Threw? ==>
              var attempts := states[i].attempts;
              && attempts != []
              && var last := ReplyOf(attempts[|attempts| - 1]);
                 && (last == Ok || last == ClientError || |attempts| == 4)
                 && (steps[i].result.Accepted? <==> last == Ok)
  {
    if i > 0 {
      BatchesAreSentAtMostFourTimes(wire, ours, states, steps, i - 1);
    }
  }

  /**
   Whatever responses were lost and however often a batch was sent again, a
   delivered event the server can store is in its table, as it was queued, exactly
   once; and the table holds nothing of this client's that it did not queue.
   */
  lemma DeliveredIsStoredOnce(
    wire: Item -> Raw, ours: string -> bool, states: seq<State>, steps: seq<Step>, i: nat, k: nat)
    requires IsWire(wire, ours) && IsBehaviour(wire, ours, states, steps) && i < |states|
    requires k < |states[i].log.settled| && states[i].log.settled[k].fate.Delivered?
    requires IsStorable(wire(states[i].log.settled[k].item))
    ensures var row := ToRow(wire(states[i].log.settled[k].item).event);
            exists at :: 0 <= at < |states[i].table| && states[i].table[at] == row
                         && forall other :: 0 <= other < |states[i].table| && states[i].table[other].id == row.id
                               ==> other == at
    ensures forall r :: r in states[i].table && ours(r.id) ==>
              exists item :: item in states[i].log.pushed && IsRowOf(wire, item, r)
  {
    BehaviourKeepsInvariant(wire, ours, states, steps, i);
    var settled, table := states[i].log.settled[k], states[i].table;
    var row := ToRow(wire(settled.item).event);
  }

  datatype Run = Run(states: seq<State>, steps: seq<Step>)

  ghost predicate IsRun(wire: Item -> Raw, ours: string -> bool, run: Run) {
    IsBehaviour(wire, ours, run.states, run.steps)
  }

  function Last(run: Run): State
    requires run.states != []
  {
    run.states[|run.states| - 1]
  }

  lemma Extend(wire: Item -> Raw, ours: string -> bool, run: Run, step: Step) returns (longer: Run)
    requires IsRun(wire, ours, run) && Enabled(ours, Last(run), step)
    ensures IsRun(wire, ours, longer) && Last(longer) == After(wire, Last(run), step)
  {
    longer := Run(run.states + [After(wire, Last(run), step)], run.steps + [step]);
  }

  lemma {:induction false} FillWhileFlushing(wire: Item -> Raw, ours: string -> bool, run: Run, calls: nat)
        returns (longer: Run)
    requires IsRun(wire, ours, run) && Last(run).client.flushing
    requires |Last(run).client.queue| + calls <= MAX_QUEUE_SIZE
    ensures IsRun(wire, ours, longer)
    ensures |Last(longer).client.queue| == |Last(run).client.queue| + calls
    ensures Last(longer).client.flushing && Last(longer).client.batch == Last(run).client.batch
    ensures Last(longer).client.dropped == Last(run).client.dropped && Last(longer).attempts == Last(run).attempts
  {
    if calls == 0 {
      longer := run;
    } else {
      longer := FillWhileFlushing(wire, ours, run, calls - 1);
      longer := Extend(wire, ours, longer, TrackCall(true));
    }
  }

  lemma {:induction false} RecordedKeepsLength(dropped: seq<Tally>, reason: DropReason, count: nat)
    ensures |Recorded(dropped, reason, count)| >= |dropped|
    ensures dropped != [] && (forall t :: t in dropped ==> t.reason != reason)
          ==> |Recorded(dropped, reason, count)| == |dropped| + 1
  {
    if dropped != [] && dropped[0].reason != reason {
      RecordedKeepsLength(dropped[1..], reason, count);
    }
  }

  /** The exception is real: a run in which a drop report is cut short, so a drop is announced twice. */
  lemma AReportCanBeCutShort(wire: Item -> Raw, ours: string -> bool) returns (run: Run)
    ensures IsRun(wire, ours, run) && Last(run).log.cutShort
  {
    run := Run([State(EMPTY, NOTHING, [], [])], []);
    run := Extend(wire, ours, run, TrackCall(true));
    assert |Last(run).client.queue| == 1 && !Last(run).client.flushing;
    run := Extend(wire, ours, run, Timer);
    assert Last(run).client.flushing && |Last(run).client.batch| == 1 && Last(run).client.dropped == [];
    run := FillWhileFlushing(wire, ours, run, MAX_QUEUE_SIZE - 1);
    run := Extend(wire, ours, run, TrackCall(true));
    assert Last(run).client.dropped == [Tally(BufferFull, 1)];
    RecordedKeepsLength(Last(run).client.dropped, SchemaRejected, 1);
    RecordedKeepsLength(Last(run).client.dropped, TransportFailed, 1);
    run := Extend(wire, ours, run, Send(Refused));
    run := Extend(wire, ours, run, Resume(GivenUp));
  }
}

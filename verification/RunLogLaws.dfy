/**
 What the transactions of the run log do (data/pipelines/run_log.py), said of the rows
 themselves: which runs hold the slot, what each opening answers and leaves, and what
 the other transactions leave.
 */
module RunLogLaws {
  import opened Common
  import opened Weeks
  import opened RunLog

  // --- Who holds the slot --------------------------------------------------------------

  /** Younger than three hours, and not reported finished. */
  predicate MayBeAlive(run: Run, now: Time, terminal: FlowOracle) {
    now - run.startedAt < 3 * 3_600_000_000 && !(run.flow.Some? && terminal(run.flow.value) == Some(true))
  }

  /** A running row of the pipeline that belongs to another flow run. */
  predicate IsRival(t: RunTable, pipeline: string, flow: FlowId, id: RunId) {
    id in t && t[id].status == Running && t[id].pipeline == pipeline && t[id].flow != Some(flow)
  }

  /** A rival that may be alive keeps the slot. */
  ghost predicate SlotIsHeld(t: RunTable, request: OpenRequest, terminal: FlowOracle) {
    exists id :: IsRival(t, request.pipeline, request.flow, id) && MayBeAlive(t[id], request.now, terminal)
  }

  ghost predicate IsHolder(t: RunTable, request: OpenRequest, terminal: FlowOracle, holder: Option<RunId>) {
    && holder.Some?
    && IsRival(t, request.pipeline, request.flow, holder.value)
    && MayBeAlive(t[holder.value], request.now, terminal)
  }

  lemma SlotHolderIs(t: RunTable, request: OpenRequest, terminal: FlowOracle)
    ensures var swept := SweepAbandoned(t, request.pipeline, request.flow, request.now, terminal);
            var holder := SlotHolder(swept, request.pipeline, request.flow);
            && (holder.Some? <==> SlotIsHeld(t, request, terminal))
            && (holder.Some? ==> IsHolder(t, request, terminal, holder))
  {
    var swept := SweepAbandoned(t, request.pipeline, request.flow, request.now, terminal);
    forall id
      ensures (HoldsSlot(swept, request.pipeline, id) && swept[id].flow != Some(request.flow))
         <==> (IsRival(t, request.pipeline, request.flow, id) && MayBeAlive(t[id], request.now, terminal))
    {
    }
  }

  // --- What an opening leaves ----------------------------------------------------------

  /** A dead rival, marked failed now. */
  predicate IsMarkedDead(before: Run, after: Run, now: Time) {
    after == before.(status := Failed, finishedAt := Some(now), errorClass := Some("Abandoned"))
  }

  /** An opening that is answered fails exactly the dead rivals and leaves every other foreign row alone. */
  lemma OpeningFailsTheDead(t: RunTable, request: OpenRequest, terminal: FlowOracle, id: RunId)
    requires TableInvariant(t) && request.freshId !in t
    requires id in t && t[id].flow != Some(request.flow)
    ensures var result := OpenRun(t, request, terminal);
            && id in result.table
            && (result.answer.Failure? ==> result.table[id] == t[id])
            && (result.answer.Success? ==>
                  if IsRival(t, request.pipeline, request.flow, id) && !MayBeAlive(t[id], request.now, terminal)
                  then IsMarkedDead(t[id], result.table[id], request.now)
                  else result.table[id] == t[id])
  {
  }

  /** `previous_cutoff`: the greatest cutoff of the pipeline's completed runs, none without any. */
  lemma OpeningReportsThePreviousCutoff(t: RunTable, request: OpenRequest, terminal: FlowOracle)
    requires TableInvariant(t) && request.freshId !in t && OpenRun(t, request, terminal).answer.Success?
    ensures var previous := OpenRun(t, request, terminal).answer.value.previous;
            && (forall id :: id in t && t[id].pipeline == request.pipeline && t[id].status == Completed ==>
                  previous.Some? && t[id].cutoff <= previous.value)
            && (previous.Some? ==>
                  exists id :: id in t && t[id].pipeline == request.pipeline && t[id].status == Completed
                               && t[id].cutoff == previous.value)
  {
    var cutoffs := CompletedCutoffs(t, request.pipeline);
    assert forall id :: id in t && t[id].pipeline == request.pipeline && t[id].status == Completed
                        ==> t[id].cutoff in cutoffs;
  }

  /** A flow run without a row gets one: running from now in a free slot, else skipped in favour of the holder. */
  lemma OpeningInserts(t: RunTable, request: OpenRequest, terminal: FlowOracle)
    requires TableInvariant(t) && request.freshId !in t
    requires forall id :: !BelongsTo(t, request.flow, id)
    ensures var result := OpenRun(t, request, terminal);
            && result.answer.Success?
            && result.table.Keys == t.Keys + {request.freshId}
            && var handle, row := result.answer.value, result.table[request.freshId];
               && handle.runId == request.freshId && handle.cutoff == request.now && !handle.resumed
               && row.pipeline == request.pipeline && row.flow == Some(request.flow)
               && row.startedAt == request.now && row.cutoff == request.now
               && row.weeksFrom == request.weeksFrom && row.weeksTo == request.weeksTo
               && row.eventsRead == None && row.tally == None && row.errorStage == None
               && handle.status == row.status && handle.blockedBy == row.blockedBy
               && if SlotIsHeld(t, request, terminal)
                  then
                    && row.status == Skipped && row.finishedAt == Some(request.now)
                    && row.errorClass == Some("ConcurrentRun")
                    && IsHolder(t, request, terminal, row.blockedBy)
                  else
                    && row.status == Running && row.finishedAt == None
                    && row.errorClass == None && row.blockedBy == None
  {
    SlotHolderIs(t, request, terminal);
  }

  /** A flow run with a row gets that row back: as it is, or reopened when it failed and the slot is free. */
  lemma OpeningResumes(t: RunTable, request: OpenRequest, terminal: FlowOracle, id: RunId)
    requires TableInvariant(t) && request.freshId !in t && BelongsTo(t, request.flow, id)
    ensures var result := OpenRun(t, request, terminal);
            && result.table.Keys == t.Keys
            && (result.answer.Failure? ==> result.table == t)
            && (result.answer.Success? ==>
                  var handle := result.answer.value;
                  && handle.runId == id && handle.cutoff == t[id].cutoff && handle.resumed
                  && if t[id].status == Failed && !SlotIsHeld(t, request, terminal)
                     then
                       && handle.status == Running && handle.blockedBy == t[id].blockedBy
                       && result.table[id]
                          == t[id].(status := Running, finishedAt := None, errorStage := None, errorClass := None)
                     else
                       && result.table[id] == t[id]
                       && if t[id].status == Failed
                          then handle.status == Skipped && IsHolder(t, request, terminal, handle.blockedBy)
                          else handle.status == t[id].status && handle.blockedBy == t[id].blockedBy)
  {
    SlotHolderIs(t, request, terminal);
    assert RunOfFlow(t, request.flow) == Some(id);
  }

  /** The opening is refused only for a failed row of another pipeline whose slot is taken. */
  predicate IndexRefuses(t: RunTable, request: OpenRequest, id: RunId, other: RunId) {
    && BelongsTo(t, request.flow, id) && t[id].status == Failed && t[id].pipeline != request.pipeline
    && other in t && t[other].status == Running && t[other].pipeline == t[id].pipeline
  }

  lemma OpeningIsRefusedIff(t: RunTable, request: OpenRequest, terminal: FlowOracle)
    requires TableInvariant(t) && request.freshId !in t
    ensures OpenRun(t, request, terminal).answer.Failure? <==>
              (exists id, other :: IndexRefuses(t, request, id, other)) && !SlotIsHeld(t, request, terminal)
  {
    OneRunningIndexFiresIff(t, request, terminal);
    OnlyTheDeadHoldIff(t, request, terminal);
    var own := RunOfFlow(t, request.flow);
    if id, other :| IndexRefuses(t, request, id, other) {
      assert BelongsTo(t, request.flow, own.value) && own.value == id;
      assert HoldsSlot(t, t[own.value].pipeline, other);
    }
    if OpenRun(t, request, terminal).answer.Failure? {
      var other :| HoldsSlot(t, t[own.value].pipeline, other);
      assert IndexRefuses(t, request, own.value, other);
    }
  }

  lemma OnlyTheDeadHoldIff(t: RunTable, request: OpenRequest, terminal: FlowOracle)
    ensures SlotIsHeld(t, request, terminal) <==>
            !forall id :: HoldsSlot(t, request.pipeline, id) && t[id].flow != Some(request.flow)
                          ==> IsAbandoned(t[id], request.now, terminal)
  {
    if id :| HoldsSlot(t, request.pipeline, id) && t[id].flow != Some(request.flow)
             && !IsAbandoned(t[id], request.now, terminal) {
      assert IsRival(t, request.pipeline, request.flow, id);
    }
  }

  // --- What the other transactions leave -----------------------------------------------

  /** `complete_run` completes a running row now, with what it did, and touches no other. */
  lemma CompletingCompletes(t: RunTable, id: RunId, now: Time, tally: LoadTally, eventsRead: Option<nat>)
    ensures var after := CompleteRun(t, id, now, tally, eventsRead);
            && (after.Some? <==> id in t && t[id].status == Running)
            && (after.Some? ==>
                  && after.value.Keys == t.Keys
                  && (forall other :: other in t && other != id ==> after.value[other] == t[other])
                  && var row := after.value[id];
                     && row.status == Completed && row.finishedAt == Some(now)
                     && row.tally == Some(tally) && row.eventsRead == eventsRead
                     && SameIdentity(t[id], row) && row.blockedBy == t[id].blockedBy
                     && row.errorStage == t[id].errorStage && row.errorClass == t[id].errorClass)
  {
  }

  /** `skip_run` ends a running row skipped, naming the run it gave way to, and touches no other. */
  lemma SkippingSkips(
    t: RunTable, id: RunId, blockedBy: RunId, now: Time, errorClass: string, eventsRead: Option<nat>)
    ensures var after := SkipRun(t, id, blockedBy, now, errorClass, eventsRead);
            && after.Keys == t.Keys
            && (forall other :: other in t && other != id ==> after[other] == t[other])
            && (id in t && t[id].status != Running ==> after[id] == t[id])
            && (id in t && t[id].status == Running ==>
                  && after[id].status == Skipped && after[id].finishedAt == Some(now)
                  && after[id].blockedBy == Some(blockedBy) && after[id].errorClass == Some(errorClass)
                  && after[id].eventsRead == eventsRead
                  && SameIdentity(t[id], after[id]) && after[id].tally == t[id].tally
                  && after[id].errorStage == t[id].errorStage)
  {
  }

  /** `fail_run` ends the flow run's running row failed, with its stage, and says what it found. */
  lemma FailingFails(
    t: RunTable, flow: FlowId, now: Time, stage: Option<ErrorStage>, errorClass: string, eventsRead: Option<nat>,
    id: RunId)
    requires TableInvariant(t) && id in t
    ensures var (after, outcome) := FailRun(t, flow, now, stage, errorClass, eventsRead);
            && after.Keys == t.Keys
            && (t[id].flow == Some(flow) ==> outcome == if t[id].status == Running then MarkedFailed else Unchanged)
            && (t[id].flow == Some(flow) && t[id].status == Running ==>
                  && after[id].status == Failed && after[id].finishedAt == Some(now)
                  && after[id].errorStage == stage && after[id].errorClass == Some(errorClass)
                  && after[id].eventsRead == eventsRead
                  && SameIdentity(t[id], after[id]) && after[id].tally == t[id].tally
                  && after[id].blockedBy == t[id].blockedBy)
            && (t[id].flow != Some(flow) || t[id].status != Running ==> after[id] == t[id])
  {
    var own := RunOfFlow(t, flow);
    if t[id].flow == Some(flow) {
      assert BelongsTo(t, flow, id);
      assert own == Some(id);
    }
  }

  lemma FailingMissesIff(
    t: RunTable, flow: FlowId, now: Time, stage: Option<ErrorStage>, errorClass: string, eventsRead: Option<nat>)
    ensures FailRun(t, flow, now, stage, errorClass, eventsRead).1.Missing? <==>
              forall id :: id in t ==> t[id].flow != Some(flow)
  {
    if id :| id in t && t[id].flow == Some(flow) {
      assert BelongsTo(t, flow, id);
    }
  }
}

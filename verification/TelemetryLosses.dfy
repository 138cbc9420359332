/**
 What happens when the page is hidden while a batch is in flight
 (`flush` and `flushOnHide` in uis/backoffice/services/telemetry-service.ts).

 The beacons then take that batch off the queue, and when the flush resumes it
 takes as many events off again, whatever they are. This module says exactly when
 that loses events.
 */
module TelemetryLosses {
  import Sequences
  import opened TelemetryIngest
  import opened TelemetryQueue
  import opened TelemetryDelivery

  // --- When the batch in flight is displaced -------------------------------------------

  /** What has left the queue is not in it any more. */
  lemma SettledIsNotQueued(s: QueueState, log: Log, i: Item)
    requires IsFifo(s, log) && IdsDiffer(log.pushed, s.issued) && IsSettled(log, i)
    ensures i !in s.queue
  {
    var gone := Sequences.MapSeq(log.settled, ItemOf);
    var k :| 0 <= k < |gone| && gone[k] == i;
    assert forall m :: 0 <= m < |s.queue| ==> log.pushed[|gone| + m] == s.queue[m];
    assert log.pushed[k] == i;
  }

  lemma DisplacedMeansSettled(wire: Item -> Raw, ours: string -> bool, s: State)
    requires Invariant(wire, ours, s) && s.client.flushing
    ensures IsDisplaced(s.client) <==> forall i :: i in s.client.batch ==> IsSettled(s.log, i)
  {
    var first := s.client.batch[0];
    if IsSettled(s.log, first) {
      SettledIsNotQueued(s.client, s.log, first);
    }
  }

  predicate TakesABeacon(step: Step) {
    step.Hide? && step.accepted > 0
  }

  lemma SettledStays(before: Log, after: Log, i: Item)
    requires before.settled <= after.settled && IsSettled(before, i)
    ensures IsSettled(after, i)
  {
    var gone, more := Sequences.MapSeq(before.settled, ItemOf), Sequences.MapSeq(after.settled, ItemOf);
    var k :| 0 <= k < |gone| && gone[k] == i;
    assert more[k] == i;
  }

  lemma SettledGrows(s: QueueState, log: Log, step: Step)
    ensures log.settled <= AfterLog(s, log, step).settled
  {
  }

  /** During a flush, a batch is displaced by the first beacon taken after it and stays so. */
  lemma StepDisplacesIff(wire: Item -> Raw, ours: string -> bool, s: State, step: Step)
    requires IsWire(wire, ours) && Invariant(wire, ours, s) && Enabled(ours, s, step)
    requires After(wire, s, step).client.flushing
    ensures IsDisplaced(After(wire, s, step).client)
       <==> !TakesBatch(s.client, s.log, step) && (IsDisplaced(s.client) || TakesABeacon(step))
  {
    var after := After(wire, s, step);
    StepKeepsInvariant(wire, ours, s, step);
    DisplacedMeansSettled(wire, ours, after);
    if TakesBatch(s.client, s.log, step) {
      TakenBatchIsTheFront(s.client, s.log, step);
    } else {
      BatchStaysInFlight(s.client, s.log, step);
      if IsDisplaced(s.client) {
        DisplacedMeansSettled(wire, ours, s);
        forall i | i in s.client.batch
          ensures IsSettled(after.log, i)
        {
          SettledGrows(s.client, s.log, step);
          SettledStays(s.log, after.log, i);
        }
      } else if TakesABeacon(step) {
        BeaconsTakeTheBatch(s.client, s.log, step.accepted, step.arrived);
      }
    }
  }

  /** While a flush waits, its batch is the same, and only a beacon takes events off the queue. */
  lemma BatchStaysInFlight(s: QueueState, log: Log, step: Step)
    requires QueueIsSound(s) && AfterClient(s, log, step).flushing && !TakesBatch(s, log, step)
    ensures s.flushing && AfterClient(s, log, step).batch == s.batch
    ensures !TakesABeacon(step) ==> s.queue <= AfterClient(s, log, step).queue
  {
  }

  /** The batch in flight at `i` was taken by step `taken`. */
  predicate TakenAt(states: seq<State>, steps: seq<Step>, taken: nat, i: nat)
    requires |states| == |steps| + 1 && i <= |steps|
  {
    && taken < i && states[i].client.flushing
    && TakesBatch(states[taken].client, states[taken].log, steps[taken])
    && forall j :: taken < j < i ==> !TakesBatch(states[j].client, states[j].log, steps[j])
  }

  predicate BeaconBetween(steps: seq<Step>, taken: nat, i: nat)
    requires i <= |steps|
  {
    exists j :: taken < j < i && TakesABeacon(steps[j])
  }

  /** One step of a run with a flush in flight after it. */
  lemma FlushStep(wire: Item -> Raw, ours: string -> bool, states: seq<State>, steps: seq<Step>, k: nat)
    requires IsWire(wire, ours) && IsBehaviour(wire, ours, states, steps) && k < |steps|
    requires states[k + 1].client.flushing
    ensures var s := states[k];
            && (IsDisplaced(states[k + 1].client)
                <==> !TakesBatch(s.client, s.log, steps[k]) && (IsDisplaced(s.client) || TakesABeacon(steps[k])))
            && (!TakesBatch(s.client, s.log, steps[k]) ==>
                  s.client.flushing && states[k + 1].client.batch == s.client.batch)
  {
    var s := states[k];
    BehaviourKeepsInvariant(wire, ours, states, steps, k);
    StepDisplacesIff(wire, ours, s, steps[k]);
    if !TakesBatch(s.client, s.log, steps[k]) {
      BatchStaysInFlight(s.client, s.log, steps[k]);
    }
  }

  lemma {:induction false} InFlightSince(
    wire: Item -> Raw, ours: string -> bool, states: seq<State>, steps: seq<Step>, taken: nat, k: nat, i: nat)
    requires IsWire(wire, ours) && IsBehaviour(wire, ours, states, steps) && i <= |steps|
    requires TakenAt(states, steps, taken, i) && taken < k <= i
    ensures states[k].client.flushing
    decreases i - k
  {
    if k < i {
      InFlightSince(wire, ours, states, steps, taken, k + 1, i);
      FlushStep(wire, ours, states, steps, k);
    }
  }

  lemma {:induction false} FirstBeaconDisplaces(displaced: int -> bool, steps: seq<Step>, taken: nat, i: nat)
    requires taken < i <= |steps| && !displaced(taken + 1)
    requires forall k :: taken < k < i ==> displaced(k + 1) == (displaced(k) || TakesABeacon(steps[k]))
    ensures displaced(i) <==> BeaconBetween(steps, taken, i)
  {
    if taken + 1 < i {
      FirstBeaconDisplaces(displaced, steps, taken, i - 1);
      assert displaced((i - 1) + 1) == (displaced(i - 1) || TakesABeacon(steps[i - 1]));
    }
  }

  /** A batch in flight has been displaced exactly when a beacon was taken since the flush took it. */
  lemma DisplacedIff(
    wire: Item -> Raw, ours: string -> bool, states: seq<State>, steps: seq<Step>, taken: nat, i: nat)
    requires IsWire(wire, ours) && IsBehaviour(wire, ours, states, steps) && i <= |steps|
    requires TakenAt(states, steps, taken, i)
    ensures IsDisplaced(states[i].client) <==> BeaconBetween(steps, taken, i)
  {
    var displaced := (k: int) => 0 <= k < |states| && IsDisplaced(states[k].client);
    forall k | taken <= k < i
      ensures displaced(k + 1) == (k > taken && (displaced(k) || TakesABeacon(steps[k])))
    {
      InFlightSince(wire, ours, states, steps, taken, k + 1, i);
      FlushStep(wire, ours, states, steps, k);
    }
    FirstBeaconDisplaces(displaced, steps, taken, i);
  }

  // --- When events are lost ------------------------------------------------------------

  predicate LosesFrom(log: Log, from: nat) {
    exists p :: from <= p < |log.settled| && log.settled[p].fate.Lost?
  }

  lemma StepLosesIff(s: QueueState, log: Log, step: Step)
    requires QueueIsSound(s) && (step.Resume? ==> s.flushing)
    ensures log.settled <= AfterLog(s, log, step).settled
    ensures LosesFrom(AfterLog(s, log, step), |log.settled|)
       <==> step == Resume(SendResult.Accepted) && IsDisplaced(s) && s.queue != []
  {
    if step == Resume(SendResult.Accepted) && IsDisplaced(s) && s.queue != [] {
      assert AfterLog(s, log, step).settled[|log.settled|].fate.Lost?;
    }
  }

  predicate LosesAt(states: seq<State>, steps: seq<Step>, i: nat)
    requires |states| == |steps| + 1 && i < |steps|
  {
    steps[i] == Resume(SendResult.Accepted) && IsDisplaced(states[i].client) && states[i].client.queue != []
  }

  /**
   When a flush resumes it takes off the queue events nobody sent or counted exactly
   when its batch was accepted, a beacon was taken since that batch was, and
   something is left in the queue.
   */
  lemma FlushLosesIff(
    wire: Item -> Raw, ours: string -> bool, states: seq<State>, steps: seq<Step>, taken: nat, i: nat)
    requires IsWire(wire, ours) && IsBehaviour(wire, ours, states, steps) && i < |steps|
    requires TakenAt(states, steps, taken, i) && steps[i].Resume?
    ensures LosesFrom(states[i + 1].log, |states[i].log.settled|)
       <==> steps[i].result.Accepted? && BeaconBetween(steps, taken, i) && states[i].client.queue != []
  {
    DisplacedIff(wire, ours, states, steps, taken, i);
    RunStepLosesIff(wire, ours, states, steps, i);
  }

  /**
   What a displaced batch costs: given up, the events taken off in its place are
   counted as `transport_failed`; accepted, they are counted nowhere; and when
   serialising threw, none is taken off.
   */
  lemma DisplacedBatchTakesOthers(wire: Item -> Raw, ours: string -> bool, s: State, result: SendResult, i: Item)
    requires IsWire(wire, ours) && Invariant(wire, ours, s) && Enabled(ours, s, Resume(result)) && IsDisplaced(s.client)
    requires i in Removed(s.client)
    ensures i !in s.client.batch && !IsSettled(s.log, i)
    ensures var settled := AfterLog(s.client, s.log, Resume(result)).settled;
            match result
            case Threw => settled == s.log.settled
            case Accepted => Settled(i, Lost) in settled
            case GivenUp => Settled(i, Failed) in settled
  {
    if IsSettled(s.log, i) {
      SettledIsNotQueued(s.client, s.log, i);
    }
    DisplacedMeansSettled(wire, ours, s);
    var fate := FateOfRemoved(s.client, result);
    var k :| 0 <= k < |Removed(s.client)| && Removed(s.client)[k] == i;
    assert Settle(Removed(s.client), fate)[k] == Settled(i, fate);
    assert Settled(i, fate) in Settle(Removed(s.client), fate);
  }

  lemma LossesAddUp(before: Log, after: Log)
    requires before.settled <= after.settled
    ensures LosesFrom(after, 0) <==> LosesFrom(before, 0) || LosesFrom(after, |before.settled|)
  {
    if p :| 0 <= p < |before.settled| && before.settled[p].fate.Lost? {
      assert after.settled[p].fate.Lost?;
    }
  }

  lemma {:induction false} SomeFateIsLostIff(
    wire: Item -> Raw, ours: string -> bool, states: seq<State>, steps: seq<Step>, n: nat)
    requires IsWire(wire, ours) && IsBehaviour(wire, ours, states, steps) && n <= |steps|
    ensures LosesFrom(states[n].log, 0) <==> exists i :: 0 <= i < n && LosesAt(states, steps, i)
  {
    if n > 0 {
      SomeFateIsLostIff(wire, ours, states, steps, n - 1);
      RunStepLosesIff(wire, ours, states, steps, n - 1);
      LossesAddUp(states[n - 1].log, states[n].log);
    }
  }

  lemma RunStepLosesIff(wire: Item -> Raw, ours: string -> bool, states: seq<State>, steps: seq<Step>, k: nat)
    requires IsWire(wire, ours) && IsBehaviour(wire, ours, states, steps) && k < |steps|
    ensures states[k].log.settled <= states[k + 1].log.settled
    ensures LosesFrom(states[k + 1].log, |states[k].log.settled|) <==> LosesAt(states, steps, k)
  {
    BehaviourKeepsInvariant(wire, ours, states, steps, k);
    StepLosesIff(states[k].client, states[k].log, steps[k]);
  }

  // --- A lost event was never sent -----------------------------------------------------

  /** Out of the queue in a way other than being lost. */
  predicate IsSafe(log: Log, i: Item) {
    exists p :: 0 <= p < |log.settled| && log.settled[p].item == i && !log.settled[p].fate.Lost?
  }

  /** Safe, or in a batch in flight that is still at the front of the queue. */
  predicate IsSafeOrInFlight(s: State, i: Item) {
    IsSafe(s.log, i) || (s.client.flushing && !IsDisplaced(s.client) && i in s.client.batch)
  }

  lemma SafeStays(s: QueueState, log: Log, step: Step, i: Item)
    requires QueueIsSound(s) && (step.Resume? ==> s.flushing) && IsSafe(log, i)
    ensures IsSafe(AfterLog(s, log, step), i)
  {
    StepLosesIff(s, log, step);
    var p :| 0 <= p < |log.settled| && log.settled[p].item == i && !log.settled[p].fate.Lost?;
    assert AfterLog(s, log, step).settled[p] == log.settled[p];
  }

  lemma SettledAreSafe(log: Log, items: seq<Item>, fate: Fate, i: Item)
    requires !fate.Lost? && i in items
    ensures IsSafe(log.(settled := log.settled + Settle(items, fate)), i)
  {
    var k :| 0 <= k < |items| && items[k] == i;
    assert (log.settled + Settle(items, fate))[|log.settled| + k] == Settled(i, fate);
  }

  /** A beacon taken while the batch is at the front hands it over. */
  lemma BatchIsHanded(s: QueueState, accepted: nat)
    requires s.batch <= s.queue && |s.batch| <= MAX_BATCH_SIZE && accepted > 0
    ensures s.batch <= HandedBy(s, accepted)
  {
    BeaconsTakeTheFront(s, accepted);
    assert s.batch <= FirstOf(AfterReport(s).queue);
  }

  lemma ResumeMakesSafe(s: QueueState, log: Log, result: SendResult, i: Item)
    requires s.batch <= s.queue && i in s.batch && !result.Threw?
    ensures IsSafe(AfterLog(s, log, Resume(result)), i)
  {
    assert Removed(s) == s.batch;
    SettledAreSafe(log, s.batch, FateOfRemoved(s, result), i);
  }

  /** It leaves the queue with its batch or with a beacon, unless sending the batch threw. */
  lemma InFlightStaysSafe(
    wire: Item -> Raw, ours: string -> bool, states: seq<State>, steps: seq<Step>, k: nat, i: Item)
    requires IsWire(wire, ours) && IsBehaviour(wire, ours, states, steps) && k < |steps|
    requires IsSafeOrInFlight(states[k], i) && steps[k] != Resume(Threw)
    ensures IsSafeOrInFlight(states[k + 1], i)
    ensures steps[k].Resume? ==> IsSafe(states[k + 1].log, i)
  {
    BehaviourKeepsInvariant(wire, ours, states, steps, k);
    var s, log, step := states[k].client, states[k].log, steps[k];
    if IsSafe(log, i) {
      SafeStays(s, log, step, i);
    } else if step.Resume? {
      ResumeMakesSafe(s, log, step.result, i);
    } else if TakesABeacon(step) {
      BatchIsHanded(s, step.accepted);
      SettledAreSafe(Reported(log, s), HandedBy(s, step.accepted), Handed, i);
    } else {
      StillFlushing(s, log, step);
      FlushStep(wire, ours, states, steps, k);
    }
  }

  lemma StillFlushing(s: QueueState, log: Log, step: Step)
    requires s.flushing && !step.Resume?
    ensures AfterClient(s, log, step).flushing
  {
  }

  lemma {:induction false} BatchIsSafeOrInFlight(
    wire: Item -> Raw, ours: string -> bool, states: seq<State>, steps: seq<Step>, n: nat, i: Item)
    requires IsWire(wire, ours) && IsBehaviour(wire, ours, states, steps) && n <= |steps|
    requires i in states[n].client.batch
    ensures IsSafeOrInFlight(states[n], i)
  {
    if n > 0 {
      var s, step := states[n - 1], steps[n - 1];
      BatchMeansFlushing(wire, ours, states, steps, n);
      FlushStep(wire, ours, states, steps, n - 1);
      if !TakesBatch(s.client, s.log, step) {
        BatchIsSafeOrInFlight(wire, ours, states, steps, n - 1, i);
        InFlightStaysSafe(wire, ours, states, steps, n - 1, i);
      }
    }
  }

  lemma BatchMeansFlushing(
    wire: Item -> Raw, ours: string -> bool, states: seq<State>, steps: seq<Step>, n: nat)
    requires IsWire(wire, ours) && IsBehaviour(wire, ours, states, steps) && n <= |steps|
    ensures states[n].client.batch != [] <==> states[n].client.flushing
  {
    BehaviourKeepsInvariant(wire, ours, states, steps, n);
  }

  /** From the moment its batch is sent, an item leaves the queue in no other way. */
  lemma {:induction false} SentStaysSafe(
    wire: Item -> Raw, ours: string -> bool, states: seq<State>, steps: seq<Step>, m: nat, n: nat, i: Item)
    requires IsWire(wire, ours) && IsBehaviour(wire, ours, states, steps) && m < n <= |steps|
    requires steps[m].Send? && i in states[m].client.batch
    ensures IsSafeOrInFlight(states[n], i) && (IsSafe(states[n].log, i) || states[n].attempts != [])
  {
    if n == m + 1 {
      BatchIsSafeOrInFlight(wire, ours, states, steps, m, i);
      InFlightStaysSafe(wire, ours, states, steps, m, i);
    } else {
      SentStaysSafe(wire, ours, states, steps, m, n - 1, i);
      if IsSafe(states[n - 1].log, i) {
        BehaviourKeepsInvariant(wire, ours, states, steps, n - 1);
        SafeStays(states[n - 1].client, states[n - 1].log, steps[n - 1], i);
      } else {
        InFlightStaysSafe(wire, ours, states, steps, n - 1, i);
      }
    }
  }

  /** An event the log calls lost was in no batch that was sent, was not handed over, and is not queued. */
  lemma LostWasNeverSent(
    wire: Item -> Raw, ours: string -> bool, states: seq<State>, steps: seq<Step>, m: nat, n: nat, p: nat)
    requires IsWire(wire, ours) && IsBehaviour(wire, ours, states, steps) && m < n <= |steps|
    requires p < |states[n].log.settled| && states[n].log.settled[p].fate.Lost?
    ensures var i := states[n].log.settled[p].item;
            && (steps[m].Send? ==> i !in states[m].client.batch)
            && !IsSafe(states[n].log, i) && i !in states[n].client.queue
  {
    BehaviourKeepsInvariant(wire, ours, states, steps, n);
    var s, log := states[n].client, states[n].log;
    LostIsNowhereElse(s, log, p);
    if steps[m].Send? && log.settled[p].item in states[m].client.batch {
      SentStaysSafe(wire, ours, states, steps, m, n, log.settled[p].item);
    }
  }

  lemma SettledOnce(s: QueueState, log: Log, p: nat, q: nat)
    requires IsFifo(s, log) && IdsDiffer(log.pushed, s.issued) && p < |log.settled| && q < |log.settled|
    requires log.settled[p].item == log.settled[q].item
    ensures p == q
  {
    var gone := Sequences.MapSeq(log.settled, ItemOf);
    assert log.pushed[p] == gone[p] && log.pushed[q] == gone[q];
  }

  lemma LostIsNowhereElse(s: QueueState, log: Log, p: nat)
    requires IsFifo(s, log) && IdsDiffer(log.pushed, s.issued) && p < |log.settled| && log.settled[p].fate.Lost?
    ensures !IsSafe(log, log.settled[p].item) && log.settled[p].item !in s.queue
  {
    forall q: nat | q < |log.settled| && log.settled[q].item == log.settled[p].item
      ensures q == p
    {
      SettledOnce(s, log, p, q);
    }
    assert Sequences.MapSeq(log.settled, ItemOf)[p] == log.settled[p].item;
    SettledIsNotQueued(s, log, log.settled[p].item);
  }

  // --- What a run loses, by what was done with each event ------------------------------

  /** The step sends the item: in the batch of an attempt, or with a beacon that is taken. */
  predicate Sends(s: State, step: Step, i: Item) {
    || (step.Send? && i in s.client.batch)
    || (step.Hide? && s.client.queue != [] && i in HandedBy(s.client, step.accepted))
  }

  /** The item was queued and is gone, nothing ever sent it, and it is not among the drops counted. */
  ghost predicate VanishedUnsent(states: seq<State>, steps: seq<Step>, n: nat, i: Item)
    requires |states| == |steps| + 1 && n <= |steps|
  {
    && i in states[n].log.pushed && i !in states[n].client.queue
    && Settled(i, Failed) !in states[n].log.settled
    && forall m :: 0 <= m < n ==> !Sends(states[m], steps[m], i)
  }

  /** Attempts at a batch in flight were made by steps that sent it. */
  lemma {:induction false} AttemptsWereSent(
    wire: Item -> Raw, ours: string -> bool, states: seq<State>, steps: seq<Step>, n: nat) returns (m: nat)
    requires IsWire(wire, ours) && IsBehaviour(wire, ours, states, steps) && n <= |steps|
    requires states[n].client.flushing && states[n].attempts != []
    ensures m < n && steps[m].Send? && states[m].client.batch == states[n].client.batch
  {
    var s, step := states[n - 1], steps[n - 1];
    BehaviourKeepsInvariant(wire, ours, states, steps, n - 1);
    FlushStep(wire, ours, states, steps, n - 1);
    if step.Send? {
      m := n - 1;
    } else {
      m := AttemptsWereSent(wire, ours, states, steps, n - 1);
    }
  }

  lemma SettledNow(before: Log, after: Log, gone: seq<Item>, fate: Fate, p: nat)
    requires after.settled == before.settled + Settle(gone, fate) && |before.settled| <= p < |after.settled|
    ensures after.settled[p].fate == fate && after.settled[p].item in gone
  {
    var k := p - |before.settled|;
    assert Settle(gone, fate)[k] == Settled(gone[k], fate);
  }

  /** Delivered and handed over are fates of what was sent. */
  lemma NewFateHasACause(
    wire: Item -> Raw, ours: string -> bool, states: seq<State>, steps: seq<Step>, k: nat, p: nat) returns (m: nat)
    requires IsWire(wire, ours) && IsBehaviour(wire, ours, states, steps) && k < |steps|
    requires |states[k].log.settled| <= p < |states[k + 1].log.settled|
    requires states[k + 1].log.settled[p].fate.Delivered? || states[k + 1].log.settled[p].fate.Handed?
    ensures m <= k && Sends(states[m], steps[m], states[k + 1].log.settled[p].item)
  {
    BehaviourKeepsInvariant(wire, ours, states, steps, k);
    var s, log, step := states[k].client, states[k].log, steps[k];
    if step.Hide? {
      SettledNow(log, states[k + 1].log, HandedBy(s, step.accepted), Handed, p);
      m := k;
    } else {
      SettledNow(log, states[k + 1].log, Removed(s), FateOfRemoved(s, step.result), p);
      assert Removed(s) == s.batch;
      m := AttemptsWereSent(wire, ours, states, steps, k);
    }
  }

  lemma {:induction false} FateHasACause(
    wire: Item -> Raw, ours: string -> bool, states: seq<State>, steps: seq<Step>, n: nat, p: nat) returns (m: nat)
    requires IsWire(wire, ours) && IsBehaviour(wire, ours, states, steps) && n <= |steps|
    requires p < |states[n].log.settled|
    requires states[n].log.settled[p].fate.Delivered? || states[n].log.settled[p].fate.Handed?
    ensures m < n && Sends(states[m], steps[m], states[n].log.settled[p].item)
  {
    RunStepLosesIff(wire, ours, states, steps, n - 1);
    if p < |states[n - 1].log.settled| {
      assert states[n].log.settled[p] == states[n - 1].log.settled[p];
      m := FateHasACause(wire, ours, states, steps, n - 1, p);
    } else {
      m := NewFateHasACause(wire, ours, states, steps, n - 1, p);
    }
  }

  lemma {:induction false} HandedStaysSafe(
    wire: Item -> Raw, ours: string -> bool, states: seq<State>, steps: seq<Step>, m: nat, n: nat, i: Item)
    requires IsWire(wire, ours) && IsBehaviour(wire, ours, states, steps) && m < n <= |steps|
    requires steps[m].Hide? && Sends(states[m], steps[m], i)
    ensures IsSafe(states[n].log, i)
  {
    var s := states[n - 1];
    if n == m + 1 {
      SettledAreSafe(Reported(s.log, s.client), HandedBy(s.client, steps[m].accepted), Handed, i);
    } else {
      HandedStaysSafe(wire, ours, states, steps, m, n - 1, i);
      BehaviourKeepsInvariant(wire, ours, states, steps, n - 1);
      SafeStays(s.client, s.log, steps[n - 1], i);
    }
  }

  lemma LostVanished(
    wire: Item -> Raw, ours: string -> bool, states: seq<State>, steps: seq<Step>, n: nat, p: nat)
    requires IsWire(wire, ours) && IsBehaviour(wire, ours, states, steps) && n <= |steps|
    requires p < |states[n].log.settled| && states[n].log.settled[p].fate.Lost?
    ensures VanishedUnsent(states, steps, n, states[n].log.settled[p].item)
  {
    var log, i := states[n].log, states[n].log.settled[p].item;
    BehaviourKeepsInvariant(wire, ours, states, steps, n);
    LostIsNowhereElse(states[n].client, log, p);
    assert Sequences.MapSeq(log.settled, ItemOf)[p] == i;
    forall m | 0 <= m < n
      ensures !Sends(states[m], steps[m], i)
    {
      LostWasNeverSent(wire, ours, states, steps, m, n, p);
      if steps[m].Hide? && Sends(states[m], steps[m], i) {
        HandedStaysSafe(wire, ours, states, steps, m, n, i);
      }
    }
  }

  lemma VanishedWasLost(
    wire: Item -> Raw, ours: string -> bool, states: seq<State>, steps: seq<Step>, n: nat, i: Item)
    requires IsWire(wire, ours) && IsBehaviour(wire, ours, states, steps) && n <= |steps|
    requires VanishedUnsent(states, steps, n, i)
    ensures LosesFrom(states[n].log, 0)
  {
    BehaviourKeepsInvariant(wire, ours, states, steps, n);
    var log := states[n].log;
    var gone := Sequences.MapSeq(log.settled, ItemOf);
    assert log.pushed == gone + states[n].client.queue;
    var p :| 0 <= p < |gone| && gone[p] == i;
    if log.settled[p].fate.Delivered? || log.settled[p].fate.Handed? {
      var m := FateHasACause(wire, ours, states, steps, n, p);
    }
    assert log.settled[p] == Settled(i, log.settled[p].fate);
  }

  /**
   Some event vanishes - queued, never sent, and counted nowhere - exactly in the runs
   in which an accepted batch was displaced and something was left in the queue.
   */
  lemma RunLosesIff(wire: Item -> Raw, ours: string -> bool, states: seq<State>, steps: seq<Step>, n: nat)
    requires IsWire(wire, ours) && IsBehaviour(wire, ours, states, steps) && n <= |steps|
    ensures (exists i :: VanishedUnsent(states, steps, n, i)) <==> exists k :: 0 <= k < n && LosesAt(states, steps, k)
  {
    SomeFateIsLostIff(wire, ours, states, steps, n);
    if i :| VanishedUnsent(states, steps, n, i) {
      VanishedWasLost(wire, ours, states, steps, n, i);
    }
    if LosesFrom(states[n].log, 0) {
      var p :| 0 <= p < |states[n].log.settled| && states[n].log.settled[p].fate.Lost?;
      LostVanished(wire, ours, states, steps, n, p);
    }
  }

  // --- A run that loses an event -------------------------------------------------------

  lemma BeaconTakesTheOnlyItem(s: QueueState)
    requires |s.queue| == 1 && s.dropped == []
    ensures AfterHide(s, 1) == s.(queue := []) && HandedBy(s, 1) == s.queue
  {
    assert ReportsOf(s.dropped, s.issued)[..0] == [];
    assert AfterReport(s) == s;
    assert AfterBeacons(s.queue, 1) == AfterBeacons(Spliced(s.queue, MAX_BATCH_SIZE), 0) == [];
  }

  lemma FirstInFlight(wire: Item -> Raw, ours: string -> bool) returns (run: Run)
    ensures IsRun(wire, ours, run) && Last(run).attempts == [Acknowledged] && Last(run).log.calls == 1
    ensures Last(run).client == QueueState([Tracked(0, 0)], true, [Tracked(0, 0)], [], 1)
  {
    run := Run([State(EMPTY, NOTHING, [], [])], []);
    run := Extend(wire, ours, run, TrackCall(true));
    assert Last(run).client == QueueState([Tracked(0, 0)], false, [], [], 1);
    run := Extend(wire, ours, run, Timer);
    assert Last(run).client == QueueState([Tracked(0, 0)], true, [Tracked(0, 0)], [], 1);
    run := Extend(wire, ours, run, Send(Acknowledged));
  }

  /**
   The second call's event is queued while the first one's batch is in flight and
   after a beacon took that batch: the flush takes it off the queue unsent.
   */
  lemma AHideCanLoseAnEvent(wire: Item -> Raw, ours: string -> bool) returns (run: Run)
    ensures IsRun(wire, ours, run)
    ensures IsAt(Last(run).client, Last(run).log, 1, Out(Lost)) && Last(run).client.dropped == []
  {
    run := FirstInFlight(wire, ours);
    BeaconTakesTheOnlyItem(Last(run).client);
    run := Extend(wire, ours, run, Hide(1, [false]));
    assert Last(run).client == QueueState([], true, [Tracked(0, 0)], [], 1) && Last(run).log.calls == 1;
    run := Extend(wire, ours, run, TrackCall(true));
    assert Last(run).client == QueueState([Tracked(1, 1)], true, [Tracked(0, 0)], [], 2);
    run := LoseTheSecond(wire, ours, run);
  }

  lemma LoseTheSecond(wire: Item -> Raw, ours: string -> bool, run: Run) returns (longer: Run)
    requires IsRun(wire, ours, run) && Last(run).attempts == [Acknowledged]
    requires Last(run).client == QueueState([Tracked(1, 1)], true, [Tracked(0, 0)], [], 2)
    ensures IsRun(wire, ours, longer)
    ensures IsAt(Last(longer).client, Last(longer).log, 1, Out(Lost)) && Last(longer).client.dropped == []
  {
    var s := Last(run).client;
    assert s.batch[0] != s.queue[0];
    assert Removed(s) == [Tracked(1, 1)] && IsDisplaced(s);
    longer := Extend(wire, ours, run, Resume(SendResult.Accepted));
    var settled := Last(longer).log.settled;
    assert settled[|settled| - 1] == Settled(Tracked(1, 1), Lost);
  }
}

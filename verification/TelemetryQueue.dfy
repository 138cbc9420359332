/**
 The frontend's telemetry queue (uis/backoffice/services/telemetry-service.ts).

 JavaScript runs one stretch at a time between two awaits, so each stretch is one
 step: a `track` call, the start of a `flush`, its continuation when a batch has
 been sent or given up, and the best-effort flush when the page goes away.
 */
module TelemetryQueue {

  const FLUSH_THRESHOLD: nat := 20
  const MAX_BATCH_SIZE: nat := 100
  const MAX_QUEUE_SIZE: nat := 500
  const MAX_RETRIES: nat := 3

  datatype DropReason = BufferFull | SchemaRejected | TransportFailed

  /** A queued event: one a `track` call made, or a report of dropped events. */
  datatype Item = Tracked(id: nat, call: nat) | DropReport(id: nat, reason: DropReason, count: nat)

  /** One entry of the `dropped` map, in insertion order. */
  datatype Tally = Tally(reason: DropReason, count: nat)

  /**
   The fields of the service, and the batch its suspended `flush` holds. Event ids
   are random in the source; here they count up, which keeps them different.
   */
  datatype QueueState = QueueState(
    queue: seq<Item>, flushing: bool, batch: seq<Item>, dropped: seq<Tally>, issued: nat)

  /** How sending a batch ends. Serialising it may throw before anything is sent. */
  datatype SendResult = Accepted | GivenUp | Threw

  const EMPTY: QueueState := QueueState([], false, [], [], 0)

  // --- Steps, as functions of the state ------------------------------------------------

  function Recorded(dropped: seq<Tally>, reason: DropReason, count: nat): seq<Tally> {
    if dropped == [] then [Tally(reason, count)]
    else if dropped[0].reason == reason then [Tally(reason, dropped[0].count + count)] + dropped[1..]
    else [dropped[0]] + Recorded(dropped[1..], reason, count)
  }

  function Smaller(a: nat, b: nat): nat { if a < b then a else b }

  function Room(queue: seq<Item>): nat {
    if |queue| < MAX_QUEUE_SIZE then MAX_QUEUE_SIZE - |queue| else 0
  }

  function ReportsOf(dropped: seq<Tally>, issued: nat): seq<Item> {
    seq(|dropped|, i requires 0 <= i < |dropped| => DropReport(issued + i, dropped[i].reason, dropped[i].count))
  }

  /** `reportDrops`: one event per reason while the queue has room; cut short, it forgets nothing. */
  function AfterReport(s: QueueState): QueueState {
    var reports := Smaller(|s.dropped|, Room(s.queue));
    s.(queue := s.queue + ReportsOf(s.dropped, s.issued)[..reports],
       issued := s.issued + reports,
       dropped := if reports == |s.dropped| then [] else s.dropped)
  }

  predicate IsCutShort(s: QueueState) {
    0 < Room(s.queue) < |s.dropped|
  }

  function EndFlush(s: QueueState): QueueState {
    AfterReport(s.(flushing := false, batch := []))
  }

  function FirstOf(queue: seq<Item>): seq<Item> {
    queue[..Smaller(MAX_BATCH_SIZE, |queue|)]
  }

  /** The stretch of `flush` up to its first await, when fetch is available. */
  function AfterFlushStart(s: QueueState): QueueState {
    if s.flushing then s
    else if s.queue == [] then EndFlush(s)
    else s.(flushing := true, batch := FirstOf(s.queue))
  }

  function AfterTrack(s: QueueState, call: nat, valid: bool): QueueState {
    if !valid then s.(dropped := Recorded(s.dropped, SchemaRejected, 1))
    else if |s.queue| >= MAX_QUEUE_SIZE then s.(dropped := Recorded(s.dropped, BufferFull, 1))
    else
      var t := s.(queue := s.queue + [Tracked(s.issued, call)], issued := s.issued + 1);
      if |t.queue| >= FLUSH_THRESHOLD then AfterFlushStart(t) else t
  }

  /** `queue.splice(0, n)`. */
  function Spliced(queue: seq<Item>, n: nat): seq<Item> {
    queue[Smaller(n, |queue|)..]
  }

  /** The stretch of `flush` after a batch was sent or given up. */
  function AfterResume(s: QueueState, result: SendResult): QueueState {
    match result
    case Threw => EndFlush(s)
    case Accepted =>
      var rest := Spliced(s.queue, |s.batch|);
      if rest == [] then EndFlush(s.(queue := rest)) else s.(queue := rest, batch := FirstOf(rest))
    case GivenUp =>
      EndFlush(s.(queue := Spliced(s.queue, |s.batch|), dropped := Recorded(s.dropped, TransportFailed, |s.batch|)))
  }

  /** How much of the queue is left after the beacon took up to `accepted` batches. */
  function AfterBeacons(queue: seq<Item>, accepted: nat): (left: seq<Item>)
    ensures |left| <= |queue|
  {
    if queue == [] || accepted == 0 then queue
    else AfterBeacons(Spliced(queue, MAX_BATCH_SIZE), accepted - 1)
  }

  function AfterHide(s: QueueState, accepted: nat): QueueState {
    if s.queue == [] then s
    else
      var t := AfterReport(s);
      t.(queue := AfterBeacons(t.queue, accepted))
  }

  // --- The service object --------------------------------------------------------------

  /** The answer to one attempt at sending a batch. */
  datatype Reply = Ok | ClientError | RetryLater | NoReply

  class TelemetryService {
    const enabled: bool
    const hasFetch: bool
    const hasBeacon: bool
    var queue: seq<Item>
    var flushing: bool
    var batch: seq<Item>
    var dropped: seq<Tally>
    var issued: nat

    constructor (enabled: bool, hasFetch: bool, hasBeacon: bool)
      ensures View() == EMPTY
      ensures this.enabled == enabled && this.hasFetch == hasFetch && this.hasBeacon == hasBeacon
    {
      this.enabled, this.hasFetch, this.hasBeacon := enabled, hasFetch, hasBeacon;
      queue, flushing, batch, dropped, issued := [], false, [], [], 0;
    }

    function View(): QueueState
      reads this
    {
      QueueState(queue, flushing, batch, dropped, issued)
    }

    method RecordDrop(reason: DropReason, count: nat)
      modifies this`dropped
      ensures dropped == Recorded(old(dropped), reason, count)
    {
      dropped := Recorded(dropped, reason, count);
    }

    method ReportDrops()
      modifies this
      ensures View() == AfterReport(old(View()))
    {
      if dropped == [] {
        assert ReportsOf(dropped, issued)[..0] == [];
        return;
      }
      ghost var first, before := issued, queue;
      var i := 0;
      while i < |dropped|
        invariant 0 <= i <= |dropped| && dropped == old(dropped)
        invariant flushing == old(flushing) && batch == old(batch)
        invariant issued == first + i && i <= Room(before)
        invariant queue == before + ReportsOf(dropped, first)[..i]
      {
        if |queue| >= MAX_QUEUE_SIZE {
          return;
        }
        queue := queue + [DropReport(issued, dropped[i].reason, dropped[i].count)];
        issued := issued + 1;
        i := i + 1;
      }
      dropped := [];
    }

    method Track(call: nat, valid: bool)
      modifies this
      ensures View() == if !enabled then old(View())
                        else if hasFetch then AfterTrack(old(View()), call, valid)
                        else TrackedWithoutFetch(old(View()), call, valid)
    {
      if !enabled {
        return;
      }
      if !valid {
        RecordDrop(SchemaRejected, 1);
        return;
      }
      if |queue| >= MAX_QUEUE_SIZE {
        RecordDrop(BufferFull, 1);
        return;
      }
      queue := queue + [Tracked(issued, call)];
      issued := issued + 1;
      if |queue| >= FLUSH_THRESHOLD {
        StartFlush();
      }
    }

    method StartFlush()
      modifies this
      ensures View() == if enabled && hasFetch then AfterFlushStart(old(View())) else old(View())
    {
      if flushing || !enabled || !hasFetch {
        return;
      }
      flushing := true;
      if |queue| > 0 {
        batch := FirstOf(queue);
        return;
      }
      flushing, batch := false, [];
      ReportDrops();
    }

    /** The rest of `flush`, when the batch it awaits has been sent or given up. */
    method ResumeFlush(result: SendResult)
      requires flushing
      modifies this
      ensures View() == AfterResume(old(View()), result)
    {
      if !result.Threw? {
        var sent := |batch|;
        queue := Spliced(queue, sent);
        if result.GivenUp? {
          RecordDrop(TransportFailed, sent);
        } else if |queue| > 0 {
          batch := FirstOf(queue);
          return;
        }
      }
      flushing, batch := false, [];
      ReportDrops();
    }

    /** `beacons[k]`: whether the browser takes the k-th batch it is offered. */
    method FlushOnHide(beacons: nat -> bool) returns (accepted: nat)
      modifies this
      ensures View() == if enabled && hasBeacon then AfterHide(old(View()), accepted) else old(View())
      ensures forall k :: 0 <= k < accepted ==> beacons(k)
      ensures enabled && hasBeacon && queue != [] ==> !beacons(accepted)
    {
      accepted := 0;
      if !enabled || !hasBeacon || |queue| == 0 {
        return;
      }
      ReportDrops();
      ghost var start := View();
      while |queue| > 0
        invariant View() == start.(queue := queue)
        invariant forall k :: 0 <= k < accepted ==> beacons(k)
        invariant AfterBeacons(start.queue, accepted) == queue
        decreases |queue|
      {
        if !beacons(accepted) {
          return;
        }
        BeaconStep(start.queue, accepted);
        queue := Spliced(queue, MAX_BATCH_SIZE);
        accepted := accepted + 1;
      }
    }

    /** At most one attempt and three retries, until one is accepted or refused for good. */
    method SendWithRetry(replies: seq<Reply>) returns (delivered: bool, attempts: nat)
      requires |replies| == MAX_RETRIES + 1
      ensures 1 <= attempts <= 4
      ensures forall j :: 0 <= j < attempts - 1 ==> replies[j] == RetryLater || replies[j] == NoReply
      ensures attempts < 4 ==> replies[attempts - 1] == Ok || replies[attempts - 1] == ClientError
      ensures delivered <==> replies[attempts - 1] == Ok
    {
      for attempt := 0 to MAX_RETRIES + 1
        invariant forall j :: 0 <= j < attempt ==> replies[j] == RetryLater || replies[j] == NoReply
      {
        if replies[attempt].Ok? {
          return true, attempt + 1;
        }
        if replies[attempt].ClientError? {
          return false, attempt + 1;
        }
      }
      return false, MAX_RETRIES + 1;
    }
  }

  /** Without fetch nothing is ever sent: events only queue up. */
  function TrackedWithoutFetch(s: QueueState, call: nat, valid: bool): QueueState {
    if !valid then s.(dropped := Recorded(s.dropped, SchemaRejected, 1))
    else if |s.queue| >= MAX_QUEUE_SIZE then s.(dropped := Recorded(s.dropped, BufferFull, 1))
    else s.(queue := s.queue + [Tracked(s.issued, call)], issued := s.issued + 1)
  }

  lemma {:induction false} BeaconStep(queue: seq<Item>, accepted: nat)
    requires AfterBeacons(queue, accepted) != []
    ensures AfterBeacons(queue, accepted + 1) == Spliced(AfterBeacons(queue, accepted), MAX_BATCH_SIZE)
  {
    if accepted > 0 {
      BeaconStep(Spliced(queue, MAX_BATCH_SIZE), accepted - 1);
    } else {
      assert AfterBeacons(Spliced(queue, MAX_BATCH_SIZE), 0) == Spliced(queue, MAX_BATCH_SIZE);
    }
  }

  // --- What the steps do ---------------------------------------------------------------

  /** How many drops of a reason wait to be reported. */
  function Waiting(dropped: seq<Tally>, reason: DropReason): nat {
    if dropped == [] then 0
    else (if dropped[0].reason == reason then dropped[0].count else 0) + Waiting(dropped[1..], reason)
  }

  lemma {:induction false} RecordingAdds(dropped: seq<Tally>, reason: DropReason, count: nat, other: DropReason)
    ensures Waiting(Recorded(dropped, reason, count), other)
         == Waiting(dropped, other) + (if other == reason then count else 0)
  {
    if dropped != [] && dropped[0].reason != reason {
      RecordingAdds(dropped[1..], reason, count, other);
    }
  }

  /** Only the count of dropped events may differ, by `count` under one reason. */
  ghost predicate OnlyDrops(s: QueueState, t: QueueState, reason: DropReason, count: nat) {
    && t == s.(dropped := t.dropped)
    && forall r :: Waiting(t.dropped, r) == Waiting(s.dropped, r) + (if r == reason then count else 0)
  }

  /**
   A valid call joins the end of a queue under 500 and starts a flush of the first
   hundred once twenty wait; any other call is only counted, under its reason.
   */
  lemma TrackQueuesOrDrops(s: QueueState, call: nat, valid: bool)
    ensures var t := AfterTrack(s, call, valid);
            && (!valid ==> OnlyDrops(s, t, SchemaRejected, 1))
            && (valid && |s.queue| >= 500 ==> OnlyDrops(s, t, BufferFull, 1))
            && (valid && |s.queue| < 500 ==>
                  && t.queue == s.queue + [Tracked(s.issued, call)] && t.dropped == s.dropped
                  && t.issued == s.issued + 1
                  && (t.flushing <==> s.flushing || |s.queue| >= 19)
                  && t.batch == if s.flushing || |s.queue| < 19 then s.batch
                                else if |t.queue| < 100 then t.queue else t.queue[..100])
  {
    forall r
      ensures Waiting(Recorded(s.dropped, SchemaRejected, 1), r)
           == Waiting(s.dropped, r) + (if r == SchemaRejected then 1 else 0)
      ensures Waiting(Recorded(s.dropped, BufferFull, 1), r)
           == Waiting(s.dropped, r) + (if r == BufferFull then 1 else 0)
    {
      RecordingAdds(s.dropped, SchemaRejected, 1, r);
      RecordingAdds(s.dropped, BufferFull, 1, r);
    }
  }

  /** Without fetch a call still queues or is counted, and no flush ever starts. */
  lemma WithoutFetchEventsWait(s: QueueState, call: nat, valid: bool)
    ensures var t, sending := TrackedWithoutFetch(s, call, valid), AfterTrack(s, call, valid);
            t == sending.(flushing := s.flushing, batch := s.batch)
  {
  }
}

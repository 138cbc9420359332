/**
 The process-local cache of the public incident reads
 (services/incidents/read_cache.py): least recently used, time bounded and byte
 bounded, with a generation that `clear` advances.

 Every method runs under one lock, so each is one step. Entries are listed from
 the least to the most recently used, the order of the source's ordered dict.
 */
module ReadCache {
  import opened Common
  import opened Sequences

  newtype Byte = x: int | 0 <= x < 256

  type Payload = seq<Byte>

  type CacheKey = seq<Option<string>>

  // Microseconds of the monotonic clock.
  type Instant = int

  const READ_CACHE_TTL: Instant := 15_000_000
  const READ_CACHE_MAX_ENTRIES: nat := 8
  const READ_CACHE_MAX_BYTES: nat := 8 * 1024 * 1024

  datatype Limits = Limits(ttl: Instant, maxEntries: nat, maxBytes: nat)

  datatype Entry = Entry(key: CacheKey, expiresAt: Instant, payload: Payload)

  datatype CacheState = CacheState(entries: seq<Entry>, generation: nat)

  predicate ValidLimits(limits: Limits) {
    limits.ttl > 0 && limits.maxEntries >= 1 && limits.maxBytes >= 1
  }

  // --- Operations, as functions of the state -------------------------------------------

  predicate Holds(entries: seq<Entry>, key: CacheKey) {
    exists i :: 0 <= i < |entries| && entries[i].key == key
  }

  function Find(entries: seq<Entry>, key: CacheKey): Option<Entry> {
    if entries == [] then None
    else if entries[0].key == key then Some(entries[0])
    else Find(entries[1..], key)
  }

  function Without(entries: seq<Entry>, key: CacheKey): seq<Entry> {
    Filter(entries, (e: Entry) => e.key != key)
  }

  function BytesOf(e: Entry): int { |e.payload| }

  function Bytes(entries: seq<Entry>): int { SumOf(entries, BytesOf) }

  predicate Fits(limits: Limits, entries: seq<Entry>) {
    |entries| <= limits.maxEntries && Bytes(entries) <= limits.maxBytes
  }

  function Live(now: Instant): Entry -> bool { (e: Entry) => e.expiresAt > now }

  function AfterGet(s: CacheState, key: CacheKey, now: Instant): (CacheState, Option<Payload>) {
    match Find(s.entries, key)
    case None => (s, None)
    case Some(e) =>
      if e.expiresAt <= now then (s.(entries := Without(s.entries, key)), None)
      else (s.(entries := Without(s.entries, key) + [e]), Some(e.payload))
  }

  /** Drops entries, least recently used first, until the rest fits. */
  function Evicted(limits: Limits, entries: seq<Entry>): seq<Entry> {
    if Fits(limits, entries) || entries == [] then entries else Evicted(limits, entries[1..])
  }

  predicate IsAccepted(limits: Limits, generation: nat, payload: Payload, expected: Option<nat>) {
    |payload| <= limits.maxBytes && (expected.None? || expected.value == generation)
  }

  function AfterSet(
    limits: Limits, s: CacheState, key: CacheKey, payload: Payload, expected: Option<nat>, now: Instant): CacheState
  {
    if !IsAccepted(limits, s.generation, payload, expected) then s
    else s.(entries := Evicted(limits, Without(s.entries, key) + [Entry(key, now + limits.ttl, payload)]))
  }

  function AfterClear(s: CacheState): CacheState {
    CacheState([], s.generation + 1)
  }

  function AfterStats(s: CacheState, now: Instant): CacheState {
    s.(entries := Filter(s.entries, Live(now)))
  }

  // --- The cache object ----------------------------------------------------------------

  class IncidentReadCache {
    const limits: Limits
    var entries: seq<Entry>
    var generation: nat

    function View(): CacheState
      reads this
    {
      CacheState(entries, generation)
    }

    predicate Valid()
      reads this
    {
      ValidLimits(limits) && IsSound(limits, View())
    }

    constructor (ttl: Instant, maxEntries: nat, maxBytes: nat)
      requires ttl > 0 && maxEntries >= 1 && maxBytes >= 1
      ensures Valid() && limits == Limits(ttl, maxEntries, maxBytes)
      ensures View() == CacheState([], 0)
    {
      limits := Limits(ttl, maxEntries, maxBytes);
      entries := [];
      generation := 0;
    }

    method Get(key: CacheKey, now: Instant) returns (payload: Option<Payload>)
      requires Valid()
      modifies this
      ensures Valid()
      ensures (View(), payload) == AfterGet(old(View()), key, now)
    {
      GetKeepsSound(limits, View(), key, now);
      var entry := Find(entries, key);
      if entry.None? {
        return None;
      }
      if entry.value.expiresAt <= now {
        entries := Without(entries, key);
        return None;
      }
      entries := Without(entries, key) + [entry.value];
      return Some(entry.value.payload);
    }

    /** An accepted entry goes last and survives; the oldest make room for it. */
    method Set(key: CacheKey, payload: Payload, expected: Option<nat>, now: Instant)
      requires Valid()
      modifies this
      ensures Valid()
      ensures View() == AfterSet(limits, old(View()), key, payload, expected, now)
      ensures IsAccepted(limits, old(generation), payload, expected) ==>
                var recent := Without(old(entries), key) + [Entry(key, now + limits.ttl, payload)];
                IsLongestFittingSuffix(limits, recent, entries) && entries != []
    {
      if |payload| > limits.maxBytes {
        return;
      }
      if expected.Some? && expected.value != generation {
        return;
      }
      ghost var recent := Without(entries, key) + [Entry(key, now + limits.ttl, payload)];
      SetKeepsSound(limits, View(), key, payload, expected, now);
      AcceptedEntrySurvives(limits, View(), key, payload, expected, now);
      EvictedIsASuffix(limits, recent);
      entries := Without(entries, key) + [Entry(key, now + limits.ttl, payload)];
      while |entries| > limits.maxEntries || Bytes(entries) > limits.maxBytes
        invariant Evicted(limits, entries) == Evicted(limits, recent)
        invariant generation == old(generation)
        decreases |entries|
      {
        entries := entries[1..];
      }
    }

    method Clear()
      requires Valid()
      modifies this
      ensures Valid()
      ensures View() == AfterClear(old(View()))
    {
      generation := generation + 1;
      entries := [];
    }

    /** The number of live entries and of their bytes; expired ones are removed. */
    method Stats(now: Instant) returns (count: nat, bytes: int)
      requires Valid()
      modifies this
      ensures Valid()
      ensures View() == AfterStats(old(View()), now)
      ensures count == |entries| && bytes == Bytes(entries)
    {
      StatsKeepSound(limits, View(), now);
      var all := entries;
      var live := [];
      for i := 0 to |all|
        invariant entries == all && generation == old(generation)
        invariant live == Filter(all[..i], Live(now))
      {
        assert all[..i + 1] == all[..i] + [all[i]];
        FilterAppends(all[..i], [all[i]], Live(now));
        if all[i].expiresAt > now {
          live := live + [all[i]];
        }
      }
      assert all[..|all|] == all;
      entries := live;
      return |entries|, Bytes(entries);
    }
  }

  // --- Eviction ------------------------------------------------------------------------

  /** `kept` is what remains of `recent` after dropping as few old entries as possible. */
  ghost predicate IsLongestFittingSuffix(limits: Limits, recent: seq<Entry>, kept: seq<Entry>) {
    && Fits(limits, kept)
    && exists i: nat :: i <= |recent| && kept == recent[i..] && forall j :: 0 <= j < i ==> !Fits(limits, recent[j..])
  }

  lemma NewestAloneFits(limits: Limits, older: seq<Entry>, newest: Entry)
    requires ValidLimits(limits) && |newest.payload| <= limits.maxBytes
    ensures var recent := older + [newest]; Fits(limits, recent[|recent| - 1..])
    ensures forall j :: 0 <= j < |older + [newest]| && !Fits(limits, (older + [newest])[j..]) ==> j < |older|
  {
    assert SumOf([newest], BytesOf) == BytesOf(newest) + SumOf([newest][1..], BytesOf);
  }

  lemma {:induction false} EvictedIsASuffix(limits: Limits, recent: seq<Entry>)
    ensures IsLongestFittingSuffix(limits, recent, Evicted(limits, recent))
  {
    if !Fits(limits, recent) && recent != [] {
      EvictedIsASuffix(limits, recent[1..]);
      var kept := Evicted(limits, recent);
      var i: nat :| i <= |recent[1..]| && kept == recent[1..][i..]
                    && forall j :: 0 <= j < i ==> !Fits(limits, recent[1..][j..]);
      forall j | 0 <= j < i + 1
        ensures !Fits(limits, recent[j..])
      {
        if j > 0 {
          assert recent[j..] == recent[1..][j - 1..];
        }
      }
    } else {
      assert recent[0..] == recent;
    }
  }

  /** An accepted entry always survives its own `set`, as the most recent one. */
  lemma AcceptedEntrySurvives(
    limits: Limits, s: CacheState, key: CacheKey, payload: Payload, expected: Option<nat>, now: Instant)
    requires ValidLimits(limits) && IsAccepted(limits, s.generation, payload, expected)
    ensures var after := AfterSet(limits, s, key, payload, expected, now).entries;
            after != [] && after[|after| - 1] == Entry(key, now + limits.ttl, payload)
  {
    var newest := Entry(key, now + limits.ttl, payload);
    var older := Without(s.entries, key);
    EvictedIsASuffix(limits, older + [newest]);
    NewestAloneFits(limits, older, newest);
  }

  // --- Soundness of every state --------------------------------------------------------

  predicate DistinctEntries(entries: seq<Entry>) {
    forall i, j :: 0 <= i < j < |entries| ==> entries[i].key != entries[j].key
  }

  /** One entry per key, within both limits. */
  predicate IsSound(limits: Limits, s: CacheState) {
    DistinctEntries(s.entries) && Fits(limits, s.entries)
  }

  lemma {:induction false} FilterShrinks(entries: seq<Entry>, p: Entry -> bool)
    ensures |Filter(entries, p)| <= |entries| && Bytes(Filter(entries, p)) <= Bytes(entries)
    ensures DistinctEntries(entries) ==> DistinctEntries(Filter(entries, p))
  {
    if entries != [] {
      FilterShrinks(entries[1..], p);
      FilterHolds(entries[1..], p);
      if DistinctEntries(entries) {
        assert forall e :: e in entries[1..] ==> e.key != entries[0].key;
      }
    }
  }

  lemma {:induction false} FindHolds(entries: seq<Entry>, key: CacheKey)
    ensures Find(entries, key).None? <==> !Holds(entries, key)
    ensures Find(entries, key).Some? ==> Find(entries, key).value in entries && Find(entries, key).value.key == key
    ensures Find(entries, key).Some? && DistinctEntries(entries) ==>
              |Without(entries, key)| + 1 == |entries|
              && Bytes(Without(entries, key)) + |Find(entries, key).value.payload| == Bytes(entries)
  {
    if entries != [] {
      FindHolds(entries[1..], key);
      if entries[0].key == key && DistinctEntries(entries) {
        NothingToRemove(entries[1..], key);
      }
    }
  }

  lemma {:induction false} NothingToRemove(entries: seq<Entry>, key: CacheKey)
    requires forall i :: 0 <= i < |entries| ==> entries[i].key != key
    ensures Without(entries, key) == entries
  {
    if entries != [] {
      NothingToRemove(entries[1..], key);
    }
  }

  lemma AppendOne(entries: seq<Entry>, e: Entry)
    requires DistinctEntries(entries)
    ensures DistinctEntries(Without(entries, e.key) + [e])
    ensures Bytes(Without(entries, e.key) + [e]) == Bytes(Without(entries, e.key)) + |e.payload|
  {
    FilterShrinks(entries, (x: Entry) => x.key != e.key);
    FilterHolds(entries, (x: Entry) => x.key != e.key);
    var kept := Without(entries, e.key);
    assert forall i :: 0 <= i < |kept| ==> kept[i] in kept;
    SumAppends(kept, [e], BytesOf);
  }

  lemma GetKeepsSound(limits: Limits, s: CacheState, key: CacheKey, now: Instant)
    requires IsSound(limits, s)
    ensures IsSound(limits, AfterGet(s, key, now).0)
  {
    FindHolds(s.entries, key);
    FilterShrinks(s.entries, (e: Entry) => e.key != key);
    if Find(s.entries, key).Some? {
      AppendOne(s.entries, Find(s.entries, key).value);
    }
  }

  lemma SetKeepsSound(
    limits: Limits, s: CacheState, key: CacheKey, payload: Payload, expected: Option<nat>, now: Instant)
    requires IsSound(limits, s)
    ensures IsSound(limits, AfterSet(limits, s, key, payload, expected, now))
  {
    var newest := Entry(key, now + limits.ttl, payload);
    AppendOne(s.entries, newest);
    EvictedIsASuffix(limits, Without(s.entries, key) + [newest]);
  }

  lemma StatsKeepSound(limits: Limits, s: CacheState, now: Instant)
    requires IsSound(limits, s)
    ensures IsSound(limits, AfterStats(s, now))
  {
    FilterShrinks(s.entries, Live(now));
  }

  // --- Against a map without bounds ----------------------------------------------------

  datatype CacheOp =
    | GetOp(key: CacheKey, at: Instant)
    | SetOp(key: CacheKey, payload: Payload, expected: Option<nat>, at: Instant)
    | ClearOp
    | StatsOp(at: Instant)

  function Apply(limits: Limits, s: CacheState, op: CacheOp): CacheState {
    match op
    case GetOp(key, at) => AfterGet(s, key, at).0
    case SetOp(key, payload, expected, at) => AfterSet(limits, s, key, payload, expected, at)
    case ClearOp => AfterClear(s)
    case StatsOp(at) => AfterStats(s, at)
  }

  function RunCache(limits: Limits, ops: seq<CacheOp>): CacheState {
    if ops == [] then CacheState([], 0)
    else Apply(limits, RunCache(limits, ops[..|ops| - 1]), ops[|ops| - 1])
  }

  /** A map that never evicts or expires: the last accepted `set` of each key since the last `clear`. */
  datatype Unbounded = Unbounded(values: map<CacheKey, (Instant, Payload)>, generation: nat)

  function RunUnbounded(limits: Limits, ops: seq<CacheOp>): Unbounded {
    if ops == [] then Unbounded(map[], 0)
    else
      var s := RunUnbounded(limits, ops[..|ops| - 1]);
      match ops[|ops| - 1]
      case SetOp(key, payload, expected, at) =>
        if IsAccepted(limits, s.generation, payload, expected)
        then s.(values := s.values[key := (at + limits.ttl, payload)])
        else s
      case ClearOp => Unbounded(map[], s.generation + 1)
      case _ => s
  }

  ghost predicate IsSubmap(s: CacheState, u: Unbounded) {
    && s.generation == u.generation
    && forall e :: e in s.entries ==> e.key in u.values && u.values[e.key] == (e.expiresAt, e.payload)
  }

  lemma GetKeepsMembers(s: CacheState, key: CacheKey, now: Instant)
    ensures forall e :: e in AfterGet(s, key, now).0.entries ==> e in s.entries
    ensures AfterGet(s, key, now).0.generation == s.generation
  {
    FilterHolds(s.entries, (e: Entry) => e.key != key);
    FindHolds(s.entries, key);
  }

  lemma SetKeepsMembers(
    limits: Limits, s: CacheState, key: CacheKey, payload: Payload, expected: Option<nat>, now: Instant)
    requires IsAccepted(limits, s.generation, payload, expected)
    ensures forall e :: e in AfterSet(limits, s, key, payload, expected, now).entries ==>
              e == Entry(key, now + limits.ttl, payload) || (e in s.entries && e.key != key)
  {
    FilterHolds(s.entries, (e: Entry) => e.key != key);
    var recent := Without(s.entries, key) + [Entry(key, now + limits.ttl, payload)];
    EvictedIsASuffix(limits, recent);
    assert forall e :: e in AfterSet(limits, s, key, payload, expected, now).entries ==> e in recent;
  }

  /** Over any run, every retained entry is the last accepted value of its key. */
  lemma {:induction false} CacheIsASubmap(limits: Limits, ops: seq<CacheOp>)
    requires ValidLimits(limits)
    ensures IsSound(limits, RunCache(limits, ops))
    ensures IsSubmap(RunCache(limits, ops), RunUnbounded(limits, ops))
  {
    if ops != [] {
      var before, op := ops[..|ops| - 1], ops[|ops| - 1];
      CacheIsASubmap(limits, before);
      var s := RunCache(limits, before);
      match op {
        case GetOp(key, at) =>
          GetKeepsMembers(s, key, at);
          GetKeepsSound(limits, s, key, at);
        case SetOp(key, payload, expected, at) =>
          SetKeepsSound(limits, s, key, payload, expected, at);
          if IsAccepted(limits, s.generation, payload, expected) {
            SetKeepsMembers(limits, s, key, payload, expected, at);
          }
        case ClearOp =>
        case StatsOp(at) =>
          FilterHolds(s.entries, Live(at));
          StatsKeepSound(limits, s, at);
      }
    }
  }

  /**
   Whatever ran before, `get` only ever returns the last accepted payload of its
   key since the last clear, and only before that payload expires.
   */
  lemma GetReturnsTheLiveValue(limits: Limits, ops: seq<CacheOp>, key: CacheKey, now: Instant)
    requires ValidLimits(limits) && AfterGet(RunCache(limits, ops), key, now).1.Some?
    ensures var u := RunUnbounded(limits, ops);
            && key in u.values
            && u.values[key].1 == AfterGet(RunCache(limits, ops), key, now).1.value
            && u.values[key].0 > now
  {
    CacheIsASubmap(limits, ops);
    FindHolds(RunCache(limits, ops).entries, key);
  }
}

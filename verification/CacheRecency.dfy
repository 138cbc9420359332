/**
 The order in which the read cache keeps its entries (services/incidents/read_cache.py):
 least recently used first, over any sequence of calls, so that the limits drop what
 was used longest ago.
 */
module CacheRecency {
  import opened Common
  import opened Sequences
  import opened ReadCache

  // --- When a key was last used --------------------------------------------------------

  /** The call stores an entry of the key, or reads one: `s` is the cache it finds. */
  predicate IsUse(limits: Limits, s: CacheState, op: CacheOp, key: CacheKey) {
    match op
    case SetOp(k, payload, expected, _) =>
      k == key && |payload| <= limits.maxBytes && (expected == None || expected == Some(s.generation))
    case GetOp(k, at) =>
      k == key && exists e :: e in s.entries && e.key == key && at < e.expiresAt
    case _ => false
  }

  /** The place in `ops` of the last call that used the key, -1 when none did. */
  function LastUse(limits: Limits, ops: seq<CacheOp>, key: CacheKey): int {
    if ops == [] then -1
    else
      var before := ops[..|ops| - 1];
      if IsUse(limits, RunCache(limits, before), ops[|ops| - 1], key) then |before|
      else LastUse(limits, before, key)
  }

  function UseOf(limits: Limits, ops: seq<CacheOp>): CacheKey -> int {
    key => LastUse(limits, ops, key)
  }

  /** The entries stand in the order of the numbers their keys have. */
  ghost predicate InOrder(entries: seq<Entry>, use: CacheKey -> int) {
    forall i, j :: 0 <= i < j < |entries| ==> use(entries[i].key) < use(entries[j].key)
  }

  // --- What each call does to the entries ----------------------------------------------

  /** `get` answers exactly when a live entry of the key is held, and with its payload. */
  lemma GetHitsIff(s: CacheState, key: CacheKey, now: Instant)
    requires DistinctEntries(s.entries)
    ensures AfterGet(s, key, now).1.Some? <==> exists e :: e in s.entries && e.key == key && now < e.expiresAt
    ensures forall e :: e in s.entries && e.key == key && now < e.expiresAt ==>
              AfterGet(s, key, now).1 == Some(e.payload)
  {
    FindHolds(s.entries, key);
  }

  /** `get` drops an expired entry of its key and nothing else, and puts a live one last. */
  lemma GetKeepsTheRest(s: CacheState, key: CacheKey, now: Instant)
    requires DistinctEntries(s.entries)
    ensures var after := AfterGet(s, key, now).0;
            && after.generation == s.generation
            && (forall e :: e in after.entries <==> e in s.entries && !(e.key == key && e.expiresAt <= now))
            && (AfterGet(s, key, now).1.Some? ==> after.entries != [] && after.entries[|after.entries| - 1].key == key)
  {
    FindHolds(s.entries, key);
    FilterHolds(s.entries, (e: Entry) => e.key != key);
  }

  /** `stats` drops exactly the expired entries. */
  lemma StatsDropsExpired(s: CacheState, now: Instant)
    ensures AfterStats(s, now).generation == s.generation
    ensures forall e :: e in AfterStats(s, now).entries <==> e in s.entries && now < e.expiresAt
  {
    FilterHolds(s.entries, Live(now));
  }

  /** The number of payload bytes, entry by entry. */
  function Size(entries: seq<Entry>): nat {
    if entries == [] then 0 else Size(entries[..|entries| - 1]) + |entries[|entries| - 1].payload|
  }

  lemma {:induction false} SizeIsBytes(entries: seq<Entry>)
    ensures Size(entries) == Bytes(entries)
  {
    if entries != [] {
      var front, last := entries[..|entries| - 1], [entries[|entries| - 1]];
      SizeIsBytes(front);
      SumAppends(front, last, BytesOf);
      assert entries == front + last && Bytes(last) == |last[0].payload| + Bytes(last[1..]);
    }
  }

  predicate IsWithin(limits: Limits, entries: seq<Entry>) {
    |entries| <= limits.maxEntries && Size(entries) <= limits.maxBytes
  }

  /** Over any run the cache stays within both limits. */
  lemma RunStaysWithinLimits(limits: Limits, ops: seq<CacheOp>)
    requires ValidLimits(limits)
    ensures IsWithin(limits, RunCache(limits, ops).entries)
  {
    CacheIsASubmap(limits, ops);
    FitsIff(limits, RunCache(limits, ops).entries);
  }

  lemma FitsIff(limits: Limits, entries: seq<Entry>)
    ensures Fits(limits, entries) <==> IsWithin(limits, entries)
  {
    SizeIsBytes(entries);
  }

  lemma {:induction false} EvictionCut(limits: Limits, recent: seq<Entry>) returns (dropped: nat)
    ensures dropped <= |recent| && Evicted(limits, recent) == recent[dropped..] && IsWithin(limits, recent[dropped..])
    ensures forall j :: 0 <= j < dropped ==> !IsWithin(limits, recent[j..])
  {
    FitsIff(limits, recent);
    dropped := 0;
    if !Fits(limits, recent) && recent != [] {
      var further := EvictionCut(limits, recent[1..]);
      dropped := further + 1;
      forall j | 0 <= j < dropped
        ensures !IsWithin(limits, recent[j..])
      {
        if j > 0 {
          assert recent[j..] == recent[1..][j - 1..];
        }
      }
    }
  }

  /** An accepted `set` puts its entry last and drops the first ones only while a limit is exceeded. */
  lemma SetDropsOnlyWhatItMust(
    limits: Limits, s: CacheState, key: CacheKey, payload: Payload, expected: Option<nat>, now: Instant)
    returns (dropped: nat)
    requires ValidLimits(limits) && |payload| <= limits.maxBytes
    requires expected == None || expected == Some(s.generation)
    ensures var recent := Without(s.entries, key) + [Entry(key, now + limits.ttl, payload)];
            && dropped < |recent|
            && AfterSet(limits, s, key, payload, expected, now) == CacheState(recent[dropped..], s.generation)
            && IsWithin(limits, recent[dropped..])
            && forall j :: 0 <= j < dropped ==> !IsWithin(limits, recent[j..])
  {
    AcceptedEntrySurvives(limits, s, key, payload, expected, now);
    dropped := EvictionCut(limits, Without(s.entries, key) + [Entry(key, now + limits.ttl, payload)]);
  }

  // --- The order -----------------------------------------------------------------------

  lemma {:induction false} FilterKeepsOrder(entries: seq<Entry>, p: Entry -> bool, use: CacheKey -> int)
    requires InOrder(entries, use)
    ensures InOrder(Filter(entries, p), use)
  {
    if entries != [] {
      assert forall i, j :: 0 <= i < j < |entries[1..]| ==> use(entries[1..][i].key) < use(entries[1..][j].key);
      FilterKeepsOrder(entries[1..], p, use);
      FilterHolds(entries[1..], p);
      var rest := Filter(entries[1..], p);
      forall j | 0 <= j < |rest|
        ensures use(entries[0].key) < use(rest[j].key)
      {
        assert rest[j] in entries[1..];
        var k :| 0 <= k < |entries[1..]| && entries[1..][k] == rest[j];
        assert use(entries[0].key) < use(entries[k + 1].key);
      }
    }
  }

  /** A key used now goes last; the other keys keep their numbers. */
  lemma UsedGoesLast(entries: seq<Entry>, e: Entry, use: CacheKey -> int, now: CacheKey -> int, place: int)
    requires InOrder(entries, use) && now(e.key) == place
    requires forall x :: x in entries && x.key != e.key ==> now(x.key) == use(x.key) < place
    ensures InOrder(Without(entries, e.key) + [e], now)
  {
    var rest := Without(entries, e.key);
    FilterKeepsOrder(entries, (x: Entry) => x.key != e.key, use);
    FilterHolds(entries, (x: Entry) => x.key != e.key);
    assert forall i :: 0 <= i < |rest| ==> rest[i] in rest;
  }

  lemma SameUseSameOrder(entries: seq<Entry>, use: CacheKey -> int, now: CacheKey -> int)
    requires InOrder(entries, use) && forall e :: e in entries ==> now(e.key) == use(e.key)
    ensures InOrder(entries, now)
  {
  }

  lemma {:induction false} LastUseIsAPlace(limits: Limits, ops: seq<CacheOp>, key: CacheKey)
    ensures -1 <= LastUse(limits, ops, key) < |ops|
  {
    if ops != [] {
      LastUseIsAPlace(limits, ops[..|ops| - 1], key);
    }
  }

  lemma GetKeepsOrder(limits: Limits, before: seq<CacheOp>, key: CacheKey, at: Instant)
    requires ValidLimits(limits) && InOrder(RunCache(limits, before).entries, UseOf(limits, before))
    ensures InOrder(AfterGet(RunCache(limits, before), key, at).0.entries, UseOf(limits, before + [GetOp(key, at)]))
  {
    var s, ops := RunCache(limits, before), before + [GetOp(key, at)];
    assert ops[..|ops| - 1] == before;
    CacheIsASubmap(limits, before);
    GetHitsIff(s, key, at);
    FindHolds(s.entries, key);
    var use, now := UseOf(limits, before), UseOf(limits, ops);
    if AfterGet(s, key, at).1.Some? {
      forall x | x in s.entries && x.key != key
        ensures now(x.key) == use(x.key) < |before|
      {
        LastUseIsAPlace(limits, before, x.key);
      }
      UsedGoesLast(s.entries, Find(s.entries, key).value, use, now, |before|);
    } else {
      FilterKeepsOrder(s.entries, (e: Entry) => e.key != key, use);
      SameUseSameOrder(AfterGet(s, key, at).0.entries, use, now);
    }
  }

  lemma SetKeepsOrder(
    limits: Limits, before: seq<CacheOp>, key: CacheKey, payload: Payload, expected: Option<nat>, at: Instant)
    requires InOrder(RunCache(limits, before).entries, UseOf(limits, before))
    requires IsAccepted(limits, RunCache(limits, before).generation, payload, expected)
    ensures var recent := Without(RunCache(limits, before).entries, key) + [Entry(key, at + limits.ttl, payload)];
            InOrder(recent, UseOf(limits, before + [SetOp(key, payload, expected, at)]))
  {
    var s, ops := RunCache(limits, before), before + [SetOp(key, payload, expected, at)];
    assert ops[..|ops| - 1] == before;
    var use, now := UseOf(limits, before), UseOf(limits, ops);
    forall x | x in s.entries && x.key != key
      ensures now(x.key) == use(x.key) < |before|
    {
      LastUseIsAPlace(limits, before, x.key);
    }
    UsedGoesLast(s.entries, Entry(key, at + limits.ttl, payload), use, now, |before|);
  }

  lemma SuffixKeepsOrder(entries: seq<Entry>, i: nat, use: CacheKey -> int)
    requires InOrder(entries, use) && i <= |entries|
    ensures InOrder(entries[i..], use)
  {
  }

  lemma EvictedKeepsOrder(limits: Limits, recent: seq<Entry>, use: CacheKey -> int)
    requires InOrder(recent, use)
    ensures InOrder(Evicted(limits, recent), use)
  {
    var i := EvictionCut(limits, recent);
    SuffixKeepsOrder(recent, i, use);
  }

  lemma StepKeepsOrder(limits: Limits, before: seq<CacheOp>, op: CacheOp)
    requires ValidLimits(limits) && InOrder(RunCache(limits, before).entries, UseOf(limits, before))
    ensures InOrder(Apply(limits, RunCache(limits, before), op).entries, UseOf(limits, before + [op]))
  {
    var s, use, now := RunCache(limits, before), UseOf(limits, before), UseOf(limits, before + [op]);
    assert (before + [op])[..|before + [op]| - 1] == before;
    match op
    case GetOp(key, at) => GetKeepsOrder(limits, before, key, at);
    case SetOp(key, payload, expected, at) =>
      if IsAccepted(limits, s.generation, payload, expected) {
        SetKeepsOrder(limits, before, key, payload, expected, at);
        var recent := Without(s.entries, key) + [Entry(key, at + limits.ttl, payload)];
        EvictedKeepsOrder(limits, recent, now);
      } else {
        SameUseSameOrder(s.entries, use, now);
      }
    case ClearOp =>
    case StatsOp(at) =>
      FilterKeepsOrder(s.entries, Live(at), use);
      SameUseSameOrder(AfterStats(s, at).entries, use, now);
  }

  /**
   Over any sequence of calls the entries stand in the order of their keys' last use:
   the last accepted `set`, or the last `get` that found the entry live.
   */
  lemma EntriesAreInOrderOfLastUse(limits: Limits, ops: seq<CacheOp>, i: nat, j: nat)
    requires ValidLimits(limits) && i < j < |RunCache(limits, ops).entries|
    ensures var entries := RunCache(limits, ops).entries;
            LastUse(limits, ops, entries[i].key) < LastUse(limits, ops, entries[j].key)
  {
    RunKeepsOrder(limits, ops);
    var entries, use := RunCache(limits, ops).entries, UseOf(limits, ops);
    assert use(entries[i].key) < use(entries[j].key);
  }

  lemma {:induction false} RunKeepsOrder(limits: Limits, ops: seq<CacheOp>)
    requires ValidLimits(limits)
    ensures InOrder(RunCache(limits, ops).entries, UseOf(limits, ops))
  {
    if ops != [] {
      var before := ops[..|ops| - 1];
      RunKeepsOrder(limits, before);
      StepKeepsOrder(limits, before, ops[|ops| - 1]);
      assert ops == before + [ops[|ops| - 1]];
    }
  }

  lemma DroppedBeforeKept(limits: Limits, recent: seq<Entry>, use: CacheKey -> int, dropped: Entry, kept: Entry)
    requires InOrder(recent, use)
    requires dropped in recent && dropped !in Evicted(limits, recent) && kept in Evicted(limits, recent)
    ensures use(dropped.key) < use(kept.key)
  {
    var i := EvictionCut(limits, recent);
    var a :| 0 <= a < |recent| && recent[a] == dropped;
    var b :| 0 <= b < |recent[i..]| && recent[i..][b] == kept;
    assert forall k :: i <= k < |recent| ==> recent[i..][k - i] == recent[k];
    assert use(recent[a].key) < use(recent[i + b].key);
  }

  /** What a `set` makes room with was used before everything it keeps. */
  lemma EvictionDropsTheLeastRecent(
    limits: Limits, before: seq<CacheOp>, key: CacheKey, payload: Payload, expected: Option<nat>, at: Instant,
    dropped: Entry, kept: Entry)
    requires ValidLimits(limits) && IsAccepted(limits, RunCache(limits, before).generation, payload, expected)
    requires var ops := before + [SetOp(key, payload, expected, at)];
             && dropped in RunCache(limits, before).entries && dropped.key != key
             && dropped !in RunCache(limits, ops).entries && kept in RunCache(limits, ops).entries
    ensures var ops := before + [SetOp(key, payload, expected, at)];
            LastUse(limits, ops, dropped.key) < LastUse(limits, ops, kept.key)
  {
    var s, ops := RunCache(limits, before), before + [SetOp(key, payload, expected, at)];
    assert ops[..|ops| - 1] == before;
    RunKeepsOrder(limits, before);
    SetKeepsOrder(limits, before, key, payload, expected, at);
    var recent := Without(s.entries, key) + [Entry(key, at + limits.ttl, payload)];
    FilterHolds(s.entries, (e: Entry) => e.key != key);
    DroppedBeforeKept(limits, recent, UseOf(limits, ops), dropped, kept);
  }
}

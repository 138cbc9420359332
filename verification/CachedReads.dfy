/**
 Readers and writers of the incidents sharing one read cache
 (services/incidents/router.py and services/incidents/service.py), interleaved
 step by step.

 A reader looks in the cache; on a miss it reads the generation, computes the
 response from the table, and offers it to the cache with that generation. A
 writer changes the table and then clears the cache. Any number of both run at
 once; each step is one locked cache call or one table access.
 */
module CachedReads {
  import opened Common
  import opened Sequences
  import opened ReadCache

  // The history keeps every content the table had: version v is `history[v]`.
  datatype State<T> = State(
    cache: CacheState,
    history: seq<T>,
    readers: map<int, Reader>,
    pending: set<nat>,
    returned: set<nat>,
    computedAt: map<CacheKey, nat>)

  /**
   A request in flight. `floor` is the set of writes that had returned when it
   started; `version` the table version its payload was computed from.
   */
  datatype Reader =
    | Missed(key: CacheKey, floor: set<nat>)
    | HasGeneration(key: CacheKey, floor: set<nat>, generation: nat)
    | Computed(key: CacheKey, floor: set<nat>, generation: nat, version: nat, payload: Payload)
    | Answered(key: CacheKey, floor: set<nat>, version: nat, payload: Payload)

  datatype Step<T> =
    | LookUp(reader: int, key: CacheKey, now: Instant)
    | ReadGeneration(reader: int)
    | ComputeResponse(reader: int)
    | Offer(reader: int, now: Instant)
    | WriteTable(content: T)
    | ClearAfterWrite(version: nat)
    | CountStats(now: Instant)

  ghost predicate Initial<T>(s: State<T>) {
    && s.cache == CacheState([], 0)
    && |s.history| == 1
    && s.readers == map[] && s.pending == {} && s.returned == {} && s.computedAt == map[]
  }

  function Version<T>(s: State<T>): int { |s.history| - 1 }

  predicate Enabled<T>(s: State<T>, step: Step<T>) {
    match step
    case LookUp(r, _, _) => r !in s.readers
    case ReadGeneration(r) => r in s.readers && s.readers[r].Missed?
    case ComputeResponse(r) => r in s.readers && s.readers[r].HasGeneration? && s.history != []
    case Offer(r, _) => r in s.readers && s.readers[r].Computed?
    case WriteTable(_) => s.history != []
    case ClearAfterWrite(v) => v in s.pending
    case CountStats(_) => true
  }

  /** The next state. `render` is the response a key's request computes from a table content. */
  function After<T>(limits: Limits, render: (T, CacheKey) -> Payload, s: State<T>, step: Step<T>): State<T>
    requires Enabled(s, step)
  {
    match step
    case LookUp(r, key, now) =>
      var (cache, found) := AfterGet(s.cache, key, now);
      var version := if key in s.computedAt then s.computedAt[key] else 0;
      var reader := if found.Some? then Answered(key, s.returned, version, found.value) else Missed(key, s.returned);
      s.(cache := cache, readers := s.readers[r := reader])
    case ReadGeneration(r) =>
      var reader := s.readers[r];
      s.(readers := s.readers[r := HasGeneration(reader.key, reader.floor, s.cache.generation)])
    case ComputeResponse(r) =>
      var reader := s.readers[r];
      var payload := render(s.history[Version(s)], reader.key);
      s.(readers := s.readers[r := Computed(reader.key, reader.floor, reader.generation, Version(s), payload)])
    case Offer(r, now) =>
      var reader := s.readers[r];
      var expected := Some(reader.generation);
      var computedAt := if IsAccepted(limits, s.cache.generation, reader.payload, expected)
                        then s.computedAt[reader.key := reader.version] else s.computedAt;
      s.(cache := AfterSet(limits, s.cache, reader.key, reader.payload, expected, now),
         computedAt := computedAt,
         readers := s.readers[r := Answered(reader.key, reader.floor, reader.version, reader.payload)])
    case WriteTable(content) =>
      s.(history := s.history + [content], pending := s.pending + {|s.history|})
    case ClearAfterWrite(v) =>
      s.(cache := AfterClear(s.cache), pending := s.pending - {v}, returned := s.returned + {v})
    case CountStats(now) =>
      s.(cache := AfterStats(s.cache, now))
  }

  ghost predicate IsBehaviour<T>(
    limits: Limits, render: (T, CacheKey) -> Payload, states: seq<State<T>>, steps: seq<Step<T>>)
  {
    && |states| == |steps| + 1
    && Initial(states[0])
    && forall i :: 0 <= i < |steps|
          ==> Enabled(states[i], steps[i]) && states[i + 1] == After(limits, render, states[i], steps[i])
  }

  // --- The invariant -------------------------------------------------------------------

  /** The payload was computed from version `v` of the table. */
  ghost predicate IsFrom<T>(
    render: (T, CacheKey) -> Payload, history: seq<T>, key: CacheKey, v: nat, payload: Payload) {
    v < |history| && payload == render(history[v], key)
  }

  /** No returned write is newer than version `v`. */
  ghost predicate SeesAll(writes: set<nat>, v: nat) {
    forall u :: u in writes ==> u <= v
  }

  /** Every version after the first was written by a write that is pending or returned. */
  ghost predicate WritesAreKnown(length: nat, pending: set<nat>, returned: set<nat>) {
    && pending !! returned
    && forall v: nat :: (v in pending || v in returned) <==> 1 <= v < length
  }

  ghost predicate EntryIsFresh<T>(
    render: (T, CacheKey) -> Payload, history: seq<T>, returned: set<nat>, computedAt: map<CacheKey, nat>, e: Entry)
  {
    && e.key in computedAt
    && IsFrom(render, history, e.key, computedAt[e.key], e.payload)
    && SeesAll(returned, computedAt[e.key])
  }

  ghost predicate EntriesAreFresh<T>(
    render: (T, CacheKey) -> Payload, history: seq<T>, returned: set<nat>, computedAt: map<CacheKey, nat>,
    entries: seq<Entry>)
  {
    forall e :: e in entries ==> EntryIsFresh(render, history, returned, computedAt, e)
  }

  ghost predicate ReaderIsSound<T>(
    render: (T, CacheKey) -> Payload, history: seq<T>, returned: set<nat>, generation: nat, reader: Reader)
  {
    && reader.floor <= returned
    && match reader
       case Missed(_, _) => true
       case HasGeneration(_, _, g) => g <= generation
       case Computed(key, floor, g, v, payload) =>
         && g <= generation
         && IsFrom(render, history, key, v, payload)
         && SeesAll(floor, v)
         && (g == generation ==> SeesAll(returned, v))
       case Answered(key, floor, v, payload) =>
         && IsFrom(render, history, key, v, payload)
         && SeesAll(floor, v)
  }

  ghost predicate ReadersAreSound<T>(
    render: (T, CacheKey) -> Payload, history: seq<T>, returned: set<nat>, generation: nat, readers: map<int, Reader>)
  {
    forall r :: r in readers ==> ReaderIsSound(render, history, returned, generation, readers[r])
  }

  ghost predicate Invariant<T>(render: (T, CacheKey) -> Payload, s: State<T>) {
    && s.history != []
    && WritesAreKnown(|s.history|, s.pending, s.returned)
    && EntriesAreFresh(render, s.history, s.returned, s.computedAt, s.cache.entries)
    && ReadersAreSound(render, s.history, s.returned, s.cache.generation, s.readers)
  }

  lemma LookUpKeepsInvariant<T>(
    limits: Limits, render: (T, CacheKey) -> Payload, s: State<T>, r: int, key: CacheKey, now: Instant)
    requires Invariant(render, s) && Enabled(s, LookUp(r, key, now))
    ensures Invariant(render, After(limits, render, s, LookUp(r, key, now)))
  {
    GetKeepsMembers(s.cache, key, now);
    FindHolds(s.cache.entries, key);
  }

  lemma OfferKeepsInvariant<T>(limits: Limits, render: (T, CacheKey) -> Payload, s: State<T>, r: int, now: Instant)
    requires Invariant(render, s) && Enabled(s, Offer(r, now))
    ensures Invariant(render, After(limits, render, s, Offer(r, now)))
  {
    var reader := s.readers[r];
    var expected := Some(reader.generation);
    var after := After(limits, render, s, Offer(r, now));
    if IsAccepted(limits, s.cache.generation, reader.payload, expected) {
      SetKeepsMembers(limits, s.cache, reader.key, reader.payload, expected, now);
    }
  }

  lemma WriteKeepsInvariant<T>(limits: Limits, render: (T, CacheKey) -> Payload, s: State<T>, content: T)
    requires Invariant(render, s)
    ensures Invariant(render, After(limits, render, s, WriteTable(content)))
  {
  }

  lemma StepKeepsInvariant<T>(limits: Limits, render: (T, CacheKey) -> Payload, s: State<T>, step: Step<T>)
    requires Invariant(render, s) && Enabled(s, step)
    ensures Invariant(render, After(limits, render, s, step))
  {
    match step
    case LookUp(r, key, now) => LookUpKeepsInvariant(limits, render, s, r, key, now);
    case ReadGeneration(r) =>
    case ComputeResponse(r) =>
    case Offer(r, now) => OfferKeepsInvariant(limits, render, s, r, now);
    case WriteTable(content) => WriteKeepsInvariant(limits, render, s, content);
    case ClearAfterWrite(v) =>
    case CountStats(now) => FilterHolds(s.cache.entries, Live(now));
  }

  lemma {:induction false} BehaviourKeepsInvariant<T>(
    limits: Limits, render: (T, CacheKey) -> Payload, states: seq<State<T>>, steps: seq<Step<T>>, i: nat)
    requires IsBehaviour(limits, render, states, steps) && i < |states|
    ensures Invariant(render, states[i])
  {
    if i > 0 {
      BehaviourKeepsInvariant(limits, render, states, steps, i - 1);
      StepKeepsInvariant(limits, render, states[i - 1], steps[i - 1]);
    }
  }

  // --- What readers may rely on --------------------------------------------------------

  /** A request keeps its key and the writes that had returned when it started. */
  lemma {:induction false} RequestRemembersItsStart<T>(
    limits: Limits, render: (T, CacheKey) -> Payload, states: seq<State<T>>, steps: seq<Step<T>>, start: nat, i: nat)
    requires IsBehaviour(limits, render, states, steps) && start < i < |states|
    requires steps[start].LookUp?
    ensures steps[start].reader in states[i].readers
    ensures states[i].readers[steps[start].reader].key == steps[start].key
    ensures states[i].readers[steps[start].reader].floor == states[start].returned
  {
    if i > start + 1 {
      RequestRemembersItsStart(limits, render, states, steps, start, i - 1);
    } else {
      assert states[i] == After(limits, render, states[start], steps[start]);
    }
  }

  /**
   A reader that starts after a write has returned is never answered with a
   payload computed before that write, from the cache or not, whatever other
   readers and writers do meanwhile: its answer is the response to a version of
   the table that includes every write returned when it started.
   */
  lemma AnswersAreFresh<T>(
    limits: Limits, render: (T, CacheKey) -> Payload, states: seq<State<T>>, steps: seq<Step<T>>, start: nat, i: nat)
    requires IsBehaviour(limits, render, states, steps) && start < i < |states|
    requires steps[start].LookUp? && steps[start].reader in states[i].readers
    requires states[i].readers[steps[start].reader].Answered?
    ensures var answer := states[i].readers[steps[start].reader];
            && answer.version < |states[i].history|
            && answer.payload == render(states[i].history[answer.version], steps[start].key)
            && forall write :: write in states[start].returned ==> write <= answer.version
  {
    BehaviourKeepsInvariant(limits, render, states, steps, i);
    RequestRemembersItsStart(limits, render, states, steps, start, i);
  }

  /**
   Whenever no writer is between its table write and its clear, every cached
   payload equals a fresh computation on the current table.
   */
  lemma QuietCacheIsExact<T>(
    limits: Limits, render: (T, CacheKey) -> Payload, states: seq<State<T>>, steps: seq<Step<T>>, i: nat, e: Entry)
    requires IsBehaviour(limits, render, states, steps) && i < |states|
    requires states[i].pending == {} && e in states[i].cache.entries
    ensures states[i].history != []
    ensures e.payload == render(states[i].history[Version(states[i])], e.key)
  {
    BehaviourKeepsInvariant(limits, render, states, steps, i);
    var s := states[i];
    if |s.history| > 1 {
      assert Version(s) in s.pending || Version(s) in s.returned;
    }
  }

  /**
   While writes are under way, a cached payload misses at most writes that have
   not returned yet.
   */
  lemma CachedPayloadMissesOnlyPendingWrites<T>(
    limits: Limits, render: (T, CacheKey) -> Payload, states: seq<State<T>>, steps: seq<Step<T>>, i: nat, e: Entry)
    returns (version: nat)
    requires IsBehaviour(limits, render, states, steps) && i < |states| && e in states[i].cache.entries
    ensures version < |states[i].history| && e.payload == render(states[i].history[version], e.key)
    ensures forall write: nat :: version < write < |states[i].history| ==> write in states[i].pending
  {
    BehaviourKeepsInvariant(limits, render, states, steps, i);
    var s := states[i];
    version := s.computedAt[e.key];
  }

  // --- The cache is that of the calls made ---------------------------------------------

  /** The cache call a step makes, if it makes one. */
  function CallsIn<T>(s: State<T>, step: Step<T>): seq<CacheOp>
    requires Enabled(s, step)
  {
    match step
    case LookUp(_, key, now) => [GetOp(key, now)]
    case Offer(r, now) => [SetOp(s.readers[r].key, s.readers[r].payload, Some(s.readers[r].generation), now)]
    case ClearAfterWrite(_) => [ClearOp]
    case CountStats(now) => [StatsOp(now)]
    case _ => []
  }

  ghost function CallsOf<T>(
    limits: Limits, render: (T, CacheKey) -> Payload, states: seq<State<T>>, steps: seq<Step<T>>, i: nat): seq<CacheOp>
    requires IsBehaviour(limits, render, states, steps) && i < |states|
  {
    if i == 0 then []
    else CallsOf(limits, render, states, steps, i - 1) + CallsIn(states[i - 1], steps[i - 1])
  }

  function WrittenBy<T>(step: Step<T>): seq<T> {
    match step
    case WriteTable(content) => [content]
    case _ => []
  }

  /** The table contents written so far, after the first. */
  ghost function Written<T>(steps: seq<Step<T>>, i: nat): seq<T>
    requires i <= |steps|
  {
    if i == 0 then []
    else Written(steps, i - 1) + WrittenBy(steps[i - 1])
  }

  lemma StepMakesItsCall<T>(limits: Limits, render: (T, CacheKey) -> Payload, s: State<T>, step: Step<T>)
    requires Enabled(s, step)
    ensures var after, calls := After(limits, render, s, step), CallsIn(s, step);
            && |calls| <= 1
            && after.cache == (if calls == [] then s.cache else Apply(limits, s.cache, calls[0]))
            && after.history == s.history + WrittenBy(step)
  {
  }

  lemma RunOneMore(limits: Limits, before: seq<CacheOp>, op: CacheOp)
    ensures RunCache(limits, before + [op]) == Apply(limits, RunCache(limits, before), op)
  {
    assert (before + [op])[..|before|] == before;
  }

  /**
   However readers and writers interleave, the cache is what the calls made so far
   leave behind one after another, so all that is proved of such runs holds of it;
   and the history is every content written, in order.
   */
  lemma {:induction false} CacheIsOfItsCalls<T>(
    limits: Limits, render: (T, CacheKey) -> Payload, states: seq<State<T>>, steps: seq<Step<T>>, i: nat)
    requires IsBehaviour(limits, render, states, steps) && i < |states|
    ensures states[i].cache == RunCache(limits, CallsOf(limits, render, states, steps, i))
    ensures states[i].history == states[0].history + Written(steps, i)
  {
    if i > 0 {
      CacheIsOfItsCalls(limits, render, states, steps, i - 1);
      var before, calls := CallsOf(limits, render, states, steps, i - 1), CallsIn(states[i - 1], steps[i - 1]);
      StepMakesItsCall(limits, render, states[i - 1], steps[i - 1]);
      if calls == [] {
        assert before + calls == before;
      } else {
        RunOneMore(limits, before, calls[0]);
        assert calls == [calls[0]];
      }
    }
  }

  /** A lookup is answered at once exactly when a live entry of its key is held, with that entry's payload. */
  lemma LookUpAnswersIff<T>(
    limits: Limits, render: (T, CacheKey) -> Payload, s: State<T>, r: int, key: CacheKey, now: Instant)
    requires Enabled(s, LookUp(r, key, now)) && DistinctEntries(s.cache.entries)
    ensures var after := After(limits, render, s, LookUp(r, key, now));
            && r in after.readers && after.readers == s.readers[r := after.readers[r]]
            && (after.readers[r].Answered? <==> exists e :: e in s.cache.entries && e.key == key && now < e.expiresAt)
            && (forall e :: e in s.cache.entries && e.key == key && now < e.expiresAt ==>
                  after.readers[r].payload == e.payload)
            && (!after.readers[r].Answered? ==> after.readers[r] == Missed(key, s.returned))
  {
    FindHolds(s.cache.entries, key);
  }

  /** The payload of a live entry of the key, if one is held. */
  ghost predicate IsLivePayload(cache: CacheState, key: CacheKey, now: Instant, payload: Payload) {
    exists e :: e in cache.entries && e.key == key && now < e.expiresAt && e.payload == payload
  }

  /**
   A request nothing comes between is answered from the cache when a live entry is
   held, and otherwise computes the response of the present table and offers it under
   the present generation.
   */
  lemma UndisturbedRequestAnswers<T>(
    limits: Limits, render: (T, CacheKey) -> Payload, s: State<T>, r: int, key: CacheKey, now: Instant, later: Instant)
    requires Enabled(s, LookUp(r, key, now)) && DistinctEntries(s.cache.entries) && s.history != []
    ensures var looked := After(limits, render, s, LookUp(r, key, now));
            if looked.readers[r].Answered? then IsLivePayload(s.cache, key, now, looked.readers[r].payload)
            else
              && Enabled(looked, ReadGeneration(r))
              && var generation := After(limits, render, looked, ReadGeneration(r));
                 && Enabled(generation, ComputeResponse(r))
                 && var computed := After(limits, render, generation, ComputeResponse(r));
                    && Enabled(computed, Offer(r, later))
                    && var end, payload := After(limits, render, computed, Offer(r, later)),
                                           render(s.history[|s.history| - 1], key);
                       && end.readers[r] == Answered(key, s.returned, |s.history| - 1, payload)
                       && end.cache == AfterSet(limits, looked.cache, key, payload, Some(s.cache.generation), later)
                       && (forall other :: other in s.readers ==>
                             other in end.readers && end.readers[other] == s.readers[other])
                       && end.history == s.history && end.pending == s.pending && end.returned == s.returned
  {
    LookUpAnswersIff(limits, render, s, r, key, now);
    GetKeepsMembers(s.cache, key, now);
    FindHolds(s.cache.entries, key);
  }

  // --- A run served from the cache -----------------------------------------------------

  datatype Run<T> = Run(states: seq<State<T>>, steps: seq<Step<T>>)

  ghost predicate IsRun<T>(limits: Limits, render: (T, CacheKey) -> Payload, run: Run<T>) {
    IsBehaviour(limits, render, run.states, run.steps)
  }

  function Last<T>(run: Run<T>): State<T>
    requires run.states != []
  {
    run.states[|run.states| - 1]
  }

  lemma Extend<T>(limits: Limits, render: (T, CacheKey) -> Payload, run: Run<T>, step: Step<T>) returns (longer: Run<T>)
    requires IsRun(limits, render, run) && Enabled(Last(run), step)
    ensures IsRun(limits, render, longer) && Last(longer) == After(limits, render, Last(run), step)
    ensures longer.steps == run.steps + [step]
  {
    longer := Run(run.states + [After(limits, render, Last(run), step)], run.steps + [step]);
  }

  lemma SetOnEmptyCache(limits: Limits, generation: nat, key: CacheKey, payload: Payload, now: Instant)
    requires ValidLimits(limits) && |payload| <= limits.maxBytes
    ensures AfterSet(limits, CacheState([], generation), key, payload, Some(generation), now)
         == CacheState([Entry(key, now + limits.ttl, payload)], generation)
    ensures AfterGet(CacheState([Entry(key, now + limits.ttl, payload)], generation), key, now).1 == Some(payload)
  {
    var entry := Entry(key, now + limits.ttl, payload);
    assert Without([], key) + [entry] == [entry];
    NewestAloneFits(limits, [], entry);
    assert [] + [entry] == [entry] && [entry][0..] == [entry];
  }

  /** A write returns, and a request of `key` computes its response and caches it. */
  lemma WrittenAndCached<T>(
    limits: Limits, render: (T, CacheKey) -> Payload, before: T, after: T, key: CacheKey, now: Instant)
    returns (run: Run<T>)
    requires ValidLimits(limits) && |render(after, key)| <= limits.maxBytes
    ensures IsRun(limits, render, run) && [WriteTable(after), ClearAfterWrite(1)] <= run.steps
    ensures Last(run).returned == {1} && 1 !in Last(run).readers
    ensures Last(run).cache == CacheState([Entry(key, now + limits.ttl, render(after, key))], 1)
    ensures key in Last(run).computedAt && Last(run).computedAt[key] == 1
  {
    run := Run([State(CacheState([], 0), [before], map[], {}, {}, map[])], []);
    run := Extend(limits, render, run, WriteTable(after));
    run := Extend(limits, render, run, ClearAfterWrite(1));
    assert Last(run) == State(CacheState([], 1), [before, after], map[], {}, {1}, map[]);
    run := Extend(limits, render, run, LookUp(0, key, now));
    run := Extend(limits, render, run, ReadGeneration(0));
    run := Extend(limits, render, run, ComputeResponse(0));
    SetOnEmptyCache(limits, 1, key, render(after, key), now);
    run := Extend(limits, render, run, Offer(0, now));
  }

  /** A second request of that key, after the write has returned, is answered from the cache. */
  lemma AReaderIsServedFromTheCache<T>(
    limits: Limits, render: (T, CacheKey) -> Payload, before: T, after: T, key: CacheKey, now: Instant)
    returns (run: Run<T>)
    requires ValidLimits(limits) && |render(after, key)| <= limits.maxBytes
    ensures IsRun(limits, render, run) && [WriteTable(after), ClearAfterWrite(1)] <= run.steps
    ensures |run.steps| > 2 && run.steps[|run.steps| - 1] == LookUp(1, key, now)
    ensures 1 in Last(run).readers && Last(run).readers[1] == Answered(key, {1}, 1, render(after, key))
  {
    run := WrittenAndCached(limits, render, before, after, key, now);
    SetOnEmptyCache(limits, 1, key, render(after, key), now);
    run := Extend(limits, render, run, LookUp(1, key, now));
  }
}

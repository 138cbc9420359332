/**
 The weighted nearest-rank percentile of the technical report
 (services/telemetry/analysis.py), within one group of calls.

 Weights are whole numbers of a common unit and `q` is a fraction, so every
 comparison is exact.
 */
module Percentile {
  import opened Common
  import opened Sequences

  /** One latency measurement and how many requests it stands for. */
  datatype Call = Call(duration: int, weight: nat)

  datatype Fraction = Fraction(num: nat, den: nat)

  predicate IsQuantile(q: Fraction) {
    0 < q.num <= q.den
  }

  function WeightOf(c: Call): int { c.weight }

  function Total(calls: seq<Call>): int { SumOf(calls, WeightOf) }

  predicate NotSlower(a: Call, b: Call) { a.duration <= b.duration }

  /** Whether a running weight is at least the share `q` of `total`. */
  function Share(total: int, q: Fraction): int -> bool {
    w => w * q.den >= q.num * total
  }

  /** The first duration at which the running weight reaches the share. */
  function FirstReached(ordered: seq<Call>, passed: int, reached: int -> bool): Option<int> {
    if ordered == [] then None
    else if reached(passed + ordered[0].weight) then Some(ordered[0].duration)
    else FirstReached(ordered[1..], passed + ordered[0].weight, reached)
  }

  function WeightedPercentile(calls: seq<Call>, q: Fraction): Option<int> {
    FirstReached(Sort(calls, NotSlower), 0, Share(Total(calls), q))
  }

  // --- What it means -------------------------------------------------------------------

  function UpTo(duration: int): Call -> bool { (c: Call) => c.duration <= duration }

  /** The weight of the calls that took at most `duration`. */
  function WeightUpTo(calls: seq<Call>, duration: int): int {
    SumOf(calls, Where(UpTo(duration), WeightOf))
  }

  predicate IsMeasured(calls: seq<Call>, duration: int) {
    exists i :: 0 <= i < |calls| && calls[i].duration == duration
  }

  /** The least measured duration whose calls, with all the faster ones, reach the share. */
  ghost predicate IsLeastReached(calls: seq<Call>, passed: int, reached: int -> bool, p: int) {
    && IsMeasured(calls, p)
    && reached(passed + WeightUpTo(calls, p))
    && forall d :: IsMeasured(calls, d) && d < p ==> !reached(passed + WeightUpTo(calls, d))
  }

  ghost predicate IsPercentile(calls: seq<Call>, q: Fraction, p: int) {
    IsLeastReached(calls, 0, Share(Total(calls), q), p)
  }

  ghost predicate Grows(reached: int -> bool) {
    forall a, b :: a <= b && reached(a) ==> reached(b)
  }

  lemma {:induction false} WeightGrows(calls: seq<Call>, low: int, high: int)
    requires low <= high
    ensures 0 <= WeightUpTo(calls, low) <= WeightUpTo(calls, high) <= Total(calls)
  {
    if calls != [] {
      WeightGrows(calls[1..], low, high);
    }
  }

  lemma {:induction false} NothingWeighs(calls: seq<Call>, duration: int)
    requires forall i :: 0 <= i < |calls| ==> calls[i].duration > duration
    ensures WeightUpTo(calls, duration) == 0
  {
    if calls != [] {
      NothingWeighs(calls[1..], duration);
    }
  }

  lemma WeightSplits(ordered: seq<Call>, duration: int)
    requires ordered != [] && ordered[0].duration <= duration
    ensures WeightUpTo(ordered, duration) == ordered[0].weight + WeightUpTo(ordered[1..], duration)
    ensures Total(ordered) == ordered[0].weight + Total(ordered[1..])
  {
  }

  lemma FirstIsLeast(ordered: seq<Call>, passed: int, reached: int -> bool)
    requires SortedBy(ordered, NotSlower) && ordered != [] && Grows(reached)
    requires reached(passed + ordered[0].weight)
    ensures IsLeastReached(ordered, passed, reached, ordered[0].duration)
  {
    var p := ordered[0].duration;
    WeightGrows(ordered[1..], p, p);
  }

  /** Passing over the fastest call leaves the question to the rest. */
  lemma RestIsLeast(ordered: seq<Call>, passed: int, reached: int -> bool, p: int)
    requires SortedBy(ordered, NotSlower) && ordered != [] && !reached(passed + ordered[0].weight)
    requires IsLeastReached(ordered[1..], passed + ordered[0].weight, reached, p)
    ensures IsLeastReached(ordered, passed, reached, p)
  {
    var first, rest := ordered[0], ordered[1..];
    forall d | IsMeasured(ordered, d) && d < p
      ensures !reached(passed + WeightUpTo(ordered, d))
    {
      if !IsMeasured(rest, d) {
        NothingWeighs(rest, d);
      }
    }
  }

  lemma {:induction false} FirstReachedHolds(ordered: seq<Call>, passed: int, reached: int -> bool)
    requires SortedBy(ordered, NotSlower) && ordered != [] && Grows(reached)
    requires reached(passed + Total(ordered))
    ensures FirstReached(ordered, passed, reached).Some?
    ensures IsLeastReached(ordered, passed, reached, FirstReached(ordered, passed, reached).value)
  {
    if reached(passed + ordered[0].weight) {
      FirstIsLeast(ordered, passed, reached);
    } else {
      WeightSplits(ordered, ordered[0].duration);
      FirstReachedHolds(ordered[1..], passed + ordered[0].weight, reached);
      RestIsLeast(ordered, passed, reached, FirstReached(ordered, passed, reached).value);
    }
  }

  // --- Shares --------------------------------------------------------------------------

  lemma TimesGrows(a: int, b: int, d: nat)
    requires a <= b
    ensures a * d <= b * d
  {
  }

  lemma WholeIsReached(total: nat, q: Fraction)
    requires IsQuantile(q)
    ensures Share(total, q)(total)
  {
  }

  // --- The percentile ------------------------------------------------------------------

  lemma SortedMeasuresTheSame(calls: seq<Call>, duration: int)
    ensures SortedBy(Sort(calls, NotSlower), NotSlower)
    ensures |Sort(calls, NotSlower)| == |calls|
    ensures WeightUpTo(Sort(calls, NotSlower), duration) == WeightUpTo(calls, duration)
    ensures Total(Sort(calls, NotSlower)) == Total(calls)
    ensures IsMeasured(Sort(calls, NotSlower), duration) <==> IsMeasured(calls, duration)
  {
    SortHolds(calls, Elements(calls), NotSlower);
    PermutationMeasuresTheSame(Sort(calls, NotSlower), calls, duration);
  }

  lemma PermutationMeasuresTheSame(a: seq<Call>, b: seq<Call>, duration: int)
    requires multiset(a) == multiset(b)
    ensures |a| == |b| && Total(a) == Total(b) && WeightUpTo(a, duration) == WeightUpTo(b, duration)
    ensures IsMeasured(a, duration) <==> IsMeasured(b, duration)
  {
    SumPermutes(a, b, Where(UpTo(duration), WeightOf));
    SumPermutes(a, b, WeightOf);
    assert |multiset(a)| == |a| && |multiset(b)| == |b|;
    MeasuredInPermutation(a, b, duration);
    MeasuredInPermutation(b, a, duration);
  }

  lemma MeasuredInPermutation(a: seq<Call>, b: seq<Call>, duration: int)
    requires multiset(a) == multiset(b)
    ensures IsMeasured(a, duration) ==> IsMeasured(b, duration)
  {
    if IsMeasured(a, duration) {
      var i :| 0 <= i < |a| && a[i].duration == duration;
      assert a[i] in multiset(b);
    }
  }

  /** The percentile is the least measured duration that, with the faster ones, reaches the share. */
  lemma WeightedPercentileHolds(calls: seq<Call>, q: Fraction)
    requires calls != [] && IsQuantile(q)
    ensures WeightedPercentile(calls, q).Some?
    ensures IsPercentile(calls, q, WeightedPercentile(calls, q).value)
  {
    var ordered, reached := Sort(calls, NotSlower), Share(Total(calls), q);
    SortedMeasuresTheSame(calls, 0);
    WeightGrows(calls, 0, 0);
    FirstReachedHolds(ordered, 0, reached);
    forall d: int
      ensures WeightUpTo(ordered, d) == WeightUpTo(calls, d) && (IsMeasured(ordered, d) <==> IsMeasured(calls, d))
    {
      SortedMeasuresTheSame(calls, d);
    }
  }

  /** Equal durations, and any calls, may come in any order. */
  lemma PercentileIgnoresOrder(a: seq<Call>, b: seq<Call>, q: Fraction)
    requires a != [] && IsQuantile(q) && multiset(a) == multiset(b)
    ensures WeightedPercentile(a, q) == WeightedPercentile(b, q)
  {
    PermutationMeasuresTheSame(a, b, 0);
    WeightedPercentileHolds(a, q);
    WeightedPercentileHolds(b, q);
    forall d: int
      ensures WeightUpTo(a, d) == WeightUpTo(b, d) && (IsMeasured(a, d) <==> IsMeasured(b, d))
    {
      PermutationMeasuresTheSame(a, b, d);
    }
  }

  lemma SmallerShareIsReached(weight: int, total: nat, q: Fraction, r: Fraction)
    requires IsQuantile(q) && IsQuantile(r) && q.num * r.den <= r.num * q.den
    requires Share(total, r)(weight)
    ensures Share(total, q)(weight)
  {
  }

  /** Percentiles grow with `q`: the p50 is at most the p95, and both are measured durations. */
  lemma PercentileGrows(calls: seq<Call>, q: Fraction, r: Fraction)
    requires calls != [] && IsQuantile(q) && IsQuantile(r) && q.num * r.den <= r.num * q.den
    ensures WeightedPercentile(calls, q).Some? && WeightedPercentile(calls, r).Some?
    ensures WeightedPercentile(calls, q).value <= WeightedPercentile(calls, r).value
    ensures IsMeasured(calls, WeightedPercentile(calls, r).value)
  {
    WeightedPercentileHolds(calls, q);
    WeightedPercentileHolds(calls, r);
    WeightGrows(calls, 0, 0);
    SmallerShareIsReached(WeightUpTo(calls, WeightedPercentile(calls, r).value), Total(calls), q, r);
  }

  // --- Against the list with every call repeated ---------------------------------------

  function Repeat(duration: int, times: nat): (r: seq<int>)
    ensures |r| == times && forall i :: 0 <= i < times ==> r[i] == duration
  {
    seq(times, _ => duration)
  }

  /** Each call's duration, `weight` times. */
  function Expanded(calls: seq<Call>): seq<int> {
    if calls == [] then [] else Repeat(calls[0].duration, calls[0].weight) + Expanded(calls[1..])
  }

  predicate AtMost(a: int, b: int) { a <= b }

  /** The nearest rank: the smallest whole number that is at least the share `q` of `n`. */
  function RankOf(q: Fraction, n: nat): nat
    requires IsQuantile(q)
  {
    (q.num * n + (q.den - 1)) / q.den
  }

  /** The nearest-rank percentile: the value at that place of the sorted list, counting from one. */
  function NearestRank(values: seq<int>, q: Fraction): Option<int>
    requires IsQuantile(q)
  {
    var sorted, rank := Sort(values, AtMost), RankOf(q, |values|);
    if 1 <= rank <= |sorted| then Some(sorted[rank - 1]) else None
  }

  function NotAbove(limit: int): int -> bool { v => v <= limit }

  function CountUpTo(values: seq<int>, limit: int): int {
    |Filter(values, NotAbove(limit))|
  }

  lemma {:induction false} RepeatedUpTo(duration: int, times: nat, limit: int)
    ensures CountUpTo(Repeat(duration, times), limit) == if duration <= limit then times else 0
  {
    if times > 0 {
      RepeatedUpTo(duration, times - 1, limit);
      assert Repeat(duration, times)[1..] == Repeat(duration, times - 1);
    }
  }

  /** Repeating turns weights into counts. */
  lemma {:induction false} ExpandedCounts(calls: seq<Call>, limit: int)
    ensures |Expanded(calls)| == Total(calls)
    ensures CountUpTo(Expanded(calls), limit) == WeightUpTo(calls, limit)
  {
    if calls != [] {
      ExpandedCounts(calls[1..], limit);
      FilterAppends(Repeat(calls[0].duration, calls[0].weight), Expanded(calls[1..]), NotAbove(limit));
      RepeatedUpTo(calls[0].duration, calls[0].weight, limit);
    }
  }

  lemma {:induction false} ExpandedAreMeasured(calls: seq<Call>, v: int)
    requires v in Expanded(calls)
    ensures IsMeasured(calls, v)
  {
    if v in Expanded(calls[1..]) {
      ExpandedAreMeasured(calls[1..], v);
    }
  }

  lemma {:induction false} NoneUpTo(values: seq<int>, limit: int)
    requires forall i :: 0 <= i < |values| ==> values[i] > limit
    ensures CountUpTo(values, limit) == 0
  {
    if values != [] {
      NoneUpTo(values[1..], limit);
    }
  }

  /** In a sorted list more than `k` values are at most the one at `k`, and at most `k` are below it. */
  lemma {:induction false} SortedCounts(sorted: seq<int>, k: nat, limit: int)
    requires SortedBy(sorted, AtMost) && k < |sorted|
    ensures limit >= sorted[k] ==> CountUpTo(sorted, limit) > k
    ensures limit < sorted[k] ==> CountUpTo(sorted, limit) <= k
  {
    if k > 0 {
      SortedCounts(sorted[1..], k - 1, limit);
    } else if limit < sorted[0] {
      NoneUpTo(sorted, limit);
    }
  }

  lemma CountsAgree(calls: seq<Call>, limit: int)
    ensures SortedBy(Sort(Expanded(calls), AtMost), AtMost)
    ensures |Sort(Expanded(calls), AtMost)| == Total(calls)
    ensures CountUpTo(Sort(Expanded(calls), AtMost), limit) == WeightUpTo(calls, limit)
    ensures forall v :: v in Sort(Expanded(calls), AtMost) ==> v in Expanded(calls)
  {
    var values := Expanded(calls);
    var sorted := Sort(values, AtMost);
    ExpandedCounts(calls, limit);
    SortHolds(values, Elements(values), AtMost);
    FilterPermutes(sorted, values, NotAbove(limit));
    assert |multiset(Filter(sorted, NotAbove(limit)))| == CountUpTo(sorted, limit);
    assert forall v :: v in sorted ==> v in multiset(values);
  }

  /** A count reaches the share exactly from the nearest rank on. */
  lemma ReachedFromTheRankOn(q: Fraction, n: nat, k: nat)
    requires IsQuantile(q)
    ensures Share(n, q)(k) <==> k >= RankOf(q, n)
  {
    var rank := RankOf(q, n);
    if k >= rank {
      TimesGrows(rank, k, q.den);
    } else {
      TimesGrows(k, rank - 1, q.den);
    }
  }

  /**
   With whole weights, the weighted percentile is the nearest-rank percentile of
   the list in which every call is repeated `weight` times.
   */
  lemma WeightedIsNearestRank(calls: seq<Call>, q: Fraction)
    requires Total(calls) > 0 && IsQuantile(q)
    ensures WeightedPercentile(calls, q) == NearestRank(Expanded(calls), q)
  {
    var sorted, n := Sort(Expanded(calls), AtMost), Total(calls);
    var rank := RankOf(q, n);
    CountsAgree(calls, 0);
    ExpandedCounts(calls, 0);
    WholeIsReached(n, q);
    ReachedFromTheRankOn(q, n, n);
    ReachedFromTheRankOn(q, n, 0);
    TimesGrows(1, n, q.num);
    var p := sorted[rank - 1];
    ExpandedAreMeasured(calls, p);
    forall d: int
      ensures Share(n, q)(WeightUpTo(calls, d)) <==> d >= p
    {
      CountsAgree(calls, d);
      SortedCounts(sorted, rank - 1, d);
      ReachedFromTheRankOn(q, n, WeightUpTo(calls, d));
    }
    WeightedPercentileHolds(calls, q);
  }
}

/** Sequence operations that stand for the table operations of the source, and sorting. */
module Sequences {
  import opened Common

  function Filter<T>(s: seq<T>, p: T -> bool): seq<T> {
    if s == [] then []
    else if p(s[0]) then [s[0]] + Filter(s[1..], p)
    else Filter(s[1..], p)
  }

  function MapSeq<A, B>(s: seq<A>, f: A -> B): (r: seq<B>)
    ensures |r| == |s|
    ensures forall i :: 0 <= i < |s| ==> r[i] == f(s[i])
  {
    if s == [] then [] else [f(s[0])] + MapSeq(s[1..], f)
  }

  function SumOf<T>(s: seq<T>, f: T -> int): int {
    if s == [] then 0 else f(s[0]) + SumOf(s[1..], f)
  }

  // Named terms for sums, so that two lemmas that speak of one sum write it the same way.

  function Zero<T>(): T -> int { x => 0 }

  function One<T>(): T -> int { x => 1 }

  function Plus<T>(f: T -> int, g: T -> int): T -> int { x => f(x) + g(x) }

  /** `f` on the rows that satisfy `p`, nothing on the others. */
  function Where<T>(p: T -> bool, f: T -> int): T -> int { x => if p(x) then f(x) else 0 }

  function Hit<K(==)>(k: K, value: int): K -> int { g => if g == k then value else 0 }

  function After<A, B>(f: A -> B, g: B -> int): A -> int { x => g(f(x)) }

  function InGroup<T, K(==)>(groupOf: T -> K, k: K): T -> bool { x => groupOf(x) == k }

  function InGroups<T, K(==)>(groupOf: T -> K, groups: seq<K>): T -> bool { x => groupOf(x) in groups }

  /** `groupby(...)[column].sum()`. */
  function SumIn<T, K(==)>(s: seq<T>, groupOf: T -> K, f: T -> int): K -> int {
    k => SumOf(s, Where(InGroup(groupOf, k), f))
  }

  /** `groupby(...).size()`. */
  function CountIn<T, K(==)>(s: seq<T>, groupOf: T -> K): K -> int {
    k => |Filter(s, InGroup(groupOf, k))|
  }

  /** `drop_duplicates`: keeps the first occurrence of every value. */
  function Dedupe<T(==)>(s: seq<T>): seq<T> {
    if s == [] then []
    else
      var front, last := s[..|s| - 1], s[|s| - 1];
      if last in front then Dedupe(front) else Dedupe(front) + [last]
  }

  lemma {:induction false} FilterHolds<T>(s: seq<T>, p: T -> bool)
    ensures forall x :: x in Filter(s, p) <==> x in s && p(x)
    ensures |Filter(s, p)| <= |s|
  {
    if s != [] {
      FilterHolds(s[1..], p);
    }
  }

  lemma {:induction false} FilterMultiset<T>(s: seq<T>, p: T -> bool, x: T)
    ensures multiset(Filter(s, p))[x] == if p(x) then multiset(s)[x] else 0
  {
    if s != [] {
      FilterMultiset(s[1..], p, x);
      assert s == [s[0]] + s[1..];
    }
  }

  lemma SameMultiplicities<T>(a: seq<T>, b: seq<T>)
    requires forall x :: multiset(a)[x] == multiset(b)[x]
    ensures multiset(a) == multiset(b)
  {
  }

  /** Filtering does not depend on the order of the rows. */
  lemma FilterPermutes<T>(a: seq<T>, b: seq<T>, p: T -> bool)
    requires multiset(a) == multiset(b)
    ensures multiset(Filter(a, p)) == multiset(Filter(b, p))
  {
    forall x: T
      ensures multiset(Filter(a, p))[x] == multiset(Filter(b, p))[x]
    {
      FilterMultiset(a, p, x);
      FilterMultiset(b, p, x);
    }
    SameMultiplicities(Filter(a, p), Filter(b, p));
  }

  lemma {:induction false} FilterSame<T>(s: seq<T>, p: T -> bool, q: T -> bool)
    requires forall x :: x in s ==> p(x) == q(x)
    ensures Filter(s, p) == Filter(s, q)
  {
    if s != [] {
      FilterSame(s[1..], p, q);
    }
  }

  lemma {:induction false} FilterAppends<T>(a: seq<T>, b: seq<T>, p: T -> bool)
    ensures Filter(a + b, p) == Filter(a, p) + Filter(b, p)
  {
    if a == [] {
      assert a + b == b;
    } else {
      FilterAppends(a[1..], b, p);
      assert (a + b)[1..] == a[1..] + b;
    }
  }

  lemma {:induction false} FilterWhere<T>(s: seq<T>, p: T -> bool, q: T -> bool, both: T -> bool)
    requires forall x :: x in s ==> both(x) == (p(x) && q(x))
    ensures Filter(Filter(s, p), q) == Filter(s, both)
  {
    if s != [] {
      FilterWhere(s[1..], p, q, both);
      if p(s[0]) {
        assert Filter(s, p)[1..] == Filter(s[1..], p);
      }
    }
  }

  lemma {:induction false} FilterAll<T>(s: seq<T>, p: T -> bool)
    requires forall x :: x in s ==> p(x)
    ensures Filter(s, p) == s
  {
    if s != [] {
      FilterAll(s[1..], p);
    }
  }

  lemma {:induction false} FilterIsEmptyIff<T>(s: seq<T>, p: T -> bool)
    ensures Filter(s, p) == [] <==> forall x :: x in s ==> !p(x)
  {
    if s != [] {
      FilterIsEmptyIff(s[1..], p);
    }
  }

  lemma {:induction false} SumAppends<T>(a: seq<T>, b: seq<T>, f: T -> int)
    ensures SumOf(a + b, f) == SumOf(a, f) + SumOf(b, f)
  {
    if a == [] {
      assert a + b == b;
    } else {
      SumAppends(a[1..], b, f);
      assert (a + b)[1..] == a[1..] + b;
    }
  }

  /** Where a permutation of `a` holds the first element of `a`. */
  lemma Counterpart<T>(a: seq<T>, b: seq<T>) returns (i: nat)
    requires a != [] && multiset(a) == multiset(b)
    ensures i < |b| && b[i] == a[0]
    ensures multiset(b[..i] + b[i + 1..]) == multiset(a[1..])
  {
    assert a[0] in multiset(b);
    i :| 0 <= i < |b| && b[i] == a[0];
    assert b == b[..i] + [b[i]] + b[i + 1..];
    assert a == [a[0]] + a[1..];
    assert multiset(b[..i] + b[i + 1..]) == multiset(b) - multiset{a[0]};
  }

  /** A sum does not depend on the order of its terms. */
  lemma {:induction false} SumPermutes<T>(a: seq<T>, b: seq<T>, f: T -> int)
    requires multiset(a) == multiset(b)
    ensures SumOf(a, f) == SumOf(b, f)
    decreases |a|
  {
    if a == [] {
      assert |b| == |multiset(b)| == 0;
    } else {
      var i := Counterpart(a, b);
      SumPermutes(a[1..], b[..i] + b[i + 1..], f);
      assert b == b[..i] + ([b[i]] + b[i + 1..]);
      SumAppends(b[..i], [b[i]] + b[i + 1..], f);
      SumAppends(b[..i], b[i + 1..], f);
    }
  }

  lemma {:induction false} SumSame<T>(s: seq<T>, f: T -> int, g: T -> int)
    requires forall x :: x in s ==> f(x) == g(x)
    ensures SumOf(s, f) == SumOf(s, g)
  {
    if s != [] {
      SumSame(s[1..], f, g);
    }
  }

  lemma {:induction false} SumPlus<T>(s: seq<T>, f: T -> int, g: T -> int)
    ensures SumOf(s, Plus(f, g)) == SumOf(s, f) + SumOf(s, g)
  {
    if s != [] {
      SumPlus(s[1..], f, g);
    }
  }

  lemma {:induction false} SumNonNegative<T>(s: seq<T>, f: T -> int)
    requires forall x :: x in s ==> f(x) >= 0
    ensures SumOf(s, f) >= 0
    ensures SumOf(s, f) == 0 <==> forall x :: x in s ==> f(x) == 0
  {
    if s != [] {
      SumNonNegative(s[1..], f);
    }
  }

  lemma {:induction false} SumOverFilter<T>(s: seq<T>, p: T -> bool, f: T -> int)
    ensures SumOf(Filter(s, p), f) == SumOf(s, Where(p, f))
  {
    if s != [] {
      SumOverFilter(s[1..], p, f);
    }
  }

  lemma {:induction false} CountOfFilter<T>(s: seq<T>, p: T -> bool)
    ensures |Filter(s, p)| == SumOf(s, Where(p, One()))
  {
    if s != [] {
      CountOfFilter(s[1..], p);
    }
  }

  /** The places of the elements that meet `p`. */
  function Places<T>(s: seq<T>, p: T -> bool): set<nat> {
    set i: nat | i < |s| && p(s[i])
  }

  lemma {:induction false} FilterCountsPlaces<T>(s: seq<T>, p: T -> bool)
    ensures |Filter(s, p)| == |Places(s, p)|
  {
    if s != [] {
      var front, n := s[..|s| - 1], |s| - 1;
      FilterCountsPlaces(front, p);
      FilterAppends(front, [s[n]], p);
      assert s == front + [s[n]];
      assert Places(s, p) == Places(front, p) + if p(s[n]) then {n} else {};
    }
  }

  lemma {:induction false} SumOfMapped<A, B>(s: seq<A>, f: A -> B, g: B -> int)
    ensures SumOf(MapSeq(s, f), g) == SumOf(s, After(f, g))
  {
    if s != [] {
      SumOfMapped(s[1..], f, g);
    }
  }

  lemma {:induction false} DedupeHolds<T>(s: seq<T>)
    ensures NoDuplicates(Dedupe(s))
    ensures forall x :: x in Dedupe(s) <==> x in s
  {
    if s != [] {
      var front := s[..|s| - 1];
      DedupeHolds(front);
    }
  }

  lemma {:induction false} DistinctMultiplicity<T>(s: seq<T>, x: T)
    requires NoDuplicates(s)
    ensures multiset(s)[x] == if x in s then 1 else 0
  {
    if s != [] {
      DistinctMultiplicity(s[1..], x);
      assert s == [s[0]] + s[1..];
    }
  }

  /** Two lists without repetitions and with the same members are permutations of each other. */
  lemma DistinctPermutes<T>(a: seq<T>, b: seq<T>)
    requires NoDuplicates(a) && NoDuplicates(b)
    requires forall x :: x in a <==> x in b
    ensures multiset(a) == multiset(b)
  {
    forall x
      ensures multiset(a)[x] == multiset(b)[x]
    {
      DistinctMultiplicity(a, x);
      DistinctMultiplicity(b, x);
    }
  }

  lemma {:induction false} MapAppends<A, B>(a: seq<A>, b: seq<A>, f: A -> B)
    ensures MapSeq(a + b, f) == MapSeq(a, f) + MapSeq(b, f)
  {
  }

  /** The image of a sequence, one element set aside. */
  lemma {:induction false} MapWithout<A, B>(s: seq<A>, i: nat, f: A -> B)
    requires i < |s|
    ensures multiset(MapSeq(s, f)) == multiset(MapSeq(s[..i] + s[i + 1..], f)) + multiset{f(s[i])}
    decreases i
  {
    var kept := s[..i] + s[i + 1..];
    if i == 0 {
      assert kept == s[1..];
    } else {
      MapWithout(s[1..], i - 1, f);
      assert s[1..][..i - 1] + s[1..][i..] == kept[1..];
    }
  }

  lemma {:induction false} MapPermutes<A, B>(a: seq<A>, b: seq<A>, f: A -> B)
    requires multiset(a) == multiset(b)
    ensures multiset(MapSeq(a, f)) == multiset(MapSeq(b, f))
    decreases |a|
  {
    if a == [] {
      assert |b| == |multiset(b)| == 0;
    } else {
      var i := Counterpart(a, b);
      MapPermutes(a[1..], b[..i] + b[i + 1..], f);
      MapWithout(b, i, f);
    }
  }

  lemma {:induction false} MapSame<A, B>(s: seq<A>, f: A -> B, g: A -> B)
    requires forall x :: x in s ==> f(x) == g(x)
    ensures MapSeq(s, f) == MapSeq(s, g)
  {
  }

  /** Summing group by group gives the total of the rows that have one of the groups. */
  lemma {:induction false} SumByGroup<T, K>(s: seq<T>, groups: seq<K>, groupOf: T -> K, f: T -> int)
    requires NoDuplicates(groups)
    ensures SumOf(groups, SumIn(s, groupOf, f)) == SumOf(s, Where(InGroups(groupOf, groups), f))
    decreases |s|
  {
    if s == [] {
      SumSame(groups, SumIn(s, groupOf, f), Zero());
      SumZero(groups);
    } else {
      var rest := SumIn(s[1..], groupOf, f);
      var head := Hit(groupOf(s[0]), f(s[0]));
      SumByGroup(s[1..], groups, groupOf, f);
      SumSame(groups, SumIn(s, groupOf, f), Plus(head, rest));
      SumPlus(groups, head, rest);
      SumOfOneHit(groups, groupOf(s[0]), f(s[0]));
    }
  }

  lemma {:induction false} SumZero<K>(s: seq<K>)
    ensures SumOf(s, Zero()) == 0
  {
    if s != [] {
      SumZero(s[1..]);
    }
  }

  lemma {:induction false} SumOfOneHit<K>(s: seq<K>, k: K, value: int)
    requires NoDuplicates(s)
    ensures SumOf(s, Hit(k, value)) == if k in s then value else 0
  {
    if s != [] {
      SumOfOneHit(s[1..], k, value);
    }
  }

  /** Group sizes add up to the number of rows that have one of the groups. */
  lemma CountByGroup<T, K>(s: seq<T>, groups: seq<K>, groupOf: T -> K)
    requires NoDuplicates(groups)
    ensures SumOf(groups, CountIn(s, groupOf)) == |Filter(s, InGroups(groupOf, groups))|
  {
    SumByGroup(s, groups, groupOf, One());
    forall g | g in groups
      ensures CountIn(s, groupOf)(g) == SumIn(s, groupOf, One())(g)
    {
      CountOfFilter(s, InGroup(groupOf, g));
    }
    SumSame(groups, CountIn(s, groupOf), SumIn(s, groupOf, One()));
    CountOfFilter(s, InGroups(groupOf, groups));
  }

  // --- Sorting -------------------------------------------------------------------------

  /** `leq` ranks the rows of `domain`; different rows may tie. */
  ghost predicate Ranks<T>(domain: set<T>, leq: (T, T) -> bool) {
    && (forall a, b :: a in domain && b in domain ==> leq(a, b) || leq(b, a))
    && (forall a, b, c :: a in domain && b in domain && c in domain && leq(a, b) && leq(b, c) ==> leq(a, c))
  }

  /** `leq` orders the rows of `domain`: no two different rows tie. */
  ghost predicate TotalOn<T>(domain: set<T>, leq: (T, T) -> bool) {
    && Ranks(domain, leq)
    && (forall a, b :: a in domain && b in domain && leq(a, b) && leq(b, a) ==> a == b)
  }

  ghost predicate SortedBy<T>(s: seq<T>, leq: (T, T) -> bool) {
    forall i, j :: 0 <= i < j < |s| ==> leq(s[i], s[j])
  }

  function Insert<T>(x: T, s: seq<T>, leq: (T, T) -> bool): seq<T> {
    if s == [] then [x]
    else if leq(x, s[0]) then [x] + s
    else [s[0]] + Insert(x, s[1..], leq)
  }

  /** `sort_values(kind="stable")`. */
  function Sort<T>(s: seq<T>, leq: (T, T) -> bool): seq<T> {
    if s == [] then [] else Insert(s[0], Sort(s[1..], leq), leq)
  }

  lemma {:induction false} InsertMembers<T>(x: T, s: seq<T>, leq: (T, T) -> bool)
    ensures multiset(Insert(x, s, leq)) == multiset([x] + s)
    ensures forall y :: y in Insert(x, s, leq) ==> y == x || y in s
  {
    if s != [] && !leq(x, s[0]) {
      InsertMembers(x, s[1..], leq);
      assert s == [s[0]] + s[1..];
    }
  }

  lemma {:induction false} InsertSorts<T>(x: T, s: seq<T>, domain: set<T>, leq: (T, T) -> bool)
    requires Ranks(domain, leq) && x in domain && (forall y :: y in s ==> y in domain)
    requires SortedBy(s, leq)
    ensures SortedBy(Insert(x, s, leq), leq)
  {
    if s != [] {
      if leq(x, s[0]) {
        assert forall j :: 0 < j < |s| ==> s[j] in domain && leq(x, s[j]);
      } else {
        var rest := Insert(x, s[1..], leq);
        InsertSorts(x, s[1..], domain, leq);
        InsertMembers(x, s[1..], leq);
        forall j | 0 <= j < |rest|
          ensures leq(s[0], rest[j])
        {
          assert rest[j] == x || rest[j] in s[1..];
        }
      }
    }
  }

  lemma {:induction false} SortKeepsRows<T>(s: seq<T>, leq: (T, T) -> bool)
    ensures multiset(Sort(s, leq)) == multiset(s)
    ensures forall y :: y in Sort(s, leq) ==> y in s
  {
    if s != [] {
      SortKeepsRows(s[1..], leq);
      InsertMembers(s[0], Sort(s[1..], leq), leq);
      assert s == [s[0]] + s[1..];
    }
  }

  lemma {:induction false} SortHolds<T>(s: seq<T>, domain: set<T>, leq: (T, T) -> bool)
    requires Ranks(domain, leq) && (forall y :: y in s ==> y in domain)
    ensures SortedBy(Sort(s, leq), leq)
    ensures multiset(Sort(s, leq)) == multiset(s)
  {
    SortKeepsRows(s, leq);
    if s != [] {
      SortHolds(s[1..], domain, leq);
      SortKeepsRows(s[1..], leq);
      InsertSorts(s[0], Sort(s[1..], leq), domain, leq);
    }
  }

  lemma {:induction false} InsertIsStable<T>(x: T, s: seq<T>, leq: (T, T) -> bool, p: T -> bool)
    requires p(x) ==> forall y :: y in s && p(y) ==> leq(x, y)
    ensures Filter(Insert(x, s, leq), p) == if p(x) then [x] + Filter(s, p) else Filter(s, p)
  {
    if s != [] && !leq(x, s[0]) {
      InsertIsStable(x, s[1..], leq, p);
    }
  }

  /** Rows that all tie keep the order they came in. */
  lemma {:induction false} SortIsStable<T>(s: seq<T>, domain: set<T>, leq: (T, T) -> bool, p: T -> bool)
    requires Ranks(domain, leq) && (forall y :: y in s ==> y in domain)
    requires forall a, b :: a in domain && b in domain && p(a) && p(b) ==> leq(a, b)
    ensures Filter(Sort(s, leq), p) == Filter(s, p)
  {
    if s != [] {
      SortIsStable(s[1..], domain, leq, p);
      SortHolds(s[1..], domain, leq);
      assert forall y :: y in Sort(s[1..], leq) ==> y in multiset(s[1..]);
      InsertIsStable(s[0], Sort(s[1..], leq), leq, p);
    }
  }

  lemma SortedHeadsAgree<T>(a: seq<T>, b: seq<T>, domain: set<T>, leq: (T, T) -> bool)
    requires TotalOn(domain, leq) && (forall y :: y in a ==> y in domain)
    requires SortedBy(a, leq) && SortedBy(b, leq) && a != [] && b != []
    requires multiset(a) == multiset(b)
    ensures a[0] == b[0]
  {
    assert a[0] in multiset(b) && b[0] in multiset(a);
  }

  lemma {:induction false} SortedIsUnique<T>(a: seq<T>, b: seq<T>, domain: set<T>, leq: (T, T) -> bool)
    requires TotalOn(domain, leq) && (forall y :: y in a ==> y in domain)
    requires SortedBy(a, leq) && SortedBy(b, leq)
    requires multiset(a) == multiset(b)
    ensures a == b
  {
    assert |a| == |multiset(a)| == |multiset(b)| == |b|;
    if a != [] {
      SortedHeadsAgree(a, b, domain, leq);
      assert a == [a[0]] + a[1..] && b == [b[0]] + b[1..];
      assert multiset(a[1..]) == multiset(a) - multiset{a[0]};
      assert multiset(b[1..]) == multiset(b) - multiset{b[0]};
      SortedIsUnique(a[1..], b[1..], domain, leq);
    }
  }

  /** Sorting forgets the order the rows arrived in. */
  lemma SortPermutes<T>(a: seq<T>, b: seq<T>, leq: (T, T) -> bool)
    requires TotalOn(Elements(a), leq) && multiset(a) == multiset(b)
    ensures Sort(a, leq) == Sort(b, leq)
  {
    assert forall y :: y in b ==> y in multiset(a);
    SortHolds(a, Elements(a), leq);
    SortHolds(b, Elements(a), leq);
    assert forall y :: y in Sort(a, leq) ==> y in multiset(a);
    SortedIsUnique(Sort(a, leq), Sort(b, leq), Elements(a), leq);
  }

  lemma SortMembers<T>(s: seq<T>, leq: (T, T) -> bool)
    requires TotalOn(Elements(s), leq)
    ensures SortedBy(Sort(s, leq), leq)
    ensures forall x :: x in Sort(s, leq) <==> x in s
    ensures |Sort(s, leq)| == |s|
    ensures NoDuplicates(s) ==> NoDuplicates(Sort(s, leq))
  {
    SortHolds(s, Elements(s), leq);
    var sorted := Sort(s, leq);
    assert forall x :: x in sorted <==> x in multiset(sorted);
    if NoDuplicates(s) {
      forall i, j | 0 <= i < j < |sorted|
        ensures sorted[i] != sorted[j]
      {
        DistinctMultiplicity(s, sorted[i]);
        if sorted[i] == sorted[j] {
          TwiceInSequence(sorted, i, j);
        }
      }
    }
  }

  lemma TwiceInSequence<T>(s: seq<T>, i: nat, j: nat)
    requires i < j < |s| && s[i] == s[j]
    ensures multiset(s)[s[i]] >= 2
  {
    assert s == s[..i] + [s[i]] + s[i + 1..j] + [s[j]] + s[j + 1..];
  }

  // --- Text order ----------------------------------------------------------------------

  predicate TextLeq(a: string, b: string) {
    a == [] || (b != [] && (a[0] < b[0] || (a[0] == b[0] && TextLeq(a[1..], b[1..]))))
  }

  lemma {:induction false} TextLeqTotal(a: string, b: string)
    ensures TextLeq(a, b) || TextLeq(b, a)
    ensures TextLeq(a, b) && TextLeq(b, a) ==> a == b
  {
    if a != [] && b != [] && a[0] == b[0] {
      TextLeqTotal(a[1..], b[1..]);
    }
  }

  lemma {:induction false} TextLeqTransitive(a: string, b: string, c: string)
    requires TextLeq(a, b) && TextLeq(b, c)
    ensures TextLeq(a, c)
  {
    if a != [] && a[0] == b[0] && b[0] == c[0] {
      TextLeqTransitive(a[1..], b[1..], c[1..]);
    }
  }

  /** Text order, by the first place where two texts differ. */
  predicate TextBefore(a: string, b: string) {
    exists k :: 0 <= k <= |a| && k < |b| && a[..k] == b[..k] && (k == |a| || a[k] < b[k])
  }

  lemma TextBeforeRest(a: string, b: string)
    requires a != [] && b != [] && a[0] == b[0]
    ensures TextBefore(a, b) <==> TextBefore(a[1..], b[1..])
  {
    var x, y := a[1..], b[1..];
    if k :| 0 <= k <= |a| && k < |b| && a[..k] == b[..k] && (k == |a| || a[k] < b[k]) {
      assert x[..k - 1] == a[..k][1..] && y[..k - 1] == b[..k][1..];
    }
    if k :| 0 <= k <= |x| && k < |y| && x[..k] == y[..k] && (k == |x| || x[k] < y[k]) {
      assert a[..k + 1] == [a[0]] + x[..k] && b[..k + 1] == [b[0]] + y[..k];
    }
  }

  lemma {:induction false} TextLeqIff(a: string, b: string)
    ensures TextLeq(a, b) <==> a == b || TextBefore(a, b)
  {
    if a == [] || b == [] {
      assert a == [] && b != [] ==> a[..0] == b[..0];
    } else if a[0] == b[0] {
      TextLeqIff(a[1..], b[1..]);
      TextBeforeRest(a, b);
      assert a == b <==> a[1..] == b[1..];
    } else {
      assert a[..0] == b[..0];
      assert forall k :: 1 <= k <= |a| && k < |b| ==> a[..k][0] != b[..k][0];
    }
  }
}

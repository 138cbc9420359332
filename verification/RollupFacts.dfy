/**
 Which business facts a business key tells apart (`business_key` in
 data/process/weekly_rollup.py), and what it costs when it does not.

 The key of a discrepancy joins two free texts with ":". Where the joined text
 can be split at another colon into two ids that normalization accepts, a
 different count has the same key.
 */
module RollupFacts {
  import opened Common
  import opened Sequences
  import opened Weeks
  import opened RollupEvents
  import opened RollupPrepare

  // --- The texts normalization yields --------------------------------------------------

  /** Not blank, and no blank at either end. */
  predicate IsTrimmed(s: string) {
    s != "" && !IsBlank(s[0]) && !IsBlank(s[|s| - 1])
  }

  predicate IsLowerCase(s: string) {
    forall i :: 0 <= i < |s| ==> !('A' <= s[i] <= 'Z')
  }

  lemma {:induction false} StripLeftHolds(s: string)
    ensures StripLeft(s) != "" ==> !IsBlank(StripLeft(s)[0])
  {
    if s != "" && IsBlank(s[0]) {
      StripLeftHolds(s[1..]);
    }
  }

  lemma {:induction false} StripRightHolds(s: string)
    ensures StripRight(s) <= s
    ensures StripRight(s) != "" ==> !IsBlank(StripRight(s)[|StripRight(s)| - 1])
  {
    if s != "" && IsBlank(s[|s| - 1]) {
      StripRightHolds(s[..|s| - 1]);
    }
  }

  /** Cleaning yields exactly the trimmed texts, and leaves those alone. */
  lemma CleanIsTrimmed(text: Option<string>)
    ensures Clean(text).Some? ==> IsTrimmed(Clean(text).value)
    ensures text.Some? && IsTrimmed(text.value) ==> Clean(text) == text
  {
    if text.Some? {
      StripLeftHolds(text.value);
      StripRightHolds(StripLeft(text.value));
    }
  }

  lemma NormalizedIds(raw: RawEvent)
    ensures var e := NormalizeEvent(raw);
            && (e.reconciliationId.Some? ==> IsTrimmed(e.reconciliationId.value))
            && (e.productId.Some? ==> IsTrimmed(e.productId.value) && IsLowerCase(e.productId.value))
  {
    CleanIsTrimmed(raw.reconciliationId);
    CleanIsTrimmed(raw.productId);
  }

  // --- When two events share a key -----------------------------------------------------

  predicate SameKeyOtherFact(a: Event, b: Event) {
    BusinessKey(a) == BusinessKey(b) && FactOf(a) != FactOf(b)
  }

  /** The part of a discrepancy's key that holds its two ids. */
  function CountText(e: Event): string
    requires FactOf(e).CountFact?
  {
    e.reconciliationId.value + ":" + e.productId.value
  }

  /** Two counts of different products whose joined ids read the same. */
  predicate CountsCollide(a: Event, b: Event) {
    && FactOf(a).CountFact? && FactOf(b).CountFact?
    && a.productId != b.productId
    && CountText(a) == CountText(b)
  }

  lemma LastColonSplits(a: string, b: string, c: string, d: string)
    requires a + ":" + b == c + ":" + d
    requires ':' !in b && ':' !in d
    ensures a == c && b == d
  {
    var s, t := a + ":" + b, c + ":" + d;
    assert s[|a|] == ':' && t[|c|] == ':';
    assert a == s[..|a|] && c == t[..|c|];
    assert b == s[|a| + 1..] && d == t[|c| + 1..];
  }

  lemma OrderKeysIdentify(a: Event, b: Event)
    requires FactOf(a).OrderFact? && FactOf(b).OrderFact? && a.eventType == b.eventType
    requires BusinessKey(a) == BusinessKey(b)
    ensures FactOf(a) == FactOf(b)
  {
    var prefix := "order:" + TypeName(a.eventType) + ":";
    assert BusinessKey(a)[|prefix|..] == a.orderId.value && BusinessKey(b)[|prefix|..] == b.orderId.value;
  }

  /** An event that fails no check has a known band, and no known band holds a colon. */
  lemma ValidBandsHaveNoColon(e: Event, weeks: seq<Date>)
    requires FirstReason(e, weeks).None? && e.eventType.Threshold?
    ensures e.thresholdBand.Some? && ':' !in e.thresholdBand.value
  {
    assert !Fails(CHECKS[3], e, weeks);
    assert ':' !in "low" && ':' !in "out_of_stock";
  }

  lemma CrossingKeysIdentify(a: Event, b: Event, weeks: seq<Date>)
    requires FirstReason(a, weeks).None? && FirstReason(b, weeks).None?
    requires FactOf(a).CrossingFact? && FactOf(b).CrossingFact?
    requires BusinessKey(a) == BusinessKey(b)
    ensures FactOf(a) == FactOf(b)
  {
    ValidBandsHaveNoColon(a, weeks);
    ValidBandsHaveNoColon(b, weeks);
    var ta, tb := a.triggeringOrderId.value, b.triggeringOrderId.value;
    var ba, bb := a.thresholdBand.value, b.thresholdBand.value;
    assert BusinessKey(a)[10..] == ta + ":" + ba && BusinessKey(b)[10..] == tb + ":" + bb;
    LastColonSplits(ta, ba, tb, bb);
  }

  lemma CountKeysAgreeIff(a: Event, b: Event)
    requires FactOf(a).CountFact? && FactOf(b).CountFact?
    ensures BusinessKey(a) == BusinessKey(b) <==> CountText(a) == CountText(b)
    ensures CountText(a) == CountText(b) && a.productId == b.productId ==> FactOf(a) == FactOf(b)
  {
    assert BusinessKey(a) == "discrepancy:" + CountText(a) && BusinessKey(b) == "discrepancy:" + CountText(b);
    assert BusinessKey(a)[12..] == CountText(a) && BusinessKey(b)[12..] == CountText(b);
    assert CountText(a)[..|a.reconciliationId.value|] == a.reconciliationId.value;
    assert CountText(b)[..|b.reconciliationId.value|] == b.reconciliationId.value;
  }

  /** Two valid events share a key exactly when they report one fact, or are two counts that collide. */
  lemma KeysIdentifyFacts(a: Event, b: Event, weeks: seq<Date>)
    requires FirstReason(a, weeks).None? && FirstReason(b, weeks).None?
    ensures BusinessKey(a) == BusinessKey(b) <==> FactOf(a) == FactOf(b) || CountsCollide(a, b)
    ensures !(FactOf(a) == FactOf(b) && CountsCollide(a, b))
  {
    KeyTags(a);
    KeyTags(b);
    if FactOf(a).CountFact? && FactOf(b).CountFact? {
      CountKeysAgreeIff(a, b);
    } else if BusinessKey(a) == BusinessKey(b) {
      match FactOf(a)
      case OrderFact(_, _) => OrderKeysIdentify(a, b);
      case CrossingFact(_, _) => CrossingKeysIdentify(a, b, weeks);
      case _ =>
    }
  }

  // --- Which events can lose their key to another fact ----------------------------------

  /** The joined ids split at `k` too, into two ids an event can have. */
  predicate SplitsAt(text: string, k: nat) {
    && k < |text| && text[k] == ':'
    && IsTrimmed(text[..k])
    && IsTrimmed(text[k + 1..]) && IsLowerCase(text[k + 1..])
  }

  predicate HasSecondReading(e: Event)
    requires FactOf(e).CountFact?
  {
    exists k: nat :: k < |CountText(e)| && k != |e.reconciliationId.value| && SplitsAt(CountText(e), k)
  }

  /** `o` is a valid event of another fact under the key of `e`. */
  predicate TakesTheKey(o: RawEvent, e: Event, products: seq<Product>, weeks: seq<Date>) {
    var other := Normalizer(products)(o);
    FirstReason(other, weeks).None? && SameKeyOtherFact(e, other)
  }

  lemma OtherCountIsAReading(o: RawEvent, e: Event, products: seq<Product>, weeks: seq<Date>)
    requires FirstReason(e, weeks).None? && TakesTheKey(o, e, products, weeks)
    ensures FactOf(e).CountFact? && HasSecondReading(e)
  {
    var other := Normalizer(products)(o);
    KeysIdentifyFacts(e, other, weeks);
    NormalizedIds(o);
    var text, k := CountText(other), |other.reconciliationId.value|;
    assert text[..k] == other.reconciliationId.value && text[k + 1..] == other.productId.value;
    assert CountText(e)[|e.reconciliationId.value| + 1..] == e.productId.value;
    assert SplitsAt(CountText(e), k);
  }

  /** The report of another count whose ids are the other reading. */
  function OtherReport(raw: RawEvent, e: Event, k: nat): RawEvent
    requires FactOf(e).CountFact? && k < |CountText(e)|
  {
    raw.(clientId := e.clientId,
         reconciliationId := Some(CountText(e)[..k]), productId := Some(CountText(e)[k + 1..]))
  }

  lemma CleanIds(left: string, right: string)
    requires IsTrimmed(left) && IsTrimmed(right) && IsLowerCase(right)
    ensures Clean(Some(left)) == Some(left) && Clean(Some(right)) == Some(right) && Lower(right) == right
  {
    CleanIsTrimmed(Some(left));
    CleanIsTrimmed(Some(right));
  }

  /** With a valid client of its own, an event keeps it whatever the product. */
  lemma OwnClientIsKept(raw: RawEvent, products: seq<Product>, client: string)
    requires raw.clientId == Some(client) && IsClientId(client)
    ensures Normalizer(products)(raw) == NormalizeEvent(raw) && NormalizeEvent(raw).clientId == Some(client)
  {
    CleanIsTrimmed(raw.clientId);
  }

  lemma SameChecks(a: Event, b: Event, weeks: seq<Date>)
    requires b == a.(reconciliationId := b.reconciliationId, productId := b.productId)
    ensures FirstReason(a, weeks).None? ==> FirstReason(b, weeks).None?
  {
    assert forall check :: Fails(check, a, weeks) == Fails(check, b, weeks);
  }

  lemma OtherReportNormalizes(raw: RawEvent, e: Event, products: seq<Product>, k: nat)
    requires e == Normalizer(products)(raw) && FactOf(e).CountFact? && SplitsAt(CountText(e), k)
    requires e.clientId.Some?
    ensures Normalizer(products)(OtherReport(raw, e, k))
         == e.(reconciliationId := Some(CountText(e)[..k]), productId := Some(CountText(e)[k + 1..]))
  {
    CleanIds(CountText(e)[..k], CountText(e)[k + 1..]);
    ResolvedClientsAreValid(NormalizeEvent(raw), products);
    OwnClientIsKept(OtherReport(raw, e, k), products, e.clientId.value);
  }

  lemma RereadCountSharesTheKey(e: Event, other: Event, k: nat)
    requires FactOf(e).CountFact? && k != |e.reconciliationId.value| && SplitsAt(CountText(e), k)
    requires other == e.(reconciliationId := Some(CountText(e)[..k]), productId := Some(CountText(e)[k + 1..]))
    ensures SameKeyOtherFact(e, other)
  {
    var text := CountText(e);
    assert text[..k] + ":" + text[k + 1..] == text;
    CountKeysAgreeIff(e, other);
    assert |other.reconciliationId.value| != |e.reconciliationId.value|;
  }

  lemma OtherReportTakesTheKey(raw: RawEvent, e: Event, products: seq<Product>, weeks: seq<Date>, k: nat)
    requires e == Normalizer(products)(raw) && FirstReason(e, weeks).None? && FactOf(e).CountFact?
    requires k != |e.reconciliationId.value| && SplitsAt(CountText(e), k)
    ensures TakesTheKey(OtherReport(raw, e, k), e, products, weeks)
  {
    assert !Fails(CHECKS[2], e, weeks);
    OtherReportNormalizes(raw, e, products, k);
    var other := Normalizer(products)(OtherReport(raw, e, k));
    SameChecks(e, other, weeks);
    RereadCountSharesTheKey(e, other, k);
  }

  /**
   Exactly which valid events share their key with a report of another fact that
   the transform would also accept: the counts with a second reading.
   */
  lemma AnotherFactTakesTheKeyIff(raw: RawEvent, products: seq<Product>, weeks: seq<Date>)
    requires FirstReason(Normalizer(products)(raw), weeks).None?
    ensures var e := Normalizer(products)(raw);
            (exists o: RawEvent :: TakesTheKey(o, e, products, weeks))
            <==> FactOf(e).CountFact? && HasSecondReading(e)
  {
    var e := Normalizer(products)(raw);
    if o: RawEvent :| TakesTheKey(o, e, products, weeks) {
      OtherCountIsAReading(o, e, products, weeks);
    }
    if FactOf(e).CountFact? && HasSecondReading(e) {
      var k: nat :| k != |e.reconciliationId.value| && SplitsAt(CountText(e), k);
      OtherReportTakesTheKey(raw, e, products, weeks, k);
    }
  }

  /** Only a colon inside one of its two ids gives a count a second reading. */
  lemma SecondReadingNeedsAColon(e: Event)
    requires FactOf(e).CountFact? && HasSecondReading(e)
    ensures ':' in e.reconciliationId.value || ':' in e.productId.value
  {
    var k: nat :| k != |e.reconciliationId.value| && SplitsAt(CountText(e), k);
    var r := e.reconciliationId.value;
    assert SplitsAt(CountText(e), k);
    assert CountText(e)[k] == if k < |r| then r[k] else e.productId.value[k - |r| - 1];
  }

  /** A colon alone is not enough: here the other reading would be a product id in upper case. */
  lemma AColonNeedNotCollide(raw: RawEvent)
    ensures var e := NormalizeEvent(
                       raw.(eventType := Discrepancy, reconciliationId := Some("R:X"), productId := Some("y")));
            && FactOf(e) == CountFact("R:X", "y") && !HasSecondReading(e)
  {
    CleanIds("R:X", "y");
    var text := "R:X" + ":" + "y";
    assert text[2..] == "X:y" && !IsLowerCase("X:y") by {
      assert "X:y"[0] == 'X';
    }
    assert forall k :: 0 <= k < |text| && text[k] == ':' ==> k == 1 || k == 3;
  }

  /** Two counts of one reconciliation round, both acceptable, under one key. */
  lemma CountsCanCollide(raw: RawEvent)
    ensures var a := NormalizeEvent(
                       raw.(eventType := Discrepancy, reconciliationId := Some("r:x"), productId := Some("y")));
            var b := NormalizeEvent(
                       raw.(eventType := Discrepancy, reconciliationId := Some("r"), productId := Some("x:y")));
            a.reconciliationId == Some("r:x") && b.productId == Some("x:y") && CountsCollide(a, b)
  {
    CleanIsTrimmed(Some("r:x"));
    CleanIsTrimmed(Some("y"));
    CleanIsTrimmed(Some("r"));
    CleanIsTrimmed(Some("x:y"));
    assert Lower("y") == "y" && Lower("x:y") == "x:y";
    assert "r:x" + ":" + "y" == "r" + ":" + "x:y";
  }

  // --- What a collision costs ----------------------------------------------------------

  predicate AllValid(events: seq<Event>, weeks: seq<Date>) {
    forall e :: e in events ==> FirstReason(e, weeks).None?
  }

  predicate Survives(events: seq<Event>, e: Event) {
    e in events && !IsSuperseded(events, e)
  }

  /** Every fact reported in the frame is counted. */
  ghost predicate EveryFactSurvives(events: seq<Event>) {
    forall e :: e in events ==> exists w :: Survives(events, w) && FactOf(w) == FactOf(e)
  }

  ghost predicate HasCollision(events: seq<Event>) {
    exists a, b :: a in events && b in events && CountsCollide(a, b)
  }

  lemma OneSurvivorUnderAKey(events: seq<Event>, a: Event, b: Event)
    requires DistinctIds(events) && Survives(events, a) && Survives(events, b)
    requires BusinessKey(a) == BusinessKey(b)
    ensures a == b
  {
    var winner := OneSurvivorPerKey(events, BusinessKey(a));
  }

  /** One event of each fact survives exactly when no two counts in the frame collide. */
  lemma OneSurvivorPerFactIff(events: seq<Event>, weeks: seq<Date>)
    requires DistinctIds(events) && AllValid(events, weeks)
    ensures EveryFactSurvives(events) <==> !HasCollision(events)
    ensures forall a, b :: Survives(events, a) && Survives(events, b) && FactOf(a) == FactOf(b) ==> a == b
  {
    forall a, b | Survives(events, a) && Survives(events, b) && FactOf(a) == FactOf(b)
      ensures a == b
    {
      KeysIdentifyFacts(a, b, weeks);
      OneSurvivorUnderAKey(events, a, b);
    }
    if a, b :| a in events && b in events && CountsCollide(a, b) {
      var lost := CollisionLosesAFact(events, weeks, a, b);
    } else {
      forall e | e in events
        ensures exists w :: Survives(events, w) && FactOf(w) == FactOf(e)
      {
        var w := OneSurvivorPerKey(events, BusinessKey(e));
        KeysIdentifyFacts(w, e, weeks);
      }
    }
  }

  /** Of two counts that collide, all reports of one are superseded. */
  lemma CollisionLosesAFact(events: seq<Event>, weeks: seq<Date>, a: Event, b: Event) returns (lost: Event)
    requires DistinctIds(events) && AllValid(events, weeks)
    requires a in events && b in events && CountsCollide(a, b)
    ensures lost == a || lost == b
    ensures forall e :: e in events && FactOf(e) == FactOf(lost) ==> IsSuperseded(events, e)
  {
    KeysIdentifyFacts(a, b, weeks);
    var winner := OneSurvivorPerKey(events, BusinessKey(a));
    lost := if FactOf(winner) == FactOf(a) then b else a;
    forall e | e in events && FactOf(e) == FactOf(lost)
      ensures IsSuperseded(events, e)
    {
      KeysIdentifyFacts(e, lost, weeks);
    }
  }

  /**
   In the transform: of two valid counts that collide, every valid report of one
   ends as `duplicate_business_key`, so that count reaches no KPI.
   */
  lemma CollisionExcludesACount(normalized: seq<Event>, weeks: seq<Date>, a: Event, b: Event) returns (lost: Event)
    requires DistinctIds(normalized) && a in normalized && b in normalized && CountsCollide(a, b)
    requires FirstReason(a, weeks).None? && FirstReason(b, weeks).None?
    ensures lost == a || lost == b
    ensures forall e :: e in normalized && FirstReason(e, weeks).None? && FactOf(e) == FactOf(lost) ==>
              FinalReason(normalized, weeks)(e) == Some(DuplicateBusinessKey)
  {
    var valid := ValidEvents(normalized, weeks);
    FilterHolds(normalized, Unexcluded(Screening(weeks)));
    FilterKeepsDistinctIds(normalized, Unexcluded(Screening(weeks)));
    lost := CollisionLosesAFact(valid, weeks, a, b);
  }
}

/**
 What one extracted event reads as, and what it adds to a row, in the event's own
 fields (data/process/weekly_rollup.py, data/pipelines/validation.py).
 */
module RollupReading {
  import opened Common
  import opened Sequences
  import opened Weeks
  import opened WeeklyLoad
  import opened RollupEvents
  import opened RollupFigures
  import opened RollupRows

  const DIGITS: string := "0123456789"
  const LETTERS: string := "abcdefghijklmnopqrstuvwxyz"
  const CAPITALS: string := "ABCDEFGHIJKLMNOPQRSTUVWXYZ"

  // --- Quantities ----------------------------------------------------------------------

  function PowerOfTen(width: nat): nat {
    if width == 0 then 1 else 10 * PowerOfTen(width - 1)
  }

  /** `n` written with exactly `width` digits. */
  function Numeral(n: nat, width: nat): string {
    if width == 0 then "" else Numeral(n / 10, width - 1) + [DIGITS[n % 10]]
  }

  lemma {:induction false} NumeralReadsBack(n: nat, width: nat)
    requires n < PowerOfTen(width)
    ensures var s := Numeral(n, width);
            && |s| == width && (forall i :: 0 <= i < |s| ==> IsDigit(s[i]))
            && DigitsValue(s) == n
  {
    if width > 0 {
      NumeralReadsBack(n / 10, width - 1);
      var s := Numeral(n, width);
      assert s[..width - 1] == Numeral(n / 10, width - 1);
    }
  }

  lemma {:induction false} DigitsAreANumeral(s: string)
    requires forall i :: 0 <= i < |s| ==> IsDigit(s[i])
    ensures 0 <= DigitsValue(s) < PowerOfTen(|s|) && s == Numeral(DigitsValue(s), |s|)
  {
    if s != [] {
      var front, last := s[..|s| - 1], s[|s| - 1];
      DigitsAreANumeral(front);
      var digit := last as int - '0' as int;
      assert DIGITS[digit] == last;
      assert DigitsValue(s) / 10 == DigitsValue(front) && DigitsValue(s) % 10 == digit;
      assert s == front + [last];
    }
  }

  /** `n` in exactly `width` digits, after a minus sign if `signed`. */
  predicate WritesIn(s: string, n: int, width: nat, signed: bool) {
    if signed then 0 <= -n < PowerOfTen(width) && s == "-" + Numeral(-n, width)
    else 0 <= n < PowerOfTen(width) && s == Numeral(n, width)
  }

  /** A whole number in one to nine digits, after an optional minus sign. */
  predicate Writes(s: string, n: int) {
    exists width, signed :: 1 <= width <= 9 && WritesIn(s, n, width, signed)
  }

  lemma WrittenIsRead(s: string, n: int, width: nat, signed: bool)
    requires 1 <= width <= 9 && WritesIn(s, n, width, signed)
    ensures ParseQuantity(Some(s)) == Some(n)
  {
    NumeralReadsBack(if signed then -n else n, width);
    assert signed ==> s[1..] == Numeral(-n, width) && !IsDigit(s[0]);
  }

  lemma ReadIsWritten(s: string) returns (n: int, width: nat, signed: bool)
    requires ParseQuantity(Some(s)).Some?
    ensures ParseQuantity(Some(s)) == Some(n) && 1 <= width <= 9 && WritesIn(s, n, width, signed)
  {
    n, signed := ParseQuantity(Some(s)).value, !IsShortNumber(s);
    var digits := if signed then s[1..] else s;
    width := |digits|;
    DigitsAreANumeral(digits);
    assert signed ==> s == "-" + digits;
  }

  /** A quantity reads as the whole number its text writes, and any other text as none. */
  lemma QuantityIsTheNumberWritten(s: string, n: int)
    ensures ParseQuantity(Some(s)) == Some(n) <==> Writes(s, n)
  {
    if width: nat, signed :| 1 <= width <= 9 && WritesIn(s, n, width, signed) {
      WrittenIsRead(s, n, width, signed);
    } else if ParseQuantity(Some(s)) == Some(n) {
      var read, width, signed := ReadIsWritten(s);
    }
  }

  // --- Texts ---------------------------------------------------------------------------

  /** Space, tab, line feed, vertical tab, form feed or carriage return. */
  predicate IsWhitespace(c: char) {
    c as int in {32, 9, 10, 11, 12, 13}
  }

  /** `s` is `t` with only whitespace around it. */
  ghost predicate Surrounds(s: string, t: string) {
    exists i, j :: 0 <= i <= j <= |s| && t == s[i..j]
                   && (forall k :: 0 <= k < i || j <= k < |s| ==> IsWhitespace(s[k]))
  }

  lemma {:induction false} StripLeftHolds(s: string) returns (i: nat)
    ensures i <= |s| && StripLeft(s) == s[i..]
    ensures forall k :: 0 <= k < i ==> IsWhitespace(s[k])
    ensures i < |s| ==> !IsWhitespace(s[i])
  {
    i := 0;
    if s != [] && IsBlank(s[0]) {
      var rest := StripLeftHolds(s[1..]);
      i := rest + 1;
      assert forall k :: 1 <= k < |s| ==> s[k] == s[1..][k - 1];
    }
  }

  lemma {:induction false} StripRightHolds(s: string) returns (j: nat)
    ensures j <= |s| && StripRight(s) == s[..j]
    ensures forall k :: j <= k < |s| ==> IsWhitespace(s[k])
    ensures j > 0 ==> !IsWhitespace(s[j - 1])
  {
    j := |s|;
    if s != [] && IsBlank(s[|s| - 1]) {
      j := StripRightHolds(s[..|s| - 1]);
    }
  }

  /** A text field loses the whitespace around it, and one of whitespace alone is missing. */
  lemma CleaningTrims(s: string)
    ensures match Clean(Some(s))
            case None => forall k :: 0 <= k < |s| ==> IsWhitespace(s[k])
            case Some(t) => t != "" && Surrounds(s, t) && !IsWhitespace(t[0]) && !IsWhitespace(t[|t| - 1])
  {
    var i := StripLeftHolds(s);
    var rest := s[i..];
    var j := StripRightHolds(rest);
    assert forall k :: i <= k < |s| ==> s[k] == rest[k - i];
    if j > 0 {
      assert rest[..j] == s[i..i + j];
    }
  }

  lemma LowerReplacesCapitals(s: string, i: nat)
    requires i < |s|
    ensures |Lower(s)| == |s|
    ensures forall k :: 0 <= k < 26 && s[i] == CAPITALS[k] ==> Lower(s)[i] == LETTERS[k]
    ensures s[i] !in CAPITALS ==> Lower(s)[i] == s[i]
  {
    forall k | 0 <= k < 26
      ensures CAPITALS[k] as int == 'A' as int + k && LETTERS[k] as int == 'a' as int + k
    {}
    if 'A' <= s[i] <= 'Z' {
      assert CAPITALS[s[i] as int - 'A' as int] == s[i];
    }
  }

  predicate IsLetterOrDigit(c: char) {
    c in LETTERS || c in DIGITS
  }

  predicate IsWord(w: string) {
    w != "" && forall i :: 0 <= i < |w| ==> IsLetterOrDigit(w[i])
  }

  /** The words with a hyphen between each two. */
  function Hyphenated(words: seq<string>): string {
    if words == [] then ""
    else if |words| == 1 then words[0]
    else words[0] + "-" + Hyphenated(words[1..])
  }

  /** Hyphens stand only between two other characters. */
  predicate IsSlug(s: string) {
    && s != "" && s[0] != '-' && s[|s| - 1] != '-'
    && (forall i :: 0 <= i < |s| ==> IsLetterOrDigit(s[i]) || s[i] == '-')
    && (forall i :: 0 < i < |s| ==> s[i - 1] != '-' || s[i] != '-')
  }

  lemma LetterIff(c: char)
    ensures c in LETTERS <==> 'a' <= c <= 'z'
  {
    if 'a' <= c <= 'z' {
      assert LETTERS[c as int - 'a' as int] == c;
    }
  }

  lemma DigitIff(c: char)
    ensures c in DIGITS <==> IsDigit(c)
  {
    if IsDigit(c) {
      assert DIGITS[c as int - '0' as int] == c;
    }
  }

  lemma SlugChars(c: char)
    ensures IsSlugChar(c) <==> IsLetterOrDigit(c) || c == '-'
    ensures c == '-' ==> !IsLetterOrDigit(c)
  {
    LetterIff(c);
    DigitIff(c);
  }

  lemma ClientIdIsSlug(s: string)
    ensures IsClientId(s) <==> |s| <= 64 && IsSlug(s)
  {
    forall i | 0 <= i < |s|
      ensures IsSlugChar(s[i]) <==> IsLetterOrDigit(s[i]) || s[i] == '-'
    {
      SlugChars(s[i]);
    }
  }

  lemma WordIsSlug(w: string)
    requires IsWord(w)
    ensures IsSlug(w) && forall i :: 0 <= i < |w| ==> w[i] != '-'
  {
    SlugChars('-');
    assert forall i :: 0 <= i < |w| ==> IsLetterOrDigit(w[i]);
  }

  lemma JoinedSlug(w: string, rest: string)
    requires IsWord(w) && IsSlug(rest)
    ensures IsSlug(w + "-" + rest)
  {
    WordIsSlug(w);
    var s := w + "-" + rest;
    forall i | 0 <= i < |s|
      ensures s[i] == if i < |w| then w[i] else if i == |w| then '-' else rest[i - |w| - 1]
    {}
  }

  lemma {:induction false} HyphenatedIsSlug(words: seq<string>)
    requires words != [] && forall i :: 0 <= i < |words| ==> IsWord(words[i])
    ensures IsSlug(Hyphenated(words))
  {
    if |words| == 1 {
      WordIsSlug(words[0]);
    } else {
      HyphenatedIsSlug(words[1..]);
      JoinedSlug(words[0], Hyphenated(words[1..]));
    }
  }

  /** A slug splits at its first hyphen into a word and a slug. */
  lemma SlugSplits(s: string, i: nat)
    requires IsSlug(s) && i < |s| && s[i] == '-' && '-' !in s[..i]
    ensures IsWord(s[..i]) && IsSlug(s[i + 1..]) && s == s[..i] + "-" + s[i + 1..]
  {
    var w, rest := s[..i], s[i + 1..];
    assert i + 1 < |s| && s[i + 1] != '-';
    forall k | 0 <= k < |w|
      ensures IsLetterOrDigit(w[k])
    {
      assert w[k] == s[k] && w[k] in w;
    }
    forall k | 0 <= k < |rest|
      ensures rest[k] == s[k + i + 1]
    {}
  }

  lemma {:induction false} SlugIsHyphenated(s: string) returns (words: seq<string>)
    requires IsSlug(s)
    ensures words != [] && s == Hyphenated(words) && forall i :: 0 <= i < |words| ==> IsWord(words[i])
    decreases |s|
  {
    if i :| 0 <= i < |s| && s[i] == '-' && '-' !in s[..i] {
      SlugSplits(s, i);
      var others := SlugIsHyphenated(s[i + 1..]);
      words := [s[..i]] + others;
      assert words[1..] == others;
    } else {
      HyphenFree(s);
      words := [s];
    }
  }

  lemma {:induction false} HyphenFree(s: string)
    requires !exists i :: 0 <= i < |s| && s[i] == '-' && '-' !in s[..i]
    ensures '-' !in s
  {
    if s != [] {
      forall i | 0 <= i < |s| - 1
        ensures !(s[i] == '-' && '-' !in s[..|s| - 1][..i])
      {
        assert s[..|s| - 1][..i] == s[..i];
      }
      HyphenFree(s[..|s| - 1]);
      assert s == s[..|s| - 1] + [s[|s| - 1]];
    }
  }

  /** A client id is at most 64 characters of words, in lowercase letters and digits, joined by hyphens. */
  lemma ClientIdIff(s: string)
    ensures IsClientId(s) <==>
              |s| <= 64 && exists words :: words != [] && (forall i :: 0 <= i < |words| ==> IsWord(words[i]))
                                           && s == Hyphenated(words)
  {
    ClientIdIsSlug(s);
    if IsSlug(s) {
      var words := SlugIsHyphenated(s);
    }
    if words :| words != [] && (forall i :: 0 <= i < |words| ==> IsWord(words[i])) && s == Hyphenated(words) {
      HyphenatedIsSlug(words);
    }
  }

  // --- Owners, weeks and the first reason ----------------------------------------------

  predicate Owns(p: Product, productId: string) {
    Lower(p.productId) == productId && HasClientId(p.clientId)
  }

  /** A product's owner is the client of the first product of that id with a valid client. */
  lemma {:induction false} OwnerIsTheFirstValid(products: seq<Product>, productId: string)
    ensures match OwnerOf(products, productId)
            case None => forall p :: p in products ==> !Owns(p, productId)
            case Some(owner) =>
              exists i :: 0 <= i < |products| && Owns(products[i], productId) && products[i].clientId == Some(owner)
                          && forall j :: 0 <= j < i ==> !Owns(products[j], productId)
  {
    if products != [] && !Owns(products[0], productId) {
      var rest := products[1..];
      OwnerIsTheFirstValid(rest, productId);
      if OwnerOf(rest, productId).Some? {
        var i :| 0 <= i < |rest| && Owns(rest[i], productId)
                 && rest[i].clientId == Some(OwnerOf(rest, productId).value)
                 && forall j :: 0 <= j < i ==> !Owns(rest[j], productId);
        assert products[i + 1] == rest[i];
        assert forall j :: 1 <= j < |products| ==> products[j] == rest[j - 1];
      }
    }
  }

  /**
   An event counts in the week that holds the earlier of its own time and its
   arrival, and for the client it names if that is valid, else its product's owner.
   */
  lemma EventReadsItsFields(raw: RawEvent, products: seq<Product>)
    ensures var e := Normalizer(products)(raw);
            var productId := Clean(raw.productId);
            && e.id == raw.id && e.timestamp == raw.timestamp && e.createdAt == raw.createdAt
            && e.eventType == raw.eventType
            && IsMonday(e.week)
            && Midnight(e.week) <= raw.timestamp && Midnight(e.week) <= raw.createdAt
            && (raw.timestamp < Midnight(e.week + 7) || raw.createdAt < Midnight(e.week + 7))
            && e.warehouse == Clean(raw.warehouse) && e.quantity == ParseQuantity(Clean(raw.quantity))
            && e.orderId == Clean(raw.orderId) && e.triggeringOrderId == Clean(raw.triggeringOrderId)
            && e.thresholdBand == Clean(raw.thresholdBand) && e.reconciliationId == Clean(raw.reconciliationId)
            && e.productId == (if productId.None? then None else Some(Lower(productId.value)))
            && (HasClientId(Clean(raw.clientId)) ==> e.clientId == Clean(raw.clientId))
            && (!HasClientId(Clean(raw.clientId)) ==>
                  e.clientId == if productId.None? then None else OwnerOf(products, Lower(productId.value)))
  {
    var effective := EffectiveTime(raw.timestamp, raw.createdAt);
    WeekContainsMoment(effective, WeekStartOf(effective));
  }

  /** The reason an event is left out for, before duplicates: the first of the five that applies. */
  lemma FirstReasonIs(e: Event, weeks: seq<Date>)
    ensures FirstReason(e, weeks) ==
              if e.warehouse != Some("Monterrey") && e.warehouse != Some("Zaragoza") then Some(UnknownWarehouse)
              else if e.eventType.Inbound? && (e.quantity.None? || e.quantity.value < 1) then Some(InvalidQuantity)
              else if e.clientId.None? then Some(MissingClientId)
              else if e.eventType.Threshold? && e.thresholdBand !in {Some("low"), Some("out_of_stock")}
              then Some(UnknownThresholdBand)
              else if e.week !in weeks then Some(OutsideWindow)
              else None
  {
    assert CHECKS[0].UnknownWarehouse? && CHECKS[1].InvalidQuantity? && CHECKS[2].MissingClientId?;
    assert CHECKS[3].UnknownThresholdBand? && CHECKS[4].OutsideWindow?;
  }

  // --- The columns ---------------------------------------------------------------------

  function UnitsOf(c: Countable): int {
    if c.quantity.Some? then c.quantity.value else 0
  }

  function Reports(t: EventType, warehouse: string, clientId: string, week: Date): Countable -> bool {
    (c: Countable) => c == Countable(t, Some(warehouse), Some(clientId), week, c.quantity)
  }

  /**
   The inbound column of a key is the sum of its events' own quantities, and the
   others are the numbers of their events.
   */
  lemma ColumnsAreUnitsAndCounts(countable: seq<Countable>, key: Key)
    requires AllCountable(countable)
    ensures var events := (t: EventType) => Filter(countable, Reports(t, key.warehouse, key.clientId, key.weekStart));
            && Column(countable, Inbound, key) == SumOf(events(Inbound), UnitsOf)
            && Column(countable, Outbound, key) == |events(Outbound)|
            && Column(countable, Threshold, key) == |events(Threshold)|
            && Column(countable, Discrepancy, key) == |events(Discrepancy)|
  {
    forall t: EventType
      ensures var reports := Reports(t, key.warehouse, key.clientId, key.weekStart);
              && Column(countable, t, key) == SumOf(countable, Where(reports, if t.Inbound? then UnitsOf else One()))
              && SumOf(Filter(countable, reports), UnitsOf) == SumOf(countable, Where(reports, UnitsOf))
              && |Filter(countable, reports)| == SumOf(countable, Where(reports, One()))
    {
      var reports := Reports(t, key.warehouse, key.clientId, key.weekStart);
      SumSame(countable, Where(Feeds(t, key), Amount), Where(reports, if t.Inbound? then UnitsOf else One()));
      SumOverFilter(countable, reports, UnitsOf);
      CountOfFilter(countable, reports);
    }
  }

  /** The rows are in order of week, then of warehouse and of client in the order of text. */
  lemma RowsAreInOrder(countable: seq<Countable>, products: seq<Product>, weeks: seq<Date>, i: nat, j: nat)
    requires AllCountable(countable)
    requires RowsOf(countable, products, weeks).Success? && i < j < |RowsOf(countable, products, weeks).value|
    ensures var rows := RowsOf(countable, products, weeks).value;
            var a, b := rows[i].key, rows[j].key;
            || a.weekStart < b.weekStart
            || (a.weekStart == b.weekStart && TextBefore(a.warehouse, b.warehouse))
            || (a.weekStart == b.weekStart && a.warehouse == b.warehouse && TextBefore(a.clientId, b.clientId))
  {
    RowsAreTheAggregates(countable, products, weeks);
    var rows := RowsOf(countable, products, weeks).value;
    assert RowLeq(rows[i], rows[j]);
    TextLeqIff(rows[i].key.warehouse, rows[j].key.warehouse);
    TextLeqIff(rows[i].key.clientId, rows[j].key.clientId);
  }
}

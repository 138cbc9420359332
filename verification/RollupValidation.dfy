/**
 The gate before the load (`validate`, data/process/weekly_rollup.py), and why it
 never refuses what the transform builds.
 */
module RollupValidation {
  import opened Common
  import opened Sequences
  import opened Weeks
  import opened WeeklyLoad
  import opened RollupEvents
  import opened RollupPrepare
  import opened RollupFigures
  import opened RollupRows

  datatype Rule =
    | RepeatedKey | NotAMondayWeek | OutsideTheWeeks | WeekNotClosed | UnknownWarehouseName | InvalidClient
    | NegativeCount | RateDisagrees

  datatype Problem = Problem(rule: Rule, rows: nat)

  const RULES: seq<Rule> :=
    [RepeatedKey, NotAMondayWeek, OutsideTheWeeks, WeekNotClosed, UnknownWarehouseName, InvalidClient, NegativeCount,
     RateDisagrees]

  /** The row shares its key with another row. */
  predicate Repeats(rows: seq<Record>, key: Key) {
    exists i, j :: 0 <= i < j < |rows| && rows[i].key == key && rows[j].key == key
  }

  predicate Breaks(rule: Rule, rows: seq<Record>, weeks: seq<Date>, newestClosed: Date, row: Record) {
    var f := row.figures;
    match rule
    case RepeatedKey => Repeats(rows, row.key)
    case NotAMondayWeek => !IsMonday(row.key.weekStart)
    case OutsideTheWeeks => row.key.weekStart !in weeks
    case WeekNotClosed => row.key.weekStart > newestClosed
    case UnknownWarehouseName => row.key.warehouse !in WAREHOUSES
    case InvalidClient => !IsClientId(row.key.clientId)
    case NegativeCount => f.inboundUnits < 0 || f.outboundOrders < 0 || f.stockouts < 0 || f.discrepancies < 0
    case RateDisagrees => f.rate != Rate(f.discrepancies, f.outboundOrders)
  }

  function Breaking(rule: Rule, rows: seq<Record>, weeks: seq<Date>, newestClosed: Date): Record -> bool {
    row => Breaks(rule, rows, weeks, newestClosed, row)
  }

  /** The problems the first rules of the list find, in order. */
  function ProblemsOf(rules: seq<Rule>, rows: seq<Record>, weeks: seq<Date>, newestClosed: Date): seq<Problem> {
    if rules == [] then []
    else
      var earlier := ProblemsOf(rules[..|rules| - 1], rows, weeks, newestClosed);
      var rule := rules[|rules| - 1];
      var broken := |Filter(rows, Breaking(rule, rows, weeks, newestClosed))|;
      if broken > 0 then earlier + [Problem(rule, broken)] else earlier
  }

  method Validate(rows: seq<Record>, weeks: seq<Date>, newestClosed: Date)
    returns (result: Result<seq<Record>, seq<Problem>>)
    ensures var problems := ProblemsOf(RULES, rows, weeks, newestClosed);
            result == if rows == [] || problems == [] then Success(rows) else Failure(problems)
    ensures result.Success? <==> IsPublishable(rows, weeks, newestClosed)
  {
    AcceptedIff(rows, weeks, newestClosed);
    if rows == [] {
      return Success(rows);
    }
    var problems := [];
    for i := 0 to |RULES|
      invariant problems == ProblemsOf(RULES[..i], rows, weeks, newestClosed)
    {
      var broken := |Filter(rows, Breaking(RULES[i], rows, weeks, newestClosed))|;
      assert RULES[..i + 1][..i] == RULES[..i];
      if broken > 0 {
        problems := problems + [Problem(RULES[i], broken)];
      }
    }
    assert RULES[..|RULES|] == RULES;
    if problems != [] {
      return Failure(problems);
    }
    return Success(rows);
  }

  /** One row the destination table may hold. */
  predicate RowIsPublishable(row: Record, weeks: seq<Date>, newestClosed: Date) {
    && IsMonday(row.key.weekStart) && row.key.weekStart in weeks && row.key.weekStart <= newestClosed
    && row.key.warehouse in WAREHOUSES && IsClientId(row.key.clientId)
    && row.figures.inboundUnits >= 0 && row.figures.outboundOrders >= 0
    && row.figures.stockouts >= 0 && row.figures.discrepancies >= 0
    && row.figures.rate == Rate(row.figures.discrepancies, row.figures.outboundOrders)
  }

  predicate IsPublishable(rows: seq<Record>, weeks: seq<Date>, newestClosed: Date) {
    && DistinctKeys(rows)
    && forall r :: r in rows ==> RowIsPublishable(r, weeks, newestClosed)
  }

  lemma {:induction false} NoProblemsIff(rules: seq<Rule>, rows: seq<Record>, weeks: seq<Date>, newestClosed: Date)
    ensures ProblemsOf(rules, rows, weeks, newestClosed) == [] <==>
            forall rule, r :: rule in rules && r in rows ==> !Breaks(rule, rows, weeks, newestClosed, r)
  {
    if rules != [] {
      var front, last := rules[..|rules| - 1], rules[|rules| - 1];
      NoProblemsIff(front, rows, weeks, newestClosed);
      FilterIsEmptyIff(rows, Breaking(last, rows, weeks, newestClosed));
    }
  }

  lemma EveryRuleIsListed(rule: Rule)
    ensures rule in RULES
  {
  }

  lemma PublishableIff(rows: seq<Record>, weeks: seq<Date>, newestClosed: Date, row: Record)
    ensures (forall rule :: !Breaks(rule, rows, weeks, newestClosed, row)) <==>
            !Repeats(rows, row.key) && RowIsPublishable(row, weeks, newestClosed)
  {
    if forall rule :: !Breaks(rule, rows, weeks, newestClosed, row) {
      assert !Breaks(RepeatedKey, rows, weeks, newestClosed, row);
      assert !Breaks(NotAMondayWeek, rows, weeks, newestClosed, row);
      assert !Breaks(OutsideTheWeeks, rows, weeks, newestClosed, row);
      assert !Breaks(WeekNotClosed, rows, weeks, newestClosed, row);
      assert !Breaks(UnknownWarehouseName, rows, weeks, newestClosed, row);
      assert !Breaks(InvalidClient, rows, weeks, newestClosed, row);
      assert !Breaks(NegativeCount, rows, weeks, newestClosed, row);
      assert !Breaks(RateDisagrees, rows, weeks, newestClosed, row);
    }
  }

  /** The gate lets through exactly the rows the table's constraints allow. */
  lemma AcceptedIff(rows: seq<Record>, weeks: seq<Date>, newestClosed: Date)
    ensures rows == [] || ProblemsOf(RULES, rows, weeks, newestClosed) == []
          <==> IsPublishable(rows, weeks, newestClosed)
  {
    NoProblemsIff(RULES, rows, weeks, newestClosed);
    forall rule
      ensures rule in RULES
    {
      EveryRuleIsListed(rule);
    }
    forall r | r in rows
      ensures (forall rule :: rule in RULES ==> !Breaks(rule, rows, weeks, newestClosed, r)) <==>
              !Repeats(rows, r.key) && RowIsPublishable(r, weeks, newestClosed)
    {
      PublishableIff(rows, weeks, newestClosed, r);
    }
  }

  // --- What the transform hands over ---------------------------------------------------

  predicate IsScreened(c: Countable, weeks: seq<Date>) {
    && c.warehouse.Some? && c.warehouse.value in WAREHOUSES
    && c.clientId.Some? && IsClientId(c.clientId.value)
    && c.week in weeks && IsMonday(c.week)
    && (c.eventType.Inbound? ==> IsUnitCount(c.quantity))
  }

  lemma PassesEveryCheck(e: Event, weeks: seq<Date>)
    requires FirstReason(e, weeks).None?
    ensures forall check :: !Fails(check, e, weeks)
  {
    assert !Fails(CHECKS[0], e, weeks) && !Fails(CHECKS[1], e, weeks) && !Fails(CHECKS[2], e, weeks);
    assert !Fails(CHECKS[3], e, weeks) && !Fails(CHECKS[4], e, weeks);
  }

  lemma UnexcludedIsScreened(raw: RawEvent, products: seq<Product>, weeks: seq<Date>)
    requires FirstReason(Normalizer(products)(raw), weeks).None?
    ensures IsScreened(CountableOf(Normalizer(products)(raw)), weeks)
  {
    var e := Normalizer(products)(raw);
    PassesEveryCheck(e, weeks);
    assert !Fails(UnknownWarehouse, e, weeks) && !Fails(InvalidQuantity, e, weeks);
    assert !Fails(MissingClientId, e, weeks) && !Fails(OutsideWindow, e, weeks);
    ResolvedClientsAreValid(NormalizeEvent(raw), products);
  }

  /** Every event the KPIs receive has been screened. */
  lemma CountableAreScreened(events: seq<RawEvent>, products: seq<Product>, weeks: seq<Date>)
    ensures forall c :: c in PrepareEvents(events, products, weeks).countable ==> IsScreened(c, weeks)
  {
    var normalized := Normalized(events, products);
    var kept := Unexcluded(FinalReason(normalized, weeks));
    var counted := Filter(normalized, kept);
    FilterHolds(normalized, kept);
    forall i | 0 <= i < |counted|
      ensures IsScreened(CountableOf(counted[i]), weeks)
    {
      assert counted[i] in counted;
      var at :| 0 <= at < |normalized| && normalized[at] == counted[i];
      UnexcludedIsScreened(events[at], products, weeks);
    }
  }

  lemma ColumnIsNatural(countable: seq<Countable>, t: EventType, key: Key)
    requires AllCountable(countable)
    ensures Column(countable, t, key) >= 0
    ensures Column(countable, t, key) == 0 <==> forall c :: c in countable ==> !Feeds(t, key)(c)
  {
    SumNonNegative(countable, Where(Feeds(t, key), Amount));
  }

  /** A row is all zero exactly when no countable event has its key. */
  lemma ZeroRowIff(countable: seq<Countable>, key: Key)
    requires AllCountable(countable)
    ensures Aggregate(countable, key) == Figures(0, 0, 0, 0, 0) <==> !HasEvent(countable, key)
  {
    ColumnIsNatural(countable, Inbound, key);
    ColumnIsNatural(countable, Outbound, key);
    ColumnIsNatural(countable, Threshold, key);
    ColumnIsNatural(countable, Discrepancy, key);
  }

  /** The rate is the nearest ten-thousandth, the even one of two equally near. */
  lemma RateIsNearest(discrepancies: int, orders: int)
    requires orders > 0
    ensures var rate := Rate(discrepancies, orders);
            && -orders <= 2 * (10_000 * discrepancies - rate * orders) <= orders
            && (2 * (10_000 * discrepancies - rate * orders) == orders ==> rate % 2 == 0)
            && (2 * (10_000 * discrepancies - rate * orders) == -orders ==> rate % 2 == 0)
  {
    var n := 10_000 * discrepancies;
    var q, r := n / orders, n % orders;
    assert n == q * orders + r;
    assert (q + 1) * orders == q * orders + orders;
  }

  lemma ScreenedRowIsPublishable(
    row: Record, countable: seq<Countable>, products: seq<Product>, weeks: seq<Date>, newestClosed: Date)
    requires forall c :: c in countable ==> IsScreened(c, weeks)
    requires forall w :: w in weeks ==> IsMonday(w) && w <= newestClosed
    requires IsRow(row, countable, products, weeks)
    ensures RowIsPublishable(row, weeks, newestClosed)
  {
    ColumnIsNatural(countable, Inbound, row.key);
    ColumnIsNatural(countable, Outbound, row.key);
    ColumnIsNatural(countable, Threshold, row.key);
    ColumnIsNatural(countable, Discrepancy, row.key);
  }

  /**
   For any events, any products and any closed Monday weeks: no KPI refuses, the
   gate lets the rows through, and they are a batch the load accepts.
   */
  lemma RollupIsNeverRefused(events: seq<RawEvent>, products: seq<Product>, weeks: seq<Date>, newestClosed: Date)
    requires weeks != [] && forall w :: w in weeks ==> IsMonday(w) && w <= newestClosed
    ensures var rollup := BuildRollup(events, products, weeks);
            && rollup.Success?
            && IsPublishable(rollup.value.rows, weeks, newestClosed)
            && ProblemsOf(RULES, rollup.value.rows, weeks, newestClosed) == []
            && ValidBatch(rollup.value.rows, weeks)
  {
    var countable := PrepareEvents(events, products, weeks).countable;
    CountableAreScreened(events, products, weeks);
    RowsAreTheAggregates(countable, products, weeks);
    var rows := RowsOf(countable, products, weeks).value;
    forall r | r in rows
      ensures RowIsPublishable(r, weeks, newestClosed)
    {
      ScreenedRowIsPublishable(r, countable, products, weeks, newestClosed);
    }
    assert forall i :: 0 <= i < |rows| ==> rows[i] in rows;
    AcceptedIff(rows, weeks, newestClosed);
    NoProblemsIff(RULES, rows, weeks, newestClosed);
  }
}

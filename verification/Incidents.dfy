/**
 The incident list, its summary and their cached reads
 (services/incidents/service.py and services/incidents/router.py), one request at
 a time. CachedReads.dfy covers requests that interleave.
 */
module Incidents {
  import opened Common
  import opened Sequences
  import opened ReadCache

  datatype Status = Open | InProgress | Resolved | Discarded

  datatype Origin = Customer | Branch | Internal

  datatype Site = Central | LaWarehouse | LaOffice | ZaragozaWarehouse | ZaragozaOffice

  datatype Category =
    | LostParcel | DeliveryFailure | InventoryDiscrepancy | CarrierIssue | ReturnsIssue | WarehouseIncident
    | SystemFailure | ClientComplaint | Other

  datatype Incident = Incident(
    id: string, title: string, description: string, category: Category, origin: Origin, branch: Site,
    status: Status, createdAt: int, updatedAt: int)

  datatype Filters = Filters(
    status: Option<Status>, origin: Option<Origin>, branch: Option<Site>, category: Option<Category>)

  datatype Summary = Summary(
    total: nat, byStatus: map<Status, nat>, byCategory: map<Category, nat>, byOrigin: map<Origin, nat>,
    byBranch: map<Site, nat>)

  datatype Query = ListQuery(filters: Filters) | SummaryQuery

  const STATUSES: set<Status> := {Open, InProgress, Resolved, Discarded}
  const ORIGINS: set<Origin> := {Customer, Branch, Internal}
  const SITES: set<Site> := {Central, LaWarehouse, LaOffice, ZaragozaWarehouse, ZaragozaOffice}
  const CATEGORIES: set<Category> :=
    {LostParcel, DeliveryFailure, InventoryDiscrepancy, CarrierIssue, ReturnsIssue, WarehouseIncident, SystemFailure,
     ClientComplaint, Other}

  function StatusValue(s: Status): string {
    match s
    case Open => "open"
    case InProgress => "in_progress"
    case Resolved => "resolved"
    case Discarded => "discarded"
  }

  function OriginValue(o: Origin): string {
    match o
    case Customer => "customer"
    case Branch => "branch"
    case Internal => "internal"
  }

  function SiteValue(b: Site): string {
    match b
    case Central => "central"
    case LaWarehouse => "la_warehouse"
    case LaOffice => "la_office"
    case ZaragozaWarehouse => "zaragoza_warehouse"
    case ZaragozaOffice => "zaragoza_office"
  }

  function CategoryValue(c: Category): string {
    match c
    case LostParcel => "lost_parcel"
    case DeliveryFailure => "delivery_failure"
    case InventoryDiscrepancy => "inventory_discrepancy"
    case CarrierIssue => "carrier_issue"
    case ReturnsIssue => "returns_issue"
    case WarehouseIncident => "warehouse_incident"
    case SystemFailure => "system_failure"
    case ClientComplaint => "client_complaint"
    case Other => "other"
  }

  // --- The list ------------------------------------------------------------------------

  function Newest(a: Incident, b: Incident): bool { a.createdAt >= b.createdAt }

  function StatusIs(s: Status): Incident -> bool { (i: Incident) => i.status == s }
  function OriginIs(o: Origin): Incident -> bool { (i: Incident) => i.origin == o }
  function BranchIs(b: Site): Incident -> bool { (i: Incident) => i.branch == b }
  function CategoryIs(c: Category): Incident -> bool { (i: Incident) => i.category == c }

  /** One optional filter of the list. */
  function Narrowed<V>(incidents: seq<Incident>, wanted: Option<V>, having: V -> (Incident -> bool)): seq<Incident> {
    if wanted.None? then incidents else Filter(incidents, having(wanted.value))
  }

  function ListIncidents(table: seq<Incident>, filters: Filters): seq<Incident> {
    var byStatus := Narrowed(table, filters.status, StatusIs);
    var byOrigin := Narrowed(byStatus, filters.origin, OriginIs);
    var byBranch := Narrowed(byOrigin, filters.branch, BranchIs);
    Sort(Narrowed(byBranch, filters.category, CategoryIs), Newest)
  }

  predicate Matches(filters: Filters, i: Incident) {
    && (filters.status.None? || i.status == filters.status.value)
    && (filters.origin.None? || i.origin == filters.origin.value)
    && (filters.branch.None? || i.branch == filters.branch.value)
    && (filters.category.None? || i.category == filters.category.value)
  }

  function Matching(filters: Filters): Incident -> bool { (i: Incident) => Matches(filters, i) }

  lemma NarrowedAgain<V>(
    table: seq<Incident>, soFar: Incident -> bool, wanted: Option<V>, having: V -> (Incident -> bool),
          both: Incident -> bool)
    requires forall i :: both(i) == (soFar(i) && (wanted.None? || having(wanted.value)(i)))
    ensures Narrowed(Filter(table, soFar), wanted, having) == Filter(table, both)
  {
    if wanted.Some? {
      FilterWhere(table, soFar, having(wanted.value), both);
    } else {
      FilterSame(table, soFar, both);
    }
  }

  /** The filters combine with AND, whichever of them are given. */
  lemma FiltersCombine(table: seq<Incident>, filters: Filters)
    ensures ListIncidents(table, filters) == Sort(Filter(table, Matching(filters)), Newest)
  {
    var none := Filters(None, None, None, None);
    var byStatus := none.(status := filters.status);
    var byOrigin := byStatus.(origin := filters.origin);
    var byBranch := byOrigin.(branch := filters.branch);
    FilterAll(table, Matching(none));
    NarrowedAgain(table, Matching(none), filters.status, StatusIs, Matching(byStatus));
    NarrowedAgain(table, Matching(byStatus), filters.origin, OriginIs, Matching(byOrigin));
    NarrowedAgain(table, Matching(byOrigin), filters.branch, BranchIs, Matching(byBranch));
    NarrowedAgain(table, Matching(byBranch), filters.category, CategoryIs, Matching(filters));
  }

  /**
   The list holds each matching incident as often as the table does, newest
   first, and incidents of the same moment in the order of the table.
   */
  lemma ListIsNewestFirst(table: seq<Incident>, filters: Filters, moment: int)
    ensures var listed := ListIncidents(table, filters);
            var same := (i: Incident) => i.createdAt == moment;
            && multiset(listed) == multiset(Filter(table, Matching(filters)))
            && (forall a, b :: 0 <= a < b < |listed| ==> listed[a].createdAt >= listed[b].createdAt)
            && Filter(listed, same) == Filter(Filter(table, Matching(filters)), same)
  {
    var matching := Filter(table, Matching(filters));
    FiltersCombine(table, filters);
    SortHolds(matching, Elements(matching), Newest);
    SortIsStable(matching, Elements(matching), Newest, (i: Incident) => i.createdAt == moment);
    var listed := ListIncidents(table, filters);
    forall a, b | 0 <= a < b < |listed|
      ensures listed[a].createdAt >= listed[b].createdAt
    {
      assert Newest(listed[a], listed[b]);
    }
  }

  // --- The summary ---------------------------------------------------------------------

  function StatusOf(i: Incident): Status { i.status }
  function CategoryOf(i: Incident): Category { i.category }
  function OriginOf(i: Incident): Origin { i.origin }
  function BranchOf(i: Incident): Site { i.branch }

  function Tally<V>(table: seq<Incident>, values: set<V>, valueOf: Incident -> V): map<V, nat> {
    map v | v in values :: |Filter(table, InGroup(valueOf, v))|
  }

  function SummaryOf(table: seq<Incident>): Summary {
    Summary(|table|, Tally(table, STATUSES, StatusOf), Tally(table, CATEGORIES, CategoryOf),
            Tally(table, ORIGINS, OriginOf), Tally(table, SITES, BranchOf))
  }

  lemma TallyGrows<V>(table: seq<Incident>, i: Incident, values: set<V>, valueOf: Incident -> V)
    requires valueOf(i) in values
    ensures var before := Tally(table, values, valueOf);
            Tally(table + [i], values, valueOf) == before[valueOf(i) := before[valueOf(i)] + 1]
  {
    var before, after := Tally(table, values, valueOf), Tally(table + [i], values, valueOf);
    forall v | v in values
      ensures after[v] == if v == valueOf(i) then before[v] + 1 else before[v]
    {
      FilterAppends(table, [i], InGroup(valueOf, v));
    }
  }

  lemma ValuesAreListed(i: Incident)
    ensures i.status in STATUSES && i.category in CATEGORIES && i.origin in ORIGINS && i.branch in SITES
    ensures i.status in [Open, InProgress, Resolved, Discarded]
  {
    assert i.status == Open || i.status == InProgress || i.status == Resolved || i.status == Discarded;
    assert i.origin == Customer || i.origin == Branch || i.origin == Internal;
    var c := i.category;
    assert c == LostParcel || c == DeliveryFailure || c == InventoryDiscrepancy || c == CarrierIssue
           || c == ReturnsIssue || c == WarehouseIncident || c == SystemFailure || c == ClientComplaint || c == Other;
    var b := i.branch;
    assert b == Central || b == LaWarehouse || b == LaOffice || b == ZaragozaWarehouse || b == ZaragozaOffice;
  }

  /** The summary with one more incident counted. */
  function Counted(s: Summary, i: Incident): Summary
    requires i.status in s.byStatus && i.category in s.byCategory && i.origin in s.byOrigin && i.branch in s.byBranch
  {
    Summary(s.total + 1, s.byStatus[i.status := s.byStatus[i.status] + 1],
            s.byCategory[i.category := s.byCategory[i.category] + 1], s.byOrigin[i.origin := s.byOrigin[i.origin] + 1],
            s.byBranch[i.branch := s.byBranch[i.branch] + 1])
  }

  lemma SummaryGrows(table: seq<Incident>, i: Incident)
    ensures var s := SummaryOf(table);
            && i.status in s.byStatus && i.category in s.byCategory && i.origin in s.byOrigin && i.branch in s.byBranch
            && SummaryOf(table + [i]) == Counted(s, i)
  {
    ValuesAreListed(i);
    TallyGrows(table, i, STATUSES, StatusOf);
    TallyGrows(table, i, CATEGORIES, CategoryOf);
    TallyGrows(table, i, ORIGINS, OriginOf);
    TallyGrows(table, i, SITES, BranchOf);
  }

  /** Every counter starts at zero and one pass over the incidents fills them. */
  method Summarize(table: seq<Incident>) returns (summary: Summary)
    ensures summary == SummaryOf(table)
  {
    var byStatus: map<Status, nat> := map v | v in STATUSES :: 0;
    var byCategory: map<Category, nat> := map v | v in CATEGORIES :: 0;
    var byOrigin: map<Origin, nat> := map v | v in ORIGINS :: 0;
    var byBranch: map<Site, nat> := map v | v in SITES :: 0;
    for n := 0 to |table|
      invariant Summary(n, byStatus, byCategory, byOrigin, byBranch) == SummaryOf(table[..n])
    {
      var i := table[n];
      assert table[..n + 1] == table[..n] + [i];
      SummaryGrows(table[..n], i);
      byStatus := byStatus[i.status := byStatus[i.status] + 1];
      byCategory := byCategory[i.category := byCategory[i.category] + 1];
      byOrigin := byOrigin[i.origin := byOrigin[i.origin] + 1];
      byBranch := byBranch[i.branch := byBranch[i.branch] + 1];
    }
    assert table[..|table|] == table;
    return Summary(|table|, byStatus, byCategory, byOrigin, byBranch);
  }

  lemma BucketIsAListLength<V>(table: seq<Incident>, filters: Filters, values: set<V>, valueOf: Incident -> V, v: V)
    requires v in values && forall i :: Matches(filters, i) <==> valueOf(i) == v
    ensures Tally(table, values, valueOf)[v] == |ListIncidents(table, filters)|
  {
    ListIsNewestFirst(table, filters, 0);
    assert |multiset(ListIncidents(table, filters))| == |multiset(Filter(table, Matching(filters)))|;
    FilterSame(table, Matching(filters), InGroup(valueOf, v));
  }

  /** The total counts every incident, and each bucket is the length of the list filtered by its value. */
  lemma SummaryAgreesWithTheList(table: seq<Incident>, s: Status, c: Category, o: Origin, b: Site)
    ensures var summary := SummaryOf(table);
            && summary.total == |table|
            && s in summary.byStatus && c in summary.byCategory && o in summary.byOrigin && b in summary.byBranch
            && summary.byStatus[s] == |ListIncidents(table, Filters(Some(s), None, None, None))|
            && summary.byCategory[c] == |ListIncidents(table, Filters(None, None, None, Some(c)))|
            && summary.byOrigin[o] == |ListIncidents(table, Filters(None, Some(o), None, None))|
            && summary.byBranch[b] == |ListIncidents(table, Filters(None, None, Some(b), None))|
  {
    ValuesAreListed(Incident("", "", "", c, o, b, s, 0, 0));
    BucketIsAListLength(table, Filters(Some(s), None, None, None), STATUSES, StatusOf, s);
    BucketIsAListLength(table, Filters(None, None, None, Some(c)), CATEGORIES, CategoryOf, c);
    BucketIsAListLength(table, Filters(None, Some(o), None, None), ORIGINS, OriginOf, o);
    BucketIsAListLength(table, Filters(None, None, Some(b), None), SITES, BranchOf, b);
  }

  /** The status buckets add up to the total: every incident is in one of them. */
  lemma StatusBucketsAddUp(table: seq<Incident>)
    ensures SumOf([Open, InProgress, Resolved, Discarded], CountIn(table, StatusOf)) == SummaryOf(table).total
  {
    var all := [Open, InProgress, Resolved, Discarded];
    forall i | i in table
      ensures InGroups(StatusOf, all)(i)
    {
      ValuesAreListed(i);
      assert InGroups(StatusOf, all)(i) == (StatusOf(i) in all);
    }
    CountByGroup(table, all, StatusOf);
    FilterAll(table, InGroups(StatusOf, all));
  }

  // --- Cached reads, one at a time -----------------------------------------------------

  /** How responses are written as JSON: not part of this model. */
  datatype Json = Json(list: seq<Incident> -> Payload, summary: Summary -> Payload)

  function Response(json: Json, table: seq<Incident>, query: Query): Payload {
    match query
    case ListQuery(filters) => json.list(ListIncidents(table, filters))
    case SummaryQuery => json.summary(SummaryOf(table))
  }

  function ValueOf<V>(wanted: Option<V>, value: V -> string): Option<string> {
    if wanted.None? then None else Some(value(wanted.value))
  }

  function CacheKeyOf(query: Query): CacheKey {
    match query
    case ListQuery(f) =>
      [Some("list"), ValueOf(f.status, StatusValue), ValueOf(f.origin, OriginValue), ValueOf(f.branch, SiteValue),
       ValueOf(f.category, CategoryValue)]
    case SummaryQuery => [Some("summary")]
  }

  /** Two requests share a cache entry only when they ask the same. */
  lemma CacheKeysIdentifyQueries(a: Query, b: Query)
    requires CacheKeyOf(a) == CacheKeyOf(b)
    ensures a == b
  {
  }

  datatype UpdateError = IncidentNotFound | InvalidTransition

  /** The lifecycle: `resolved` and `discarded` are final. */
  predicate CanTransition(from: Status, to: Status) {
    match from
    case Open => to.InProgress? || to.Discarded?
    case InProgress => to.Resolved? || to.Discarded?
    case _ => false
  }

  function FindIncident(table: seq<Incident>, id: string): Option<Incident> {
    if table == [] then None
    else if table[0].id == id then Some(table[0])
    else FindIncident(table[1..], id)
  }

  function MovedIf(id: string, status: Status, at: int): Incident -> Incident {
    (i: Incident) => if i.id == id then i.(status := status, updatedAt := at) else i
  }

  /** The stored incident of an id, or none. */
  lemma {:induction false} FindIncidentFinds(table: seq<Incident>, id: string)
    ensures match FindIncident(table, id)
            case None => forall i :: i in table ==> i.id != id
            case Some(found) => found in table && found.id == id
  {
    if table != [] {
      FindIncidentFinds(table[1..], id);
    }
  }

  /** The moves a status may make. */
  predicate IsAllowed(from: Status, to: Status) {
    (from, to) in {(Open, InProgress), (Open, Discarded), (InProgress, Resolved), (InProgress, Discarded)}
  }

  /** The same incident with another status, at another time. */
  predicate IsMoved(before: Incident, after: Incident, status: Status, at: int) {
    after == Incident(before.id, before.title, before.description, before.category, before.origin, before.branch,
                      status, before.createdAt, at)
  }

  class IncidentApi {
    const json: Json
    const cache: IncidentReadCache
    var table: seq<Incident>

    /** Every cached payload is the response to the request it is filed under. */
    ghost predicate Coherent()
      reads this, cache
    {
      && cache.Valid()
      && forall e, q :: e in cache.entries && CacheKeyOf(q) == e.key ==> e.payload == Response(json, table, q)
    }

    constructor (json: Json)
      ensures Coherent() && fresh(cache) && this.json == json && table == []
    {
      this.json := json;
      cache := new IncidentReadCache(READ_CACHE_TTL, READ_CACHE_MAX_ENTRIES, READ_CACHE_MAX_BYTES);
      table := [];
    }

    /** The write, then the clear: no cached answer survives it. */
    method CreateIncident(incident: Incident)
      requires Coherent()
      modifies this, cache
      ensures Coherent() && table == old(table) + [incident] && cache.entries == []
    {
      table := table + [incident];
      cache.Clear();
    }

    /** A refused move writes nothing and clears nothing; an accepted one does both. */
    method UpdateStatus(id: string, status: Status, at: int) returns (result: Result<Incident, UpdateError>)
      requires Coherent()
      modifies this, cache
      ensures Coherent()
      ensures result.Failure? ==> table == old(table) && cache.entries == old(cache.entries)
      ensures result == Failure(IncidentNotFound) <==> forall i :: i in old(table) ==> i.id != id
      ensures result == Failure(InvalidTransition) ==>
                exists i :: i in old(table) && i.id == id && !IsAllowed(i.status, status)
      ensures result.Success? ==>
                && cache.entries == [] && |table| == |old(table)|
                && (forall k :: 0 <= k < |table| ==>
                      if old(table)[k].id == id then IsMoved(old(table)[k], table[k], status, at)
                      else table[k] == old(table)[k])
                && (exists i :: i in old(table) && i.id == id && IsAllowed(i.status, status)
                                && IsMoved(i, result.value, status, at))
    {
      FindIncidentFinds(table, id);
      var found := FindIncident(table, id);
      if found.None? {
        return Failure(IncidentNotFound);
      }
      if !CanTransition(found.value.status, status) {
        return Failure(InvalidTransition);
      }
      table := MapSeq(table, MovedIf(id, status, at));
      cache.Clear();
      return Success(found.value.(status := status, updatedAt := at));
    }

    /** A cached read answers exactly as an uncached one would. */
    method Read(query: Query, lookedUp: Instant, stored: Instant) returns (payload: Payload)
      requires Coherent()
      modifies cache
      ensures Coherent() && table == old(table)
      ensures payload == Response(json, table, query)
    {
      var key := CacheKeyOf(query);
      GetKeepsMembers(cache.View(), key, lookedUp);
      FindHolds(cache.entries, key);
      var cached := cache.Get(key, lookedUp);
      if cached.Some? {
        return cached.value;
      }
      var generation := cache.generation;
      match query {
        case ListQuery(filters) =>
          payload := json.list(ListIncidents(table, filters));
        case SummaryQuery =>
          var summary := Summarize(table);
          payload := json.summary(summary);
      }
      ghost var before := cache.View();
      cache.Set(key, payload, Some(generation), stored);
      if IsAccepted(cache.limits, generation, payload, Some(generation)) {
        SetKeepsMembers(cache.limits, before, key, payload, Some(generation), stored);
      }
      forall e, q | e in cache.entries && CacheKeyOf(q) == e.key
        ensures e.payload == Response(json, table, q)
      {
        if e !in before.entries {
          CacheKeysIdentifyQueries(q, query);
        }
      }
    }
  }
}

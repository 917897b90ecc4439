/** The incident list's query: a case-insensitive search, the threat-level and status
    filters, and a stable sort in one of three orders. The list handed in is never
    changed; the query builds a new one. */
module IncidentList {
  import opened Common
  import Text
  import opened Incidents
  import StableSort

  /** A filter that is either switched off ('ALL') or keeps one value. */
  datatype Choice<T> = All | Only(value: T)

  datatype SortOrder = Newest | Oldest | Priority

  datatype FilterState = FilterState(
    search: string,
    threatLevel: Choice<ThreatLevel>,
    status: Choice<IncidentStatus>,
    sortBy: SortOrder)

  // ------------------------------------------------------------ filtering

  /** The search test: the lower-cased query occurs in the lower-cased title, location,
      id or description. */
  predicate SearchHit(incident: Incident, search: string)
  {
    var q := Text.Lower(search);
    || Text.Contains(Text.Lower(incident.title), q)
    || Text.Contains(Text.Lower(incident.location), q)
    || Text.Contains(Text.Lower(incident.id), q)
    || Text.Contains(Text.Lower(incident.description), q)
  }

  predicate Allows<T(==)>(choice: Choice<T>, value: T)
  {
    match choice
    case All => true
    case Only(v) => v == value
  }

  /** Whether an incident passes every active filter; an empty search is switched off. */
  predicate Matches(filters: FilterState, incident: Incident)
  {
    && (filters.search != [] ==> SearchHit(incident, filters.search))
    && Allows(filters.threatLevel, incident.threatLevel)
    && Allows(filters.status, incident.status)
  }

  function Hits(search: string): Incident -> bool { (x: Incident) => SearchHit(x, search) }
  function AtLevel(level: ThreatLevel): Incident -> bool { (x: Incident) => x.threatLevel == level }
  function InStatus(status: IncidentStatus): Incident -> bool { (x: Incident) => x.status == status }
  function Passes(filters: FilterState): Incident -> bool { (x: Incident) => Matches(filters, x) }

  /** The three filters, applied one after the other as the list does. */
  function Filtered(incidents: seq<Incident>, filters: FilterState): (r: seq<Incident>)
    ensures |r| <= |incidents|
  {
    var afterSearch := if filters.search != [] then Filter(incidents, Hits(filters.search)) else incidents;
    var afterLevel :=
      match filters.threatLevel
      case All => afterSearch
      case Only(level) => Filter(afterSearch, AtLevel(level));
    match filters.status
    case All => afterLevel
    case Only(status) => Filter(afterLevel, InStatus(status))
  }

  function PassSearch(filters: FilterState): Incident -> bool
  {
    (x: Incident) => filters.search != [] ==> SearchHit(x, filters.search)
  }
  function PassLevel(filters: FilterState): Incident -> bool
  {
    (x: Incident) => Allows(filters.threatLevel, x.threatLevel)
  }
  function PassStatus(filters: FilterState): Incident -> bool
  {
    (x: Incident) => Allows(filters.status, x.status)
  }

  lemma SearchStage(incidents: seq<Incident>, filters: FilterState)
    ensures (if filters.search != [] then Filter(incidents, Hits(filters.search)) else incidents)
            == Filter(incidents, PassSearch(filters))
  {
    if filters.search != [] {
      FilterSame(incidents, Hits(filters.search), PassSearch(filters));
    } else {
      FilterAllKept(incidents, PassSearch(filters));
    }
  }

  lemma LevelStage(s: seq<Incident>, filters: FilterState)
    ensures (match filters.threatLevel case All => s case Only(level) => Filter(s, AtLevel(level)))
            == Filter(s, PassLevel(filters))
  {
    match filters.threatLevel {
      case All => FilterAllKept(s, PassLevel(filters));
      case Only(l) => FilterSame(s, AtLevel(l), PassLevel(filters));
    }
  }

  lemma StatusStage(s: seq<Incident>, filters: FilterState)
    ensures (match filters.status case All => s case Only(status) => Filter(s, InStatus(status)))
            == Filter(s, PassStatus(filters))
  {
    match filters.status {
      case All => FilterAllKept(s, PassStatus(filters));
      case Only(st) => FilterSame(s, InStatus(st), PassStatus(filters));
    }
  }

  /** The filters in turn keep exactly the subsequence of incidents that pass all of them. */
  lemma FilteredIsOneFilter(incidents: seq<Incident>, filters: FilterState)
    ensures Filtered(incidents, filters) == Filter(incidents, Passes(filters))
  {
    var search := PassSearch(filters);
    var level := PassLevel(filters);
    var status := PassStatus(filters);
    SearchStage(incidents, filters);
    var s1 := Filter(incidents, search);
    LevelStage(s1, filters);
    var s2 := Filter(s1, level);
    StatusStage(s2, filters);
    FilterFilter(incidents, search, level);
    FilterFilter(incidents, Both(search, level), status);
    FilterSame(incidents, Both(Both(search, level), status), Passes(filters));
  }

  /** The listed incidents are exactly those of the input that pass every filter. */
  lemma FilteredMembers(incidents: seq<Incident>, filters: FilterState)
    ensures forall x :: x in Filtered(incidents, filters) <==> x in incidents && Matches(filters, x)
  {
    FilteredIsOneFilter(incidents, filters);
    FilterMembers(incidents, Passes(filters));
  }

  /** The search ignores case: an upper-cased or lower-cased query finds the same incidents. */
  lemma SearchIgnoresCase(incidents: seq<Incident>, filters: FilterState)
    ensures Filtered(incidents, filters.(search := Text.Upper(filters.search))) == Filtered(incidents, filters)
    ensures Filtered(incidents, filters.(search := Text.Lower(filters.search))) == Filtered(incidents, filters)
  {
    Text.LowerOfUpper(filters.search);
    Text.LowerIdempotent(filters.search);
    var up := filters.(search := Text.Upper(filters.search));
    var low := filters.(search := Text.Lower(filters.search));
    FilteredIsOneFilter(incidents, filters);
    FilteredIsOneFilter(incidents, up);
    FilteredIsOneFilter(incidents, low);
    FilterSame(incidents, Passes(filters), Passes(up));
    FilterSame(incidents, Passes(filters), Passes(low));
  }

  /** With an empty search and both filters on 'ALL' every incident is listed. */
  lemma NoFilterKeepsAll(incidents: seq<Incident>, sortBy: SortOrder)
    ensures Filtered(incidents, FilterState([], All, All, sortBy)) == incidents
  {
  }

  // ------------------------------------------------------------ sorting

  function PriorityOf(level: ThreatLevel): int
  {
    match level
    case Critical => 4
    case Severe => 3
    case Moderate => 2
    case Low => 1
  }

  /** The comparator of each order as a key: `compare(a, b) = Key(a) - Key(b)`. */
  function Key(order: SortOrder): Incident -> int
  {
    match order
    case Newest => (x: Incident) => -x.createdAt
    case Oldest => (x: Incident) => x.createdAt
    case Priority => (x: Incident) => -PriorityOf(x.threatLevel)
  }

  // ------------------------------------------------------------ the query

  /** The list the component shows. */
  function Visible(incidents: seq<Incident>, filters: FilterState): (r: seq<Incident>)
    ensures |r| == |Filtered(incidents, filters)| <= |incidents|
  {
    StableSort.Sort(Key(filters.sortBy), Filtered(incidents, filters))
  }

  /** The result is a reordering of exactly the incidents that pass every filter, with
      their multiplicities. */
  lemma VisibleIsPermutationOfMatches(incidents: seq<Incident>, filters: FilterState)
    ensures multiset(Visible(incidents, filters)) == multiset(Filter(incidents, Passes(filters)))
    ensures forall x :: x in Visible(incidents, filters) <==> x in incidents && Matches(filters, x)
  {
    FilteredIsOneFilter(incidents, filters);
    FilteredMembers(incidents, filters);
    StableSort.SortPermutes(Key(filters.sortBy), Filtered(incidents, filters));
    var v := Visible(incidents, filters);
    forall x
      ensures x in v <==> x in Filtered(incidents, filters)
    {
      assert x in v <==> x in multiset(v);
    }
  }

  /** 'newest' lists createdAt from high to low. */
  lemma NewestFirst(incidents: seq<Incident>, filters: FilterState)
    requires filters.sortBy == Newest
    ensures var v := Visible(incidents, filters);
      forall i, j :: 0 <= i < j < |v| ==> v[i].createdAt >= v[j].createdAt
  {
    StableSort.SortSorted(Key(Newest), Filtered(incidents, filters));
  }

  /** 'oldest' lists createdAt from low to high. */
  lemma OldestFirst(incidents: seq<Incident>, filters: FilterState)
    requires filters.sortBy == Oldest
    ensures var v := Visible(incidents, filters);
      forall i, j :: 0 <= i < j < |v| ==> v[i].createdAt <= v[j].createdAt
  {
    StableSort.SortSorted(Key(Oldest), Filtered(incidents, filters));
  }

  /** 'priority' lists CRITICAL, then SEVERE, then MODERATE, then LOW. */
  lemma HighestPriorityFirst(incidents: seq<Incident>, filters: FilterState)
    requires filters.sortBy == Priority
    ensures var v := Visible(incidents, filters);
      forall i, j :: 0 <= i < j < |v| ==> PriorityOf(v[i].threatLevel) >= PriorityOf(v[j].threatLevel)
  {
    StableSort.SortSorted(Key(Priority), Filtered(incidents, filters));
  }

  /** Incidents of the same threat level keep, under 'priority', the order they had. */
  lemma PriorityTiesKeepOrder(incidents: seq<Incident>, filters: FilterState, level: ThreatLevel)
    requires filters.sortBy == Priority
    ensures Filter(Visible(incidents, filters), (x: Incident) => x.threatLevel == level)
            == Filter(Filtered(incidents, filters), (x: Incident) => x.threatLevel == level)
  {
    var f := Filtered(incidents, filters);
    var k := -PriorityOf(level);
    StableSort.SortStable(Key(Priority), f, k);
    var same := (x: Incident) => x.threatLevel == level;
    assert forall x :: StableSort.KeyIs(Key(Priority), k)(x) == same(x);
    FilterSame(StableSort.Sort(Key(Priority), f), StableSort.KeyIs(Key(Priority), k), same);
    FilterSame(f, StableSort.KeyIs(Key(Priority), k), same);
  }
}

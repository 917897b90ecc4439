/** The incident collection of the dashboard: id generation, adding, updating,
    deleting, bulk-resolving the critical incidents and counting per threat level.
    Each operation is the function the hook hands to its list setter, applied to the
    current list; the clock is the `now` argument. */
module Incidents {
  import opened Common
  import Text

  datatype ThreatLevel = Critical | Severe | Moderate | Low

  datatype IncidentStatus = Active | Investigating | Contained | Resolved

  datatype Incident = Incident(
    id: string,
    title: string,
    description: string,
    location: string,
    threatLevel: ThreatLevel,
    status: IncidentStatus,
    assignee: string,
    createdAt: int,
    tags: seq<string>,
    recommendedAction: Option<string>)

  /** What the creation form hands over. */
  datatype NewIncidentInput = NewIncidentInput(
    title: string,
    description: string,
    location: string,
    threatLevel: ThreatLevel,
    assignee: string,
    tags: seq<string>)

  /** A `Partial<Incident>`: `None` for a field the update does not mention. */
  datatype Patch = Patch(
    id: Option<string>,
    title: Option<string>,
    description: Option<string>,
    location: Option<string>,
    threatLevel: Option<ThreatLevel>,
    status: Option<IncidentStatus>,
    assignee: Option<string>,
    createdAt: Option<int>,
    tags: Option<seq<string>>,
    recommendedAction: Option<string>)

  const NoChange: Patch := Patch(None, None, None, None, None, None, None, None, None, None)

  const DefaultAction: string := "Investigate and assess threat level."

  // ------------------------------------------------------------ generateId

  /** "MNT-" and the list length plus one, padded with zeros to three digits. */
  function GenerateId(incidents: seq<Incident>): (r: string)
    ensures |r| >= 7 && r[..4] == "MNT-"
  {
    "MNT-" + Text.PadStart(Text.NatToString(|incidents| + 1), 3, '0')
  }

  /** The digits after "MNT-" denote the list length plus one. */
  lemma GenerateIdDigits(incidents: seq<Incident>)
    ensures var r := GenerateId(incidents);
      Text.AllDigits(r[4..]) && Text.DigitsValue(r[4..]) == |incidents| + 1
  {
    var s := Text.NatToString(|incidents| + 1);
    var p := Text.PadStart(s, 3, '0');
    assert GenerateId(incidents)[4..] == p;
    assert p == Text.Zeros(|p| - |s|) + s;
    Text.LeadingZeros(|p| - |s|, s);
    Text.NatToStringRoundTrip(|incidents| + 1);
  }

  /** Lists of different lengths get different ids, and lists of equal length the same one. */
  lemma GenerateIdDependsOnLength(a: seq<Incident>, b: seq<Incident>)
    ensures GenerateId(a) == GenerateId(b) <==> |a| == |b|
  {
    if GenerateId(a) == GenerateId(b) {
      GenerateIdDigits(a);
      GenerateIdDigits(b);
    }
  }

  // ------------------------------------------------------------ addIncident

  /** The incident `addIncident` builds from the form input. */
  function NewIncident(incidents: seq<Incident>, input: NewIncidentInput, now: int): (r: Incident)
    ensures r.id == GenerateId(incidents) && r.status == Active && r.createdAt == now
    ensures r.recommendedAction == Some(DefaultAction)
    ensures r.title == input.title && r.description == input.description
    ensures r.location == input.location && r.threatLevel == input.threatLevel
    ensures r.assignee == input.assignee && r.tags == input.tags
  {
    Incident(GenerateId(incidents), input.title, input.description, input.location,
             input.threatLevel, Active, input.assignee, now, input.tags, Some(DefaultAction))
  }

  /** `addIncident`: the new incident in front of the list, which is returned along with it. */
  function AddIncident(incidents: seq<Incident>, input: NewIncidentInput, now: int): (r: (Incident, seq<Incident>))
    ensures r.0 == NewIncident(incidents, input, now)
    ensures |r.1| == |incidents| + 1 && r.1[0] == r.0 && r.1[1..] == incidents
  {
    var incident := NewIncident(incidents, input, now);
    (incident, [incident] + incidents)
  }

  // ------------------------------------------------------------ updateStatus / updateIncident

  function WithStatus(incident: Incident, id: string, status: IncidentStatus): Incident
  {
    if incident.id == id then incident.(status := status) else incident
  }

  /** `updateStatus`: every incident with that id takes the status; nothing else changes. */
  function UpdateStatus(incidents: seq<Incident>, id: string, status: IncidentStatus): (r: seq<Incident>)
    ensures |r| == |incidents|
    ensures forall i :: 0 <= i < |r| ==> r[i].id == incidents[i].id
    ensures forall i :: 0 <= i < |r| && incidents[i].id == id ==> r[i] == incidents[i].(status := status)
    ensures forall i :: 0 <= i < |r| && incidents[i].id != id ==> r[i] == incidents[i]
  {
    seq(|incidents|, i requires 0 <= i < |incidents| => WithStatus(incidents[i], id, status))
  }

  /** `{ ...incident, ...patch }`: the fields the patch mentions replaced. */
  function Apply(incident: Incident, patch: Patch): Incident
  {
    Incident(
      match patch.id case Some(v) => v case None => incident.id,
      match patch.title case Some(v) => v case None => incident.title,
      match patch.description case Some(v) => v case None => incident.description,
      match patch.location case Some(v) => v case None => incident.location,
      match patch.threatLevel case Some(v) => v case None => incident.threatLevel,
      match patch.status case Some(v) => v case None => incident.status,
      match patch.assignee case Some(v) => v case None => incident.assignee,
      match patch.createdAt case Some(v) => v case None => incident.createdAt,
      match patch.tags case Some(v) => v case None => incident.tags,
      match patch.recommendedAction case Some(v) => Some(v) case None => incident.recommendedAction)
  }

  function WithPatch(incident: Incident, id: string, patch: Patch): Incident
  {
    if incident.id == id then Apply(incident, patch) else incident
  }

  /** `updateIncident`: the patch applied to every incident with that id, the others kept. */
  function UpdateIncident(incidents: seq<Incident>, id: string, patch: Patch): (r: seq<Incident>)
    ensures |r| == |incidents|
    ensures forall i :: 0 <= i < |r| && incidents[i].id != id ==> r[i] == incidents[i]
    ensures forall i :: 0 <= i < |r| && incidents[i].id == id ==> r[i] == Apply(incidents[i], patch)
  {
    seq(|incidents|, i requires 0 <= i < |incidents| => WithPatch(incidents[i], id, patch))
  }

  /** An update that mentions no field changes nothing. */
  lemma EmptyPatchIsIdentity(incidents: seq<Incident>, id: string)
    ensures UpdateIncident(incidents, id, NoChange) == incidents
  {
  }

  /** An update that mentions only the status is `updateStatus`. */
  lemma StatusPatchIsUpdateStatus(incidents: seq<Incident>, id: string, status: IncidentStatus)
    ensures UpdateIncident(incidents, id, NoChange.(status := Some(status))) == UpdateStatus(incidents, id, status)
  {
  }

  /** Setting the same status twice is setting it once. */
  lemma UpdateStatusIdempotent(incidents: seq<Incident>, id: string, status: IncidentStatus)
    ensures UpdateStatus(UpdateStatus(incidents, id, status), id, status) == UpdateStatus(incidents, id, status)
  {
  }

  // ------------------------------------------------------------ deleteIncident

  /** `deleteIncident`: the incidents whose id differs, in their order. */
  function DeleteIncident(incidents: seq<Incident>, id: string): (r: seq<Incident>)
    ensures forall x :: x in r ==> x.id != id && x in incidents
    ensures forall x :: x in incidents && x.id != id ==> x in r
  {
    FilterMembers(incidents, (x: Incident) => x.id != id);
    Filter(incidents, (x: Incident) => x.id != id)
  }

  /** Every incident with the id goes, and every other incident keeps its number of copies. */
  lemma DeleteCounts(incidents: seq<Incident>, id: string, x: Incident)
    ensures multiset(DeleteIncident(incidents, id))[x] == if x.id == id then 0 else multiset(incidents)[x]
  {
    FilterMultiset(incidents, (y: Incident) => y.id != id, x);
  }

  /** Deleting an id no incident carries changes nothing. */
  lemma DeleteAbsentIsNoOp(incidents: seq<Incident>, id: string)
    requires forall x :: x in incidents ==> x.id != id
    ensures DeleteIncident(incidents, id) == incidents
  {
    FilterAllKept(incidents, (x: Incident) => x.id != id);
  }

  /** Deleting twice is deleting once. */
  lemma DeleteIdempotent(incidents: seq<Incident>, id: string)
    ensures DeleteIncident(DeleteIncident(incidents, id), id) == DeleteIncident(incidents, id)
  {
    FilterIdempotent(incidents, (x: Incident) => x.id != id);
  }

  /** Deleting the incident just added, when its id was not yet taken, gives the old list back. */
  lemma AddThenDelete(incidents: seq<Incident>, input: NewIncidentInput, now: int)
    requires forall x :: x in incidents ==> x.id != GenerateId(incidents)
    ensures DeleteIncident(AddIncident(incidents, input, now).1, GenerateId(incidents)) == incidents
  {
    var id := GenerateId(incidents);
    var added := AddIncident(incidents, input, now);
    assert added.1 == [added.0] + incidents;
    FilterAppend([added.0], incidents, (x: Incident) => x.id != id);
    DeleteAbsentIsNoOp(incidents, id);
  }

  /** Ids repeat after a deletion: once "MNT-001" is deleted from a list of two, the next
      id is "MNT-002" again, the id of the incident that is left. */
  lemma IdRepeatsAfterDelete(first: Incident, second: Incident)
    requires first.id == "MNT-001" && second.id == "MNT-002"
    ensures GenerateId(DeleteIncident([first, second], first.id)) == second.id
  {
    var keep := (x: Incident) => x.id != first.id;
    FilterSnoc([first], second, keep);
    assert [first] + [second] == [first, second];
    assert |DeleteIncident([first, second], first.id)| == 1;
    SecondId(DeleteIncident([first, second], first.id));
  }

  lemma SecondId(incidents: seq<Incident>)
    requires |incidents| == 1
    ensures GenerateId(incidents) == "MNT-002"
  {
    assert Text.NatToString(2) == ['2'];
    assert Text.PadStart(['2'], 3, '0') == "002";
  }

  // ------------------------------------------------------------ resolveAllCritical

  predicate NeedsResolving(incident: Incident)
  {
    incident.threatLevel == Critical && incident.status != Resolved
  }

  function ResolveOne(incident: Incident): Incident
  {
    if NeedsResolving(incident) then incident.(status := Resolved) else incident
  }

  /** The list `resolveAllCritical` hands to the setter. */
  function ResolvedCritical(incidents: seq<Incident>): (r: seq<Incident>)
    ensures |r| == |incidents|
    ensures forall i :: 0 <= i < |r| ==> !NeedsResolving(r[i])
    ensures forall i :: 0 <= i < |r| && incidents[i].threatLevel != Critical ==> r[i] == incidents[i]
    ensures forall i :: 0 <= i < |r| ==> r[i] == incidents[i].(status := r[i].status)
  {
    seq(|incidents|, i requires 0 <= i < |incidents| => ResolveOne(incidents[i]))
  }

  /** The number of critical incidents not yet resolved. */
  function Unresolved(incidents: seq<Incident>): nat
  {
    |Filter(incidents, NeedsResolving)|
  }

  /** `resolveAllCritical`, with its updater run at once: every critical incident resolved,
      and the number of incidents that changed. */
  method ResolveAllCritical(incidents: seq<Incident>) returns (r: seq<Incident>, count: nat)
    ensures r == ResolvedCritical(incidents)
    ensures count == Unresolved(incidents)
  {
    r := [];
    count := 0;
    var i := 0;
    while i < |incidents|
      invariant 0 <= i <= |incidents|
      invariant |r| == i && forall j :: 0 <= j < i ==> r[j] == ResolveOne(incidents[j])
      invariant count == Unresolved(incidents[..i])
    {
      var incident := incidents[i];
      assert incidents[..i + 1] == incidents[..i] + [incident];
      FilterSnoc(incidents[..i], incident, NeedsResolving);
      if incident.threatLevel == Critical && incident.status != Resolved {
        count := count + 1;
        r := r + [incident.(status := Resolved)];
      } else {
        r := r + [incident];
      }
      i := i + 1;
    }
    assert incidents[..i] == incidents;
  }

  /** A second bulk-resolve finds nothing to do and changes nothing. */
  lemma ResolveAllCriticalIdempotent(incidents: seq<Incident>)
    ensures ResolvedCritical(ResolvedCritical(incidents)) == ResolvedCritical(incidents)
    ensures Unresolved(ResolvedCritical(incidents)) == 0
  {
    var r := ResolvedCritical(incidents);
    forall y | y in r
      ensures !NeedsResolving(y)
    {
      var i :| 0 <= i < |r| && r[i] == y;
    }
    FilterNone(r, NeedsResolving);
  }

  /** The count is the number of incidents whose status the bulk-resolve changed. */
  lemma {:induction false} UnresolvedCountsChanges(incidents: seq<Incident>)
    ensures Unresolved(incidents) == |Filter(incidents, (x: Incident) => ResolveOne(x) != x)|
  {
    if incidents != [] {
      UnresolvedCountsChanges(incidents[1..]);
      assert NeedsResolving(incidents[0]) <==> ResolveOne(incidents[0]) != incidents[0];
    }
  }

  // ------------------------------------------------------------ threatStats

  datatype ThreatStats = ThreatStats(critical: nat, severe: nat, moderate: nat, low: nat)

  function CountLevel(incidents: seq<Incident>, level: ThreatLevel): (r: nat)
    ensures r <= |incidents|
  {
    |Filter(incidents, (x: Incident) => x.threatLevel == level)|
  }

  lemma CountLevelSnoc(incidents: seq<Incident>, incident: Incident, level: ThreatLevel)
    ensures CountLevel(incidents + [incident], level)
            == CountLevel(incidents, level) + (if incident.threatLevel == level then 1 else 0)
  {
    FilterSnoc(incidents, incident, (x: Incident) => x.threatLevel == level);
  }

  /** The four counts add up to the number of incidents. */
  lemma {:induction false} CountsSumToLength(incidents: seq<Incident>)
    ensures CountLevel(incidents, Critical) + CountLevel(incidents, Severe)
            + CountLevel(incidents, Moderate) + CountLevel(incidents, Low) == |incidents|
  {
    if incidents != [] {
      CountsSumToLength(incidents[1..]);
    }
  }

  /** `threatStats`: the reduce that bumps one counter per incident. */
  method ComputeThreatStats(incidents: seq<Incident>) returns (stats: ThreatStats)
    ensures stats.critical == CountLevel(incidents, Critical)
    ensures stats.severe == CountLevel(incidents, Severe)
    ensures stats.moderate == CountLevel(incidents, Moderate)
    ensures stats.low == CountLevel(incidents, Low)
  {
    stats := ThreatStats(0, 0, 0, 0);
    var i := 0;
    while i < |incidents|
      invariant 0 <= i <= |incidents|
      invariant stats.critical == CountLevel(incidents[..i], Critical)
      invariant stats.severe == CountLevel(incidents[..i], Severe)
      invariant stats.moderate == CountLevel(incidents[..i], Moderate)
      invariant stats.low == CountLevel(incidents[..i], Low)
    {
      var incident := incidents[i];
      assert incidents[..i + 1] == incidents[..i] + [incident];
      CountLevelSnoc(incidents[..i], incident, Critical);
      CountLevelSnoc(incidents[..i], incident, Severe);
      CountLevelSnoc(incidents[..i], incident, Moderate);
      CountLevelSnoc(incidents[..i], incident, Low);
      match incident.threatLevel {
        case Critical => stats := stats.(critical := stats.critical + 1);
        case Severe => stats := stats.(severe := stats.severe + 1);
        case Moderate => stats := stats.(moderate := stats.moderate + 1);
        case Low => stats := stats.(low := stats.low + 1);
      }
      i := i + 1;
    }
    assert incidents[..i] == incidents;
  }

  /** Adding an incident raises the count of its level by one and leaves the others. */
  lemma AddCountsOnce(incidents: seq<Incident>, input: NewIncidentInput, now: int, level: ThreatLevel)
    ensures CountLevel(AddIncident(incidents, input, now).1, level)
            == CountLevel(incidents, level) + (if input.threatLevel == level then 1 else 0)
  {
    var added := AddIncident(incidents, input, now);
    assert added.1 == [added.0] + incidents;
    FilterAppend([added.0], incidents, (x: Incident) => x.threatLevel == level);
  }
}

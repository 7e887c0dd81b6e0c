/**
 * The security screen: the incident list filter and the camera status dot.
 */
module Security {
  import opened Wrappers
  import opened Seqs

  datatype IncidentType = UnauthorizedAccess | Theft | Vandalism | Emergency | SuspiciousActivity

  datatype IncidentStatus = Open | Investigating | Resolved | Closed

  datatype IncidentPriority = LowPriority | MediumPriority | HighPriority | Critical

  datatype SecurityIncident = SecurityIncident(
    id: string,
    incidentType: IncidentType,
    title: string,
    description: string,
    status: IncidentStatus,
    priority: IncidentPriority,
    location: string,
    reportedBy: string,
    reportedAt: string,
    assignedTo: Option<string>,
    resolvedAt: Option<string>)

  /** The incident filter's three choices. */
  datatype IncidentFilter = AllIncidents | OpenIncidents | ResolvedIncidents

  /** Still being handled: open or under investigation. */
  predicate IsActive(incident: SecurityIncident) {
    incident.status == Open || incident.status == Investigating
  }

  /** Dealt with: resolved or closed. */
  predicate IsSettled(incident: SecurityIncident) {
    incident.status == Resolved || incident.status == Closed
  }

  /** The callback of `filteredIncidents`. */
  predicate Shown(filter: IncidentFilter, incident: SecurityIncident) {
    match filter
    case AllIncidents => true
    case OpenIncidents => IsActive(incident)
    case ResolvedIncidents => IsSettled(incident)
  }

  function ShownBy(filter: IncidentFilter): SecurityIncident -> bool {
    (incident: SecurityIncident) => Shown(filter, incident)
  }

  /** `filteredIncidents`: the incidents the chosen filter keeps, in order. */
  function FilteredIncidents(incidents: seq<SecurityIncident>, filter: IncidentFilter): (r: seq<SecurityIncident>)
    ensures IsSubsequence(r, incidents)
    ensures filter == OpenIncidents ==> forall i :: 0 <= i < |r| ==> IsActive(r[i])
    ensures filter == ResolvedIncidents ==> forall i :: 0 <= i < |r| ==> IsSettled(r[i])
    ensures filter == OpenIncidents ==>
      forall i :: 0 <= i < |incidents| && IsActive(incidents[i]) ==> incidents[i] in r
    ensures filter == ResolvedIncidents ==>
      forall i :: 0 <= i < |incidents| && IsSettled(incidents[i]) ==> incidents[i] in r
  {
    FilterIsSubsequence(incidents, ShownBy(filter));
    Filter(incidents, ShownBy(filter))
  }

  /** "All" lists every incident, in order. */
  lemma AllListsEverything(incidents: seq<SecurityIncident>)
    ensures FilteredIncidents(incidents, AllIncidents) == incidents
  {
    FilterAll(incidents, ShownBy(AllIncidents));
  }

  /**
   * "Open" and "Resolved" never show the same incident, and between them
   * they show every incident: the four statuses are split two and two.
   */
  lemma OpenAndResolvedPartition(incidents: seq<SecurityIncident>)
    ensures var open := FilteredIncidents(incidents, OpenIncidents);
      var resolved := FilteredIncidents(incidents, ResolvedIncidents);
      (forall x :: !(x in open && x in resolved)) &&
      (forall i :: 0 <= i < |incidents| ==> incidents[i] in open || incidents[i] in resolved) &&
      |open| + |resolved| == |incidents|
  {
    var open := FilteredIncidents(incidents, OpenIncidents);
    var resolved := FilteredIncidents(incidents, ResolvedIncidents);
    forall i | 0 <= i < |incidents| ensures incidents[i] in open || incidents[i] in resolved {
      if IsActive(incidents[i]) {
        assert incidents[i] in open;
      } else {
        assert incidents[i] in resolved;
      }
    }
    CountPartition(incidents, ShownBy(OpenIncidents), ShownBy(ResolvedIncidents));
  }

  /** `getCameraStatusColor`. */
  function CameraStatusColor(status: string): (r: string)
    ensures status == "online" <==> r == "bg-green-500"
    ensures status == "offline" <==> r == "bg-red-500"
    ensures status != "online" && status != "offline" <==> r == "bg-yellow-500"
  {
    if status == "online" then "bg-green-500"
    else if status == "offline" then "bg-red-500"
    else "bg-yellow-500"
  }
}

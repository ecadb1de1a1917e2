/** Incident reconciliation: signals and acknowledgements turned into a log of transitions, each with
    its outbox row.  One serialized transaction is one step on the tables. */
module Incidents {
  import opened Facts

  const MAX_EVIDENCE: nat := 16

  datatype Severity = Info | Warning | Critical
  datatype Status = Open | Acknowledged | Resolved
  datatype From = New | Was(status: Status)
  datatype EvidenceRole = Trigger | Supporting | RecoveryRole | Exclusion
  datatype Evidence = Evidence(event: nat, role: EvidenceRole)

  /** What makes two signals about the same thing; the correlation key alone is not enough. */
  datatype Identity = Identity(key: string, node: string, category: string, component: string)

  datatype Condition = Detected | Cleared(resolution: string)

  datatype Signal = Signal(
    identity: Identity, condition: Condition, severity: Severity, requiresAction: bool, at: int,
      evidence: seq<Evidence>)

  datatype Incident = Incident(
    identity: Identity, severity: Severity, status: Status, requiresAction: bool,
    generation: nat, openedAt: int, lastObservedAt: int)

  datatype Transition = Transition(incident: nat, generation: nat, from: From, to: Status, reason: string, at: int)

  /** The alert a transition owes, carrying the incident as it stands after it. */
  datatype Alert = Alert(incident: nat, generation: nat, status: Status, severity: Severity, requiresAction: bool,
    at: int)

  /** An incident's identity in the tables is its place in creation order. */
  datatype Db = Db(
    incidents: seq<Incident>, evidence: map<(nat, nat), EvidenceRole>, transitions: seq<Transition>, outbox: seq<Alert>)

  datatype Error = InvalidSignal | IncidentConflict | EvidenceConflict | NotFound | UniqueViolation
  datatype Outcome = Done(found: bool, changed: bool) | Denied(error: Error)

  function EmptyDb(): Db {
    Db([], map[], [], [])
  }

  // ----- The latest incident of a key -----

  /** Newest opening time first, newest creation among equals. */
  function Latest(incidents: seq<Incident>, key: string): (r: Option<nat>)
    ensures r.Some? ==> r.value < |incidents| && incidents[r.value].identity.key == key
  {
    if incidents == [] then None
    else
      var before, last := Latest(incidents[..|incidents| - 1], key), incidents[|incidents| - 1];
      if last.identity.key == key && (before.None? || last.openedAt >= incidents[before.value].openedAt)
      then Some(|incidents| - 1) else before
  }

  predicate Active(i: Incident) {
    !i.status.Resolved?
  }

  /** Another unresolved incident holds this correlation key. */
  predicate KeyActive(incidents: seq<Incident>, key: string) {
    exists i :: 0 <= i < |incidents| && incidents[i].identity.key == key && Active(incidents[i])
  }

  predicate GenerationTaken(transitions: seq<Transition>, incident: nat, generation: nat) {
    exists i :: 0 <= i < |transitions| && transitions[i].incident == incident && transitions[i].generation == generation
  }

  // ----- Evidence -----

  /** Links each item once; the same item in another role is refused. */
  function LinkEvidence(
    links: map<(nat, nat), EvidenceRole>, incident: nat, items: seq<Evidence>): Option<map<(nat, nat), EvidenceRole>> {
    if items == [] then Some(links)
    else match LinkEvidence(links, incident, items[..|items| - 1])
      case None => None
      case Some(so) =>
        var it := items[|items| - 1];
        if (incident, it.event) !in so then Some(so[(incident, it.event) := it.role])
        else if so[(incident, it.event)] == it.role then Some(so)
        else None
  }

  predicate ValidEvidence(items: seq<Evidence>) {
    |items| <= MAX_EVIDENCE && forall i, j :: 0 <= i < j < |items| ==> items[i].event != items[j].event
  }

  predicate RolesFit(condition: Condition, items: seq<Evidence>) {
    forall i :: 0 <= i < |items| ==>
      if condition.Detected? then items[i].role.Trigger? || items[i].role.Supporting?
      else items[i].role.RecoveryRole? || items[i].role.Exclusion?
  }

  // ----- One transition -----

  function AlertFor(db: Db, i: nat, t: Transition): Alert
    requires i < |db.incidents|
  {
    Alert(i, t.generation, t.to, db.incidents[i].severity, db.incidents[i].requiresAction, t.at)
  }

  /** A transition and its outbox row are written together or not at all. */
  function Record(db: Db, t: Transition): Option<Db>
    requires t.incident < |db.incidents|
  {
    if GenerationTaken(db.transitions, t.incident, t.generation) then None
    else Some(db.(transitions := db.transitions + [t], outbox := db.outbox + [AlertFor(db, t.incident, t)]))
  }

  function SeverityRank(s: Severity): nat {
    match s case Info => 1 case Warning => 2 case Critical => 3
  }

  predicate Escalates(i: Incident, s: Signal) {
    SeverityRank(s.severity) > SeverityRank(i.severity) || (!i.requiresAction && s.requiresAction)
  }

  function OpenIncident(db: Db, s: Signal): (Db, Outcome) {
    var n := |db.incidents|;
    if KeyActive(db.incidents, s.identity.key) then (db, Denied(UniqueViolation))
    else
      var grown := db.(incidents := db.incidents
        + [Incident(s.identity, s.severity, Open, s.requiresAction, 1, s.at, s.at)]);
      match Record(grown, Transition(n, 1, New, Open, "condition_detected", s.at))
      case None => (db, Denied(UniqueViolation))
      case Some(d) =>
        match LinkEvidence(d.evidence, n, s.evidence)
        case None => (db, Denied(EvidenceConflict))
        case Some(links) => (d.(evidence := links), Done(true, true))
  }

  /** The incident row after an update, and the transition that says so. */
  function Move(db: Db, i: nat, updated: Incident, reason: string, at: int): (Db, Outcome)
    requires i < |db.incidents|
  {
    var before := db.incidents[i];
    var d := db.(incidents := db.incidents[i := updated.(generation := before.generation + 1)]);
    match Record(d, Transition(i, before.generation + 1, Was(before.status), updated.status, reason, at))
    case None => (db, Denied(UniqueViolation))
    case Some(r) => (r, Done(true, true))
  }

  function UpdateIncident(db: Db, i: nat, s: Signal): (Db, Outcome)
    requires i < |db.incidents|
  {
    var row := db.incidents[i];
    match LinkEvidence(db.evidence, i, s.evidence)
    case None => (db, Denied(EvidenceConflict))
    case Some(links) =>
      var linked := db.(evidence := links);
      var observed := if s.at > row.lastObservedAt then s.at else row.lastObservedAt;
      if row.severity == s.severity && row.requiresAction == s.requiresAction then
        (linked.(incidents := db.incidents[i := row.(lastObservedAt := observed)]),
         Done(true, links != db.evidence || s.at > row.lastObservedAt))
      else
        var status := if row.status.Acknowledged? && Escalates(row, s) then Open else row.status;
        var (d, o) := Move(linked, i,
          row.(severity := s.severity, requiresAction := s.requiresAction, status := status,
            lastObservedAt := observed),
          "condition_updated", s.at);
        if o.Denied? then (db, o) else (d, o)
  }

  function ReconcileDetected(db: Db, current: Option<nat>, s: Signal): (Db, Outcome)
    requires current.Some? ==> current.value < |db.incidents|
  {
    if current.None? then OpenIncident(db, s)
    else
      var row := db.incidents[current.value];
      if row.identity != s.identity then (db, Denied(IncidentConflict))
      else if row.status.Resolved? then (if s.at <= row.lastObservedAt then (db, Done(true, false))
        else OpenIncident(db, s))
      else if s.at < row.lastObservedAt then (db, Done(true, false))
      else UpdateIncident(db, current.value, s)
  }

  function ReconcileCleared(db: Db, current: Option<nat>, s: Signal): (Db, Outcome)
    requires s.condition.Cleared? && (current.Some? ==> current.value < |db.incidents|)
  {
    if current.None? then (db, Done(false, false))
    else
      var row := db.incidents[current.value];
      if row.identity != s.identity then (db, Denied(IncidentConflict))
      else if row.status.Resolved? || s.at < row.lastObservedAt then (db, Done(true, false))
      else match LinkEvidence(db.evidence, current.value, s.evidence)
        case None => (db, Denied(EvidenceConflict))
        case Some(links) =>
          var (d, o) := Move(db.(evidence := links), current.value,
            row.(status := Resolved, lastObservedAt := s.at), s.condition.resolution, s.at);
          if o.Denied? then (db, o) else (d, o)
  }

  predicate ValidSignal(s: Signal) {
    ValidEvidence(s.evidence) && RolesFit(s.condition, s.evidence)
  }

  function Reconcile(db: Db, s: Signal): (Db, Outcome) {
    if !ValidSignal(s) then (db, Denied(InvalidSignal))
    else
      var current := Latest(db.incidents, s.identity.key);
      match s.condition
      case Detected => ReconcileDetected(db, current, s)
      case Cleared(_) => ReconcileCleared(db, current, s)
  }

  function Acknowledge(db: Db, key: string, at: int, evidence: seq<Evidence>): (Db, Outcome) {
    if !ValidEvidence(evidence) || exists i ::
      0 <= i < |evidence| && !evidence[i].role.Supporting? then (db, Denied(InvalidSignal))
    else
      var current := Latest(db.incidents, key);
      if current.None? || db.incidents[current.value].status.Resolved? then (db, Denied(NotFound))
      else
        var row := db.incidents[current.value];
        if at < row.lastObservedAt then (db, Denied(InvalidSignal))
        else match LinkEvidence(db.evidence, current.value, evidence)
          case None => (db, Denied(EvidenceConflict))
          case Some(links) =>
            var linked := db.(evidence := links);
            if row.status.Acknowledged? then (linked, Done(true, links != db.evidence))
            else
              var (d, o) := Move(linked, current.value, row.(status := Acknowledged), "operator_acknowledged", at);
              if o.Denied? then (db, o) else (d, o)
  }

  datatype Call = SignalCall(signal: Signal) | AckCall(key: string, at: int, evidence: seq<Evidence>)

  function Handle(db: Db, c: Call): (Db, Outcome) {
    match c
    case SignalCall(s) => Reconcile(db, s)
    case AckCall(key, at, evidence) => Acknowledge(db, key, at, evidence)
  }

  function Run(db: Db, calls: seq<Call>): Db {
    if calls == [] then db else Handle(Run(db, calls[..|calls| - 1]), calls[|calls| - 1]).0
  }
}

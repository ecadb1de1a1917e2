/** Reduction: an ordered batch of decisions folded into one normalized snapshot of the host. */
module Reducer {
  import opened Facts
  import opened Acceptance

  const MAX_CORROBORATIONS: nat := 8
  const MAX_CONFLICT_RECORDS: nat := 8

  // ----- Evidence accumulated per component and per source -----

  datatype Corroboration = Corroboration(lifecycle: Lifecycle, reason: string, agrees: bool, tick: int)

  /** What has been observed about one component.  `host` is zero until its owner first speaks. */
  datatype Evidence = Evidence(
    owner: SourceId,
    domain: Domain,
    observed: Lifecycle,
    reason: string,
    payload: Option<Payload>,
    boot: string,
    tick: int,
    deadline: int,
    host: nat,
    hasBaseline: bool,
    rebaseline: bool,
    corroborations: map<SourceId, Corroboration>)

  datatype Watermark = Watermark(domain: Domain, role: Role, state: SourceState)

  datatype ConflictKey = ConflictKey(source: SourceId, component: Component, sequence: nat)
  datatype ConflictRecord = ConflictRecord(reason: Reason, count: nat)

  /** Everything a fold carries from one event to the next, with the two watermarks. */
  datatype Tables = Tables(
    components: map<Component, Evidence>,
    sources: map<SourceId, Watermark>,
    conflicts: map<ConflictKey, ConflictRecord>,
    host: nat,
    fold: nat)

  function Unobserved(c: Component): Evidence {
    Evidence(Owner(c), OwnerDomain(c), Unknown, "none", None, "", 0, 0, 0, false, false, map[])
  }

  function EmptyTables(host: nat, fold: nat): Tables {
    Tables(map c: Component :: Unobserved(c), map[], map[], host, fold)
  }

  // ----- One event -----

  function Adopt(sources: map<SourceId, Watermark>, e: Event): map<SourceId, Watermark>
    requires e.decision.Decided?
  {
    var domain := if e.fact.source in sources then sources[e.fact.source].domain else e.fact.domain;
    sources[e.fact.source := Watermark(domain, e.decision.role, e.decision.source)]
  }

  function Observe(r: Evidence, e: Event): Evidence
    requires e.decision.Decided?
  {
    r.(observed := e.fact.lifecycle, reason := e.fact.reason, payload := Some(e.fact.payload),
       boot := e.fact.boot, tick := e.fact.tick, deadline := e.fact.deadline, host := e.decision.host,
       hasBaseline := r.hasBaseline || e.fact.baseline,
       rebaseline := r.rebaseline && !e.fact.baseline)
  }

  /** At most one opinion per corroborating source; it never replaces the owner's state. */
  function Corroborate(r: Evidence, e: Event): Evidence {
    if e.fact.source !in r.corroborations && |r.corroborations| >= MAX_CORROBORATIONS then r
    else
      var opinion := Corroboration(e.fact.lifecycle, e.fact.reason, e.fact.lifecycle == r.observed, e.fact.tick);
      r.(corroborations := r.corroborations[e.fact.source := opinion])
  }

  function Heard(r: Evidence, e: Event): Evidence
    requires e.decision.Decided?
  {
    if e.decision.role.Authoritative? then Observe(r, e) else Corroborate(r, e)
  }

  function Retire(
    conflicts: map<ConflictKey, ConflictRecord>, source: SourceId, c: Component): map<ConflictKey, ConflictRecord> {
    map k | k in conflicts && !(k.source == source && k.component == c) :: conflicts[k]
  }

  function Refuse(conflicts: map<ConflictKey, ConflictRecord>, e: Event): map<ConflictKey, ConflictRecord>
    requires e.decision.Decided?
  {
    var key := ConflictKey(e.fact.source, e.fact.component, e.fact.sequence);
    if key in conflicts then conflicts[key := conflicts[key].(count := (conflicts[key].count + 1) % UINT32)]
    else conflicts[key := ConflictRecord(e.decision.reason, 1)]
  }

  /** Every event moves the fold watermark; only an accepted one moves the host watermark. */
  predicate NextInOrder(t: Tables, e: Event) {
    && e.decision.Decided?
    && e.decision.fold == t.fold + 1
    && (e.decision.outcome.Accepted? ==> e.decision.host == t.host + 1)
  }

  predicate AllKnown(t: Tables) {
    forall c: Component :: c in t.components
  }

  function Apply(t: Tables, e: Event): Tables
    requires e.decision.Decided? && AllKnown(t)
  {
    match e.decision.outcome
    case Accepted =>
      Tables(t.components[e.fact.component := Heard(t.components[e.fact.component], e)],
             Adopt(t.sources, e),
             if e.fact.baseline then Retire(t.conflicts, e.fact.source, e.fact.component) else t.conflicts,
             e.decision.host, e.decision.fold)
    case Conflict => t.(sources := Adopt(t.sources, e), conflicts := Refuse(t.conflicts, e), fold := e.decision.fold)
    case Duplicate => t.(fold := e.decision.fold)
    case Stale => t.(fold := e.decision.fold)
  }

  /** Folding a batch; None when it is out of order. */
  function Fold(t: Tables, es: seq<Event>): (r: Option<Tables>)
    requires AllKnown(t)
    ensures r.Some? ==> AllKnown(r.value)
  {
    if es == [] then Some(t)
    else
      match Fold(t, es[..|es| - 1])
      case None => None
      case Some(u) => if NextInOrder(u, es[|es| - 1]) then Some(Apply(u, es[|es| - 1])) else None
  }

  // ----- Rendering -----

  datatype ComponentState =
    | StateUnknown | StateReady | StateDegraded | StateFailed | StateStale | StateConflict | StateNotApplicable

  datatype ComponentRecord = ComponentRecord(evidence: Evidence, conflicts: nat, state: ComponentState)

  /** The conclusions a source may not draw about itself. */
  function DeriveState(r: Evidence, conflicts: nat, boot: string, tick: int): ComponentState {
    if r.observed.Unknown? && r.host == 0 then StateUnknown
    else if conflicts > 0 then StateConflict
    else if r.boot != boot then StateStale
    else if r.rebaseline then StateStale
    else if tick > r.deadline then StateStale
    else match r.observed
      case Ready => StateReady
      case Degraded => StateDegraded
      case Failed => StateFailed
      case NotApplicable => StateNotApplicable
      case Unknown => StateUnknown
  }

  function RenderRecord(r: Evidence, sources: map<SourceId, Watermark>, boot: string, tick: int): ComponentRecord {
    var conflicts := if r.owner in sources then sources[r.owner].state.conflicts else 0;
    ComponentRecord(r, conflicts, DeriveState(r, conflicts, boot, tick))
  }

  function RenderComponents(t: Tables, boot: string, tick: int): map<Component, ComponentRecord>
    requires AllKnown(t)
  {
    map c: Component :: RenderRecord(t.components[c], t.sources, boot, tick)
  }

  /** Components ordered by their names. */
  function NameRank(c: Component): nat {
    match c
    case DefaultPath => 0
    case Dns => 1
    case Transports => 2
    case PhysicalNetwork => 3
    case Relays => 4
    case ScopedRoutes => 5
    case SessionExpiry => 6
    case UserAccess => 7
  }

  /** Within one source a higher sequence is more recent evidence; the component's name breaks ties. */
  predicate Later(a: ConflictKey, b: ConflictKey) {
    a.source == b.source &&
    (a.sequence > b.sequence || (a.sequence == b.sequence && NameRank(a.component) > NameRank(b.component)))
  }

  function LaterThan(keys: set<ConflictKey>, k: ConflictKey): set<ConflictKey> {
    set j | j in keys && Later(j, k)
  }

  predicate Retained(keys: set<ConflictKey>, k: ConflictKey) {
    |LaterThan(keys, k)| < MAX_CONFLICT_RECORDS
  }

  /** Each source keeps its most recent refusals. */
  function Retain(conflicts: map<ConflictKey, ConflictRecord>): map<ConflictKey, ConflictRecord> {
    map k | k in conflicts && Retained(conflicts.Keys, k) :: conflicts[k]
  }

  predicate Evicts(conflicts: map<ConflictKey, ConflictRecord>) {
    exists k :: k in conflicts && !Retained(conflicts.Keys, k)
  }

  // ----- Policy -----

  datatype Policy = Policy(
    present: bool, valid: bool, suspended: bool, bundle: nat, root: nat, user: nat, manifest: string)

  datatype Authorization = Authorized | Unauthorized(why: Refusal)
  datatype Refusal = PolicyAbsent | PolicyInvalid | PolicySuspended | GenerationGap

  predicate MayAuthorize(p: Policy) {
    p.present && p.valid && !p.suspended && p.bundle > 0 && p.manifest != ""
  }

  predicate MovedBack(p: Policy, prior: Policy) {
    prior.present && (p.bundle < prior.bundle || p.root < prior.root || p.user < prior.user)
  }

  function Authorize(p: Policy, prior: Option<Policy>): Authorization {
    if !p.present then Unauthorized(PolicyAbsent)
    else if !p.valid then Unauthorized(PolicyInvalid)
    else if p.suspended then Unauthorized(PolicySuspended)
    else if !MayAuthorize(p) then Unauthorized(PolicyInvalid)
    else if prior.Some? && MovedBack(p, prior.value) then Unauthorized(GenerationGap)
    else Authorized
  }

  // ----- Summary -----

  datatype Aggregate = AggregateUnknown | AggregateReady | AggregateDegraded | AggregateFailed

  datatype Summary = Summary(
    state: Aggregate,
    authorization: Authorization,
    counts: map<ComponentState, nat>,
    openGaps: nat,
    gapOverflow: bool,
    sourceConflicts: nat,
    awaitingBaseline: nat,
    conflictOverflow: bool)

  function InState(records: map<Component, ComponentRecord>, s: ComponentState): set<Component> {
    set c: Component | c in records && records[c].state == s
  }

  function OpenGaps(sources: map<SourceId, Watermark>): set<(SourceId, int)> {
    set id, i | id in sources && 0 <= i < |sources[id].state.gaps| :: (id, i)
  }

  function Conflicted(sources: map<SourceId, Watermark>): set<SourceId> {
    set id | id in sources && sources[id].state.conflicts > 0
  }

  function Awaiting(sources: map<SourceId, Watermark>): set<SourceId> {
    set id | id in sources && sources[id].state.pending != {}
  }

  predicate Overflowed(sources: map<SourceId, Watermark>) {
    exists id :: id in sources && sources[id].state.overflow
  }

  /** A hole in a stream is a missing observation: integrity degrades the summary on its own. */
  predicate Interrupted(sources: map<SourceId, Watermark>) {
    |OpenGaps(sources)| > 0 || Overflowed(sources) || |Awaiting(sources)| > 0 || |Conflicted(sources)| > 0
  }

  function AggregateOf(records: map<Component, ComponentRecord>, sources: map<SourceId, Watermark>): Aggregate {
    if |InState(records, StateFailed)| > 0 then AggregateFailed
    else if |InState(records, StateDegraded)| > 0 || |InState(records, StateStale)| > 0 ||
            |InState(records, StateConflict)| > 0 || Interrupted(sources) then AggregateDegraded
    else if |InState(records, StateUnknown)| > 0 then AggregateUnknown
    else AggregateReady
  }

  function Summarize(
    records: map<Component, ComponentRecord>,
    sources: map<SourceId, Watermark>,
    authorization: Authorization,
    conflictOverflow: bool): Summary
  {
    Summary(
      AggregateOf(records, sources), authorization,
      map s: ComponentState :: |InState(records, s)|,
      |OpenGaps(sources)|, Overflowed(sources), |Conflicted(sources)|, |Awaiting(sources)|, conflictOverflow)
  }

  // ----- Snapshots -----

  datatype Snapshot = Snapshot(
    generation: nat,
    boot: string,
    tick: int,
    policy: Policy,
    authorization: Authorization,
    host: nat,
    fold: nat,
    components: map<Component, ComponentRecord>,
    sources: map<SourceId, Watermark>,
    conflicts: map<ConflictKey, ConflictRecord>,
    summary: Summary)

  predicate Complete(s: Snapshot) {
    forall c: Component :: c in s.components
  }

  function OfSource(keys: set<ConflictKey>, src: SourceId): set<ConflictKey> {
    set k | k in keys && k.source == src
  }

  predicate StorableSource(w: Watermark, src: SourceId) {
    && |w.state.gaps| <= MAX_GAP_RANGES
    && (w.state.gaps != [] ==> w.state.pending != {})
    && |w.state.pending| <= |Declared(src)|
  }

  /** A snapshot this reducer could have produced, and a store could hold. */
  predicate ValidSnapshot(s: Snapshot) {
    && s.generation > 0
    && Complete(s)
    && (forall k :: k in s.conflicts ==> |OfSource(s.conflicts.Keys, k.source)| <= MAX_CONFLICT_RECORDS)
    && (forall id :: id in s.sources ==> StorableSource(s.sources[id], id))
    && (forall c :: c in s.components ==> |s.components[c].evidence.corroborations| <= MAX_CORROBORATIONS)
  }

  function TablesOf(s: Snapshot): (t: Tables)
    requires Complete(s)
    ensures AllKnown(t)
  {
    Tables(map c: Component :: s.components[c].evidence, s.sources, s.conflicts, s.host, s.fold)
  }

  // ----- What counts as a change -----

  datatype SemanticComponent = SemanticComponent(
    state: ComponentState,
    observed: Lifecycle,
    reason: string,
    payload: Option<Payload>,
    hasBaseline: bool,
    rebaseline: bool,
    conflicts: nat,
    opinions: map<SourceId, (Lifecycle, bool)>)

  datatype SemanticSource = SemanticSource(
    boot: string, gaps: seq<Gap>, overflow: bool, pending: set<Component>, conflicts: nat)

  datatype Semantic = Semantic(
    boot: string,
    policy: Policy,
    authorization: Authorization,
    components: map<Component, SemanticComponent>,
    sources: map<SourceId, SemanticSource>,
    conflicts: map<ConflictKey, ConflictRecord>,
    summary: Summary)

  function ProjectComponent(r: ComponentRecord): SemanticComponent {
    var e := r.evidence;
    SemanticComponent(r.state, e.observed, e.reason, e.payload, e.hasBaseline, e.rebaseline, r.conflicts,
      map id | id in e.corroborations :: (e.corroborations[id].lifecycle, e.corroborations[id].agrees))
  }

  /** Omits sequences, ticks and deadlines, so that re-observing the same state is not a change. */
  function Project(s: Snapshot): Semantic {
    Semantic(s.boot, s.policy, s.authorization,
      map c | c in s.components :: ProjectComponent(s.components[c]),
      map id | id in s.sources :: var w := s.sources[id].state;
        SemanticSource(w.boot, w.gaps, w.overflow, w.pending, w.conflicts),
      s.conflicts, s.summary)
  }
}

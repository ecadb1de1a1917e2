/** Desired state, its comparison with a snapshot, and the proposals the comparison implies. */
module Comparison {
  import opened Facts
  import opened Reducer

  /** Pins are optional: an absent pin means policy does not constrain that aspect. */
  datatype Expectation = Expectation(
    lifecycle: Lifecycle,
    path: Option<nat>, resolver: Option<nat>, selected: Option<nat>, profile: Option<nat>,
    minRoutes: Option<nat>, minTransports: Option<nat>, minRelays: Option<nat>)

  datatype ComponentPolicy = ComponentPolicy(component: Component, managed: bool, demand: Expectation)

  datatype Desired = Desired(managed: bool, demand: Expectation)

  /** A pin must belong to its component, and only ready or not applicable can be required. */
  predicate ValidExpectation(c: Component, e: Expectation) {
    && (e.lifecycle.Ready? || e.lifecycle.NotApplicable?)
    && (e.path.Some? ==> c.DefaultPath?)
    && (e.resolver.Some? ==> c.Dns?)
    && (e.selected.Some? ==> c.Relays?)
    && (e.profile.Some? ==> c.UserAccess?)
    && (e.minRoutes.Some? ==> c.ScopedRoutes?)
    && (e.minTransports.Some? ==> c.Transports?)
    && (e.minRelays.Some? ==> c.Relays?)
  }

  predicate ValidPolicies(ps: seq<ComponentPolicy>) {
    && (forall i, j :: 0 <= i < j < |ps| ==> ps[i].component != ps[j].component)
    && (forall i :: 0 <= i < |ps| && ps[i].managed ==> ValidExpectation(ps[i].component, ps[i].demand))
  }

  function Unmanaged(): Desired {
    Desired(false, Expectation(NotApplicable, None, None, None, None, None, None, None))
  }

  function Want(ps: seq<ComponentPolicy>, c: Component): Desired {
    if ps == [] then Unmanaged()
    else if ps[0].component == c then (if ps[0].managed then Desired(true, ps[0].demand) else Unmanaged())
    else Want(ps[1..], c)
  }

  /** Full desire over every component; None when the policy cannot be read. */
  function Desire(p: Policy, ps: seq<ComponentPolicy>): Option<map<Component, Desired>> {
    if !ValidPolicies(ps) then None
    else Some(map c: Component :: if MayAuthorize(p) then Want(ps, c) else Unmanaged())
  }

  datatype Classification =
    | Converged | Missing | Unexpected | Divergent | ClassStale | ClassUnknown | ClassConflict | Grandfathered

  datatype DiffReason =
    | ReasonNone | NotObserved | StaleObservation | OwnerConflict | NothingPresent | BelowExpected
    | ClassMismatch | ObservedFailed | ObservedDegraded | NotManaged | PolicyExcluded | PolicyUnauthorized

  datatype ComponentDiff = ComponentDiff(domain: Domain, class_: Classification, reason: DiffReason)

  datatype Diff = Diff(generation: nat, policy: Policy, authorized: bool, components: map<Component, ComponentDiff>)

  /** The component's own payload says nothing is there. */
  predicate Absent(p: Option<Payload>) {
    match p
    case None => true
    case Some(LinkPayload(n, _)) => n == 0
    case Some(PathPayload(n, _)) => n == 0
    case Some(DnsPayload(n, _)) => n == 0
    case Some(RoutesPayload(n, _)) => n == 0
    case Some(TransportsPayload(n, _)) => n == 0
    case Some(RelaysPayload(n, _, _)) => n == 0
    case Some(AccessPayload(n, _)) => n == 0
    case Some(SessionPayload(n, _)) => n == 0
  }

  function CountPin(have: nat, least: Option<nat>): Option<(Classification, DiffReason)> {
    if least.None? || have >= least.value then None
    else if have == 0 then Some((Missing, NothingPresent))
    else Some((Divergent, BelowExpected))
  }

  function ClassPin(have: nat, wanted: Option<nat>): Option<(Classification, DiffReason)> {
    if wanted.None? || have == wanted.value then None else Some((Divergent, ClassMismatch))
  }

  function PinMismatch(p: Option<Payload>, e: Expectation): Option<(Classification, DiffReason)> {
    match p
    case Some(PathPayload(n, _)) => ClassPin(n, e.path)
    case Some(DnsPayload(n, _)) => ClassPin(n, e.resolver)
    case Some(RelaysPayload(n, chosen, _)) =>
      var pin := ClassPin(chosen, e.selected);
      if pin.Some? then pin else CountPin(n, e.minRelays)
    case Some(AccessPayload(n, _)) => ClassPin(n, e.profile)
    case Some(RoutesPayload(n, _)) => CountPin(n, e.minRoutes)
    case Some(TransportsPayload(n, _)) => CountPin(n, e.minTransports)
    case _ => None
  }

  /** The component was established before the policy that now excludes it took effect. */
  predicate EstablishedEarlier(c: Component, prior: Option<Semantic>, policy: Policy) {
    && prior.Some? && prior.value.policy.present
    && prior.value.policy.bundle < policy.bundle
    && c in prior.value.components
    && (prior.value.components[c].state.StateReady? || prior.value.components[c].state.StateDegraded?)
  }

  function ClassifyRecord(
    c: Component, r: ComponentRecord, want: Desired, prior: Option<Semantic>, policy: Policy)
    : (Classification, DiffReason)
  {
    match r.state
    case StateConflict => (ClassConflict, OwnerConflict)
    case StateStale => (ClassStale, StaleObservation)
    case StateUnknown => (ClassUnknown, NotObserved)
    case _ =>
      if !want.managed then
        if r.state.StateNotApplicable? then (Converged, NotManaged)
        else if EstablishedEarlier(c, prior, policy) then (Grandfathered, PolicyExcluded)
        else (Unexpected, NotManaged)
      else if want.demand.lifecycle.NotApplicable? then
        if r.state.StateNotApplicable? then (Converged, ReasonNone)
        else if EstablishedEarlier(c, prior, policy) then (Grandfathered, PolicyExcluded)
        else (Unexpected, ReasonNone)
      else if r.state.StateFailed? then
        if Absent(r.evidence.payload) then (Missing, NothingPresent) else (Divergent, ObservedFailed)
      else if r.state.StateDegraded? then (Divergent, ObservedDegraded)
      else if r.state.StateNotApplicable? then (Missing, NothingPresent)
      else match PinMismatch(r.evidence.payload, want.demand)
        case Some(mismatch) => mismatch
        case None => (Converged, ReasonNone)
  }

  /** Classifies every component against what policy wants.  The prior snapshot is consulted only
      through what a reader of its semantic projection could see. */
  function Compare(s: Snapshot, desired: map<Component, Desired>, prior: Option<Semantic>): Diff
    requires Complete(s) && forall c: Component :: c in desired
  {
    var authorized := s.authorization.Authorized? && MayAuthorize(s.policy);
    Diff(s.generation, s.policy, authorized,
      map c: Component ::
        var (class_, reason) :=
          if authorized then ClassifyRecord(c, s.components[c], desired[c], prior, s.policy)
          else (ClassUnknown, PolicyUnauthorized);
        ComponentDiff(s.components[c].evidence.domain, class_, reason))
  }

  datatype ProposalClass = Establish | Reconcile | Withdraw | ObserveAgain

  datatype Proposal = Proposal(
    generation: nat, bundle: nat, domainGeneration: nat, domain: Domain, class_: ProposalClass, reason: DiffReason,
      diff: Diff)

  /** Converged needs nothing, and a grandfathered state is reported, never withdrawn. */
  function ProposalFor(c: Classification): Option<ProposalClass> {
    match c
    case Missing => Some(Establish)
    case Divergent => Some(Reconcile)
    case Unexpected => Some(Withdraw)
    case ClassStale => Some(ObserveAgain)
    case ClassUnknown => Some(ObserveAgain)
    case ClassConflict => Some(ObserveAgain)
    case Converged => None
    case Grandfathered => None
  }

  function Propose(s: Snapshot, d: Diff): map<Component, Proposal> {
    if !d.authorized then map[] else
    map c | c in d.components && ProposalFor(d.components[c].class_).Some? ::
      var entry := d.components[c];
      Proposal(s.generation, s.policy.bundle, if entry.domain.User? then s.policy.user else s.policy.root,
               entry.domain, ProposalFor(entry.class_).value, entry.reason, d)
  }
}

/** What a comparison concludes, said without its case analysis. */
module ComparisonResults {
  import opened Facts
  import opened Acceptance
  import opened Reducer
  import opened Comparison
  import opened Reduction
  import opened ReductionTheorems
  import opened ReducerLoops

  // ----- Classification -----

  predicate PinHolds(have: nat, wanted: Option<nat>) {
    wanted.Some? ==> have == wanted.value
  }

  predicate AtLeast(have: nat, least: Option<nat>) {
    least.Some? ==> have >= least.value
  }

  /** Every pin that concerns this payload is satisfied. */
  predicate PinsMet(p: Option<Payload>, e: Expectation) {
    match p
    case Some(PathPayload(n, _)) => PinHolds(n, e.path)
    case Some(DnsPayload(n, _)) => PinHolds(n, e.resolver)
    case Some(AccessPayload(n, _)) => PinHolds(n, e.profile)
    case Some(RelaysPayload(n, chosen, _)) => PinHolds(chosen, e.selected) && AtLeast(n, e.minRelays)
    case Some(RoutesPayload(n, _)) => AtLeast(n, e.minRoutes)
    case Some(TransportsPayload(n, _)) => AtLeast(n, e.minTransports)
    case _ => true
  }

  /** Policy wants nothing here: unmanaged, or required to be not applicable. */
  predicate WantsNothing(want: Desired) {
    !want.managed || want.demand.lifecycle.NotApplicable?
  }

  predicate Known(s: ComponentState) {
    s.StateReady? || s.StateDegraded? || s.StateFailed? || s.StateNotApplicable?
  }

  /** Known to be what policy wants: absent where nothing is wanted, otherwise ready with every pin
      satisfied. */
  predicate AsWanted(r: ComponentRecord, want: Desired) {
    if WantsNothing(want) then r.state.StateNotApplicable?
      else r.state.StateReady? && PinsMet(r.evidence.payload, want.demand)
  }

  /** Known to be there though policy wants nothing. */
  predicate Unwanted(r: ComponentRecord, want: Desired) {
    Known(r.state) && !r.state.StateNotApplicable? && WantsNothing(want)
  }

  lemma {:induction false} ConvergedExactly(
    c: Component, r: ComponentRecord, want: Desired, prior: Option<Semantic>, policy: Policy)
    ensures ClassifyRecord(c, r, want, prior, policy).0.Converged? <==> AsWanted(r, want)
  {
  }

  lemma {:induction false} UnwantedExactly(
    c: Component, r: ComponentRecord, want: Desired, prior: Option<Semantic>, policy: Policy)
    ensures var class_ := ClassifyRecord(c, r, want, prior, policy).0;
      && (class_.Unexpected? <==> Unwanted(r, want) && !EstablishedEarlier(c, prior, policy))
      && (class_.Grandfathered? <==> Unwanted(r, want) && EstablishedEarlier(c, prior, policy))
  {
  }

  predicate Uncertain(class_: Classification) {
    class_.ClassStale? || class_.ClassUnknown? || class_.ClassConflict?
  }

  /** What is not known is never classified by what it last was. */
  lemma {:induction false} UncertainExactly(
    c: Component, r: ComponentRecord, want: Desired, prior: Option<Semantic>, policy: Policy)
    ensures Uncertain(ClassifyRecord(c, r, want, prior, policy).0) <==> !Known(r.state)
  {
  }

  lemma {:induction false} ComparedTo(
    s: Snapshot, desired: map<Component, Desired>, prior: Option<Semantic>, c: Component)
    requires Complete(s) && forall d: Component :: d in desired
    ensures var diff := Compare(s, desired, prior);
      && (diff.authorized <==> s.authorization.Authorized? && MayAuthorize(s.policy)) && c in diff.components
      && diff.components[c].domain == s.components[c].evidence.domain
      && (diff.authorized ==>
        diff.components[c].class_ == ClassifyRecord(c, s.components[c], desired[c], prior, s.policy).0)
  {
  }

  lemma {:induction false} ProposedBy(s: Snapshot, diff: Diff, c: Component)
    requires c in diff.components
    ensures var ps, entry := Propose(s, diff), diff.components[c];
      && (c in ps <==> diff.authorized && !entry.class_.Converged? && !entry.class_.Grandfathered?)
      && (c in ps ==> ps[c].domainGeneration == if entry.domain.User? then s.policy.user else s.policy.root)
      && (c in ps && ps[c].class_.Withdraw? <==> diff.authorized && entry.class_.Unexpected?)
      && (c in ps && ps[c].class_.ObserveAgain? <==> diff.authorized && Uncertain(entry.class_))
  {
  }

  /** Nothing is proposed without authority; with it, every component gets exactly one proposal, bound to
      the generation of its own domain, unless it is known to be what policy wants or was established
      by an earlier policy.  What is not known is only looked at again, and nothing but what is
      there, unwanted and never was wanted is withdrawn. */
  lemma {:induction false} ProposedExactly(
    s: Snapshot, desired: map<Component, Desired>, prior: Option<Semantic>, c: Component, ps: map<Component, Proposal>)
    requires Complete(s) && (forall d: Component :: d in desired) && ps == Propose(s, Compare(s, desired, prior))
    ensures var r, want, earlier := s.components[c], desired[c], EstablishedEarlier(c, prior, s.policy);
      var authorized := s.authorization.Authorized? && MayAuthorize(s.policy);
      && (c in ps <==> authorized && !AsWanted(r, want) && !(Unwanted(r, want) && earlier))
      && (c in ps ==> ps[c].domainGeneration == if r.evidence.domain.User? then s.policy.user else s.policy.root)
      && (c in ps && ps[c].class_.Withdraw? <==> authorized && Unwanted(r, want) && !earlier)
      && (c in ps && ps[c].class_.ObserveAgain? <==> authorized && !Known(r.state))
  {
    var r, want := s.components[c], desired[c];
    ComparedTo(s, desired, prior, c);
    ProposedBy(s, Compare(s, desired, prior), c);
    ConvergedExactly(c, r, want, prior, s.policy);
    UnwantedExactly(c, r, want, prior, s.policy);
    UncertainExactly(c, r, want, prior, s.policy);
  }

  // ----- The loops -----

  lemma {:induction false} ListedBefore(n: nat)
    requires n < |COMPONENTS|
    ensures COMPONENTS[n] !in COMPONENTS[..n]
  {
  }

  /** Component by component, in the compiled order. */
  method CompareAll(s: Snapshot, desired: map<Component, Desired>, prior: Option<Semantic>) returns (d: Diff)
    requires Complete(s) && forall c: Component :: c in desired
    ensures d == Compare(s, desired, prior)
  {
    var authorized := s.authorization.Authorized? && MayAuthorize(s.policy);
    var entries: map<Component, ComponentDiff> := map[];
    ghost var all := Compare(s, desired, prior).components;
    for i := 0 to |COMPONENTS|
      invariant forall c :: c in entries ==> c in all && entries[c] == all[c]
      invariant forall c :: c in COMPONENTS[..i] ==> c in entries
    {
      var c := COMPONENTS[i];
      assert COMPONENTS[..i + 1] == COMPONENTS[..i] + [c];
      var verdict := (ClassUnknown, PolicyUnauthorized);
      if authorized {
        verdict := ClassifyRecord(c, s.components[c], desired[c], prior, s.policy);
      }
      entries := entries[c := ComponentDiff(s.components[c].evidence.domain, verdict.0, verdict.1)];
    }
    assert COMPONENTS[..|COMPONENTS|] == COMPONENTS;
    forall c: Component ensures c in entries { EveryComponentListed(c); }
    assert entries == all;
    d := Diff(s.generation, s.policy, authorized, entries);
  }

  function StateAmong(records: map<Component, ComponentRecord>, s: ComponentState, n: nat): set<Component>
    requires n <= |COMPONENTS|
  {
    set c | c in COMPONENTS[..n] && c in records && records[c].state == s
  }

  lemma {:induction false} StateNext(records: map<Component, ComponentRecord>, s: ComponentState, n: nat)
    requires n < |COMPONENTS| && COMPONENTS[n] in records
    ensures |StateAmong(records, s, n + 1)| == |StateAmong(records, s, n)|
      + if records[COMPONENTS[n]].state == s then 1 else 0
  {
    assert COMPONENTS[..n + 1] == COMPONENTS[..n] + [COMPONENTS[n]];
    ListedBefore(n);
    if records[COMPONENTS[n]].state == s {
      assert StateAmong(records, s, n + 1) == StateAmong(records, s, n) + {COMPONENTS[n]};
    } else {
      assert StateAmong(records, s, n + 1) == StateAmong(records, s, n);
    }
  }

  lemma {:induction false} StateAll(records: map<Component, ComponentRecord>, s: ComponentState)
    ensures StateAmong(records, s, |COMPONENTS|) == InState(records, s)
  {
    assert COMPONENTS[..|COMPONENTS|] == COMPONENTS;
    forall c | c in InState(records, s) ensures c in COMPONENTS { EveryComponentListed(c); }
  }

  /** One counter per state, raised once per component. */
  method CountStates(records: map<Component, ComponentRecord>) returns (counts: map<ComponentState, nat>)
    requires forall c: Component :: c in records
    ensures forall s: ComponentState :: s in counts && counts[s] == |InState(records, s)|
  {
    counts := map[StateUnknown := 0, StateReady := 0, StateDegraded := 0, StateFailed := 0, StateStale := 0,
      StateConflict := 0, StateNotApplicable := 0];
    forall s: ComponentState ensures s in counts && counts[s] == |StateAmong(records, s, 0)| {
      assert StateAmong(records, s, 0) == {};
      match s {
        case StateUnknown => case StateReady => case StateDegraded => case StateFailed =>
        case StateStale => case StateConflict => case StateNotApplicable =>
      }
    }
    for i := 0 to |COMPONENTS|
      invariant forall s: ComponentState :: s in counts && counts[s] == |StateAmong(records, s, i)|
    {
      var state := records[COMPONENTS[i]].state;
      forall s: ComponentState
        ensures |StateAmong(records, s, i + 1)| == |StateAmong(records, s, i)| + if state == s then 1 else 0 {
        StateNext(records, s, i);
      }
      counts := counts[state := counts[state] + 1];
    }
    forall s: ComponentState
      ensures StateAmong(records, s, |COMPONENTS|) == InState(records, s)
    {
      StateAll(records, s);
    }
  }

  // ----- Refusals -----

  /** How often an identity was reused since its source last restated the component. */
  function RefusedSince(es: seq<Event>, k: ConflictKey): nat {
    if es == [] then 0
    else
      var before, e := RefusedSince(es[..|es| - 1], k), es[|es| - 1];
      if !e.decision.Decided? || e.fact.source != k.source || e.fact.component != k.component then before
      else if e.decision.outcome.Accepted? && e.fact.baseline then 0
      else if e.decision.outcome.Conflict? && e.fact.sequence == k.sequence then before + 1
      else before
  }

  /** The table of refusals is exact: an identity is in it exactly while it has been reused since its
      component was last restated, with that count. */
  lemma {:induction false} RefusalsExact(es: seq<Event>, k: ConflictKey)
    ensures var table := Refusals(map[], es);
      && (k in table <==> RefusedSince(es, k) > 0)
      && (k in table ==> table[k].count == RefusedSince(es, k) % UINT32)
  {
    if es != [] {
      RefusalsExact(es[..|es| - 1], k);
      var e, n := es[|es| - 1], RefusedSince(es[..|es| - 1], k);
      assert (n % UINT32 + 1) % UINT32 == (n + 1) % UINT32;
    }
  }

  // ----- Corroboration -----

  /** A second opinion is recorded and changes nothing else: no conclusion about the component depends on it. */
  lemma {:induction false} CorroborationNeverOverrules(r: Evidence, e: Event, conflicts: nat, boot: string, tick: int)
    requires e.decision.Decided? && e.decision.role.Corroborating?
    ensures Heard(r, e) == r.(corroborations := Heard(r, e).corroborations)
    ensures DeriveState(Heard(r, e), conflicts, boot, tick) == DeriveState(r, conflicts, boot, tick)
    ensures e.fact.source in Heard(r, e).corroborations && Heard(r, e).corroborations != r.corroborations ==>
      Heard(r, e).corroborations[e.fact.source].agrees == (e.fact.lifecycle == r.observed)
    ensures forall id :: id in r.corroborations && id != e.fact.source ==>
      id in Heard(r, e).corroborations && Heard(r, e).corroborations[id] == r.corroborations[id]
  {
  }
}

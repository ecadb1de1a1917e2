/** "Ready" is never inferred: over every run it rests on what owners actually said. */
module Readiness {
  import opened Facts
  import opened Acceptance
  import opened History
  import opened AcceptorTheorems
  import opened AcceptorResults
  import opened Reducer
  import opened Comparison
  import opened Reduction
  import opened ReductionTheorems
  import opened ReductionResults
  import opened RuntimeModel
  import opened RuntimeTheorems

  predicate SpeaksForOwner(e: Event, c: Component) {
    IsAccepted(e) && e.decision.role.Authoritative? && e.fact.component == c
  }

  /** The most recent thing a component's owner said. */
  function LastOwned(es: seq<Event>, c: Component): (r: Option<Event>)
    ensures r.Some? ==> SpeaksForOwner(r.value, c)
  {
    if es == [] then None
    else if SpeaksForOwner(es[|es| - 1], c) then Some(es[|es| - 1])
    else LastOwned(es[..|es| - 1], c)
  }

  /** A component's evidence is its owner's most recent statement. */
  predicate EvidenceAgrees(r: Evidence, said: Option<Event>) {
    match said
    case None => r.host == 0 && r.payload.None? && r.observed.Unknown?
    case Some(e) =>
      && r.host > 0
      && r.observed == e.fact.lifecycle
      && r.payload == Some(e.fact.payload)
      && r.boot == e.fact.boot
      && r.deadline == e.fact.deadline
  }

  lemma {:induction false} LastOwnedSnoc(es: seq<Event>, e: Event, c: Component)
    ensures LastOwned(es + [e], c) == if SpeaksForOwner(e, c) then Some(e) else LastOwned(es, c)
  {
    assert (es + [e])[..|es + [e]| - 1] == es;
  }

  lemma {:induction false} ApplyEvidence(t: Tables, said: Option<Event>, e: Event, c: Component)
    requires AllKnown(t) && EvidenceAgrees(t.components[c], said) && NextInOrder(t, e)
    ensures EvidenceAgrees(Apply(t, e).components[c], if SpeaksForOwner(e, c) then Some(e) else said)
  {
  }

  lemma {:induction false} FoldEvidence(t: Tables, base: seq<Event>, es: seq<Event>, c: Component)
    requires AllKnown(t) && EvidenceAgrees(t.components[c], LastOwned(base, c)) && Fold(t, es).Some?
    ensures EvidenceAgrees(Fold(t, es).value.components[c], LastOwned(base + es, c))
    decreases |es|
  {
    if es == [] {
      assert base + es == base;
    } else {
      var most, e := es[..|es| - 1], es[|es| - 1];
      FoldEvidence(t, base, most, c);
      assert base + es == (base + most) + [e];
      LastOwnedSnoc(base + most, e, c);
      ApplyEvidence(Fold(t, most).value, LastOwned(base + most, c), e, c);
    }
  }

  // ----- The invariant -----

  /** The records and the aggregate are the rendering of the snapshot's own evidence. */
  predicate Rendered(s: Snapshot) {
    && Complete(s)
    && (forall c: Component :: s.components[c] == RenderRecord(s.components[c].evidence, s.sources, s.boot, s.tick))
    && s.summary.state == AggregateOf(s.components, s.sources)
  }

  predicate Witnessed(s: Snapshot, es: seq<Event>) {
    Complete(s) && forall c: Component :: EvidenceAgrees(s.components[c].evidence, LastOwned(es, c))
  }

  /** A reduction that no longer takes earlier observations for granted: after a wake or a reboot. */
  predicate Withdrew(entry: TickEntry) {
    entry.context.wake.Some? || entry.rebooted
  }

  /** Since a wake or a reboot, a component observed before it was restated or is still held stale. */
  predicate WakeHonoured(s: Snapshot, es: seq<Event>, entry: TickEntry, c: Component)
    requires Complete(s) && 0 <= entry.before <= |es|
  {
    Withdrew(entry) && TimeSensitive(c) && LastOwned(es[..entry.before], c).Some? ==>
      c in Baselined(es[entry.before..]) || s.components[c].evidence.rebaseline
  }

  predicate WakesHonoured(s: Snapshot, es: seq<Event>, ticks: seq<TickEntry>) {
    && Complete(s)
    && (forall i :: 0 <= i < |ticks| ==> 0 <= ticks[i].before <= |es|)
    && (forall i, c :: 0 <= i < |ticks| ==> WakeHonoured(s, es, ticks[i], c))
  }

  predicate Honest(w: World) {
    && 0 <= Folded(w)
    && (w.snapshot.None? ==> w.ticks == [])
    && (w.snapshot.Some? ==>
        && Rendered(w.snapshot.value)
        && Witnessed(w.snapshot.value, w.events[..Folded(w)])
        && WakesHonoured(w.snapshot.value, w.events[..Folded(w)], w.ticks))
  }

  lemma {:induction false} PublishFolds(w: World, fs: seq<Fact>, domain: Domain)
    requires 0 <= Folded(w)
    ensures var w' := Publish(w, fs, domain);
      && Folded(w') == Folded(w) && w'.events[..Folded(w)] == w.events[..Folded(w)]
      && w'.snapshot == w.snapshot && w'.ticks == w.ticks && w'.lineage == w.lineage && w'.broken == w.broken
      && w'.boot == w.boot && w'.accepted == w.accepted && w'.consumed == w.consumed
      && |w.events| <= |w'.events|
    decreases |fs|
  {
    if fs != [] {
      PublishFolds(w, fs[..|fs| - 1], domain);
    }
  }

  /** `after` holds the evidence a reduction of `input` folds. */
  predicate Reduced(input: Input, after: Snapshot) {
    && ValidInput(input) && Complete(after)
    && Fold(StartTables(input), input.events).Some?
    && (forall c: Component :: after.components[c].evidence ==
          Mark(Fold(StartTables(input), input.events).value, Withdrawn(input) - Baselined(input.events)).components[c])
  }

  function Withdrawn(input: Input): set<Component>
    requires ValidInput(input)
  {
    if Withdraws(input.prior, input.context) then Observed(StartTables(input)) else {}
  }

  lemma {:induction false} ReductionReduced(input: Input)
    requires Reduce(input).Ok?
    ensures Reduced(input, Reduce(input).output.snapshot)
    ensures Rendered(Reduce(input).output.snapshot)
  {
    ReducedShape(input);
    FoldedTables(input);
  }

  lemma {:induction false} TickWitnessed(input: Input, after: Snapshot, base: seq<Event>, c: Component)
    requires Reduced(input, after)
    requires EvidenceAgrees(StartTables(input).components[c], LastOwned(base, c))
    ensures EvidenceAgrees(after.components[c].evidence, LastOwned(base + input.events, c))
  {
    FoldEvidence(StartTables(input), base, input.events, c);
  }

  lemma {:induction false} TickRebaseline(input: Input, after: Snapshot, c: Component)
    requires Reduced(input, after) && c !in Baselined(input.events)
    ensures StartTables(input).components[c].rebaseline ==> after.components[c].evidence.rebaseline
    ensures Withdraws(input.prior, input.context) && c in Observed(StartTables(input)) ==>
      after.components[c].evidence.rebaseline
  {
    var u := Fold(StartTables(input), input.events).value;
    FoldRebaseline(StartTables(input), input.events, c);
    MarkedComponent(u, Withdrawn(input) - Baselined(input.events), c);
  }

  lemma {:induction false} MarkedComponent(t: Tables, cs: set<Component>, c: Component)
    requires AllKnown(t)
    ensures Mark(t, cs).components[c] == if c in cs then t.components[c].(rebaseline := true) else t.components[c]
  {
  }

  lemma {:induction false} TickWakes(input: Input, after: Snapshot, es: seq<Event>, entry: TickEntry, c: Component)
    requires Reduced(input, after) && 0 <= entry.before <= |es|
    requires input.prior.Some? && WakeHonoured(input.prior.value, es, entry, c)
    ensures WakeHonoured(after, es + input.events, entry, c)
  {
    var k := entry.before;
    assert (es + input.events)[..k] == es[..k] && (es + input.events)[k..] == es[k..] + input.events;
    BaselinedConcat(es[k..], input.events);
    if c !in Baselined(input.events) { TickRebaseline(input, after, c); }
  }

  lemma {:induction false} TickNewWake(input: Input, after: Snapshot, es: seq<Event>, entry: TickEntry, c: Component)
    requires Reduced(input, after) && entry.before == |es|
    requires (Withdrew(entry) <==> Withdraws(input.prior, input.context))
    requires EvidenceAgrees(StartTables(input).components[c], LastOwned(es, c))
    ensures WakeHonoured(after, es + input.events, entry, c)
  {
    assert (es + input.events)[..|es|] == es && (es + input.events)[|es|..] == input.events;
    if c !in Baselined(input.events) { TickRebaseline(input, after, c); }
  }

  /** What a reduction starts from is what was witnessed so far. */
  predicate WitnessedStart(input: Input, es: seq<Event>) {
    ValidInput(input) && forall c: Component :: EvidenceAgrees(StartTables(input).components[c], LastOwned(es, c))
  }

  lemma {:induction false} StartWitnessed(w: World, start: State, x: Context)
    requires Inv(w, start) && Honest(w) && ValidInput(TickInput(w, x))
    ensures WitnessedStart(TickInput(w, x), w.events[..Folded(w)])
  {
  }

  lemma {:induction false} TickKeepsWakes(
    input: Input, after: Snapshot, es: seq<Event>, ticks: seq<TickEntry>, entry: TickEntry)
    requires Reduced(input, after) && WitnessedStart(input, es)
    requires if input.prior.Some? then WakesHonoured(input.prior.value, es, ticks) else ticks == []
    requires entry.before == |es| && (Withdrew(entry) <==> Withdraws(input.prior, input.context))
    ensures WakesHonoured(after, es + input.events, ticks + [entry])
  {
    var all := ticks + [entry];
    forall i, c | 0 <= i < |all|
      ensures 0 <= all[i].before <= |es| && WakeHonoured(after, es + input.events, all[i], c) {
      if i < |ticks| { TickWakes(input, after, es, ticks[i], c); } else { TickNewWake(input, after, es, all[i], c); }
    }
  }

  lemma {:induction false} AbsorbKeepsHonest(w: World, x: Context, id: nat, output: Output, es: seq<Event>)
    requires Honest(w) && es == w.events[..Folded(w)] && w.pending == w.events[Folded(w)..]
    requires Reduced(TickInput(w, x), output.snapshot) && Rendered(output.snapshot)
    requires WitnessedStart(TickInput(w, x), es)
    ensures Honest(Absorb(w, x, id, output))
  {
    var input, s, w' := TickInput(w, x), output.snapshot, Absorb(w, x, id, output);
    assert es + input.events == w.events == w'.events[..Folded(w')];
    forall c: Component ensures EvidenceAgrees(s.components[c].evidence, LastOwned(w.events, c)) {
      TickWitnessed(input, s, es, c);
    }
    TickKeepsWakes(input, s, es, w.ticks, w'.ticks[|w.ticks|]);
  }

  lemma {:induction false} TickKeepsHonest(w: World, start: State, x: Context, id: nat)
    requires Inv(w, start) && Honest(w)
    ensures Honest(Tick(w, x, id))
  {
    if Reduce(TickInput(w, x)).Ok? {
      ReductionReduced(TickInput(w, x));
      StartWitnessed(w, start, x);
      AbsorbKeepsHonest(w, x, id, Reduce(TickInput(w, x)).output, w.events[..Folded(w)]);
    }
  }

  lemma {:induction false} RunKeepsHonest(boot: string, host: nat, fold: nat, ops: seq<Operation>)
    ensures Honest(Execute(Fresh(boot, host, fold), ops))
    decreases |ops|
  {
    if ops != [] {
      var start, most := State(host, fold, map[]), ops[..|ops| - 1];
      RunKeepsHonest(boot, host, fold, most);
      RunKeepsInv(boot, host, fold, most);
      var w := Execute(Fresh(boot, host, fold), most);
      match ops[|ops| - 1] {
        case PublishOp(fs, domain) => PublishFolds(w, fs, domain);
        case TickOp(x, id) => TickKeepsHonest(w, start, x, id);
      }
    }
  }

  // ----- The theorem -----

  /** The owner's latest word on a component is ready or not applicable, is from this boot, and has
      not expired. */
  predicate VouchedFor(es: seq<Event>, c: Component, boot: string, tick: int) {
    var said := LastOwned(es, c);
    && said.Some?
    && (said.value.fact.lifecycle.Ready? || said.value.fact.lifecycle.NotApplicable?)
    && said.value.fact.boot == boot
    && tick <= said.value.fact.deadline
  }

  predicate RestatedFrom(es: seq<Event>, k: nat, src: SourceId, c: Component) {
    exists j :: k <= j < |es| && Restates(es[j], src, c)
  }

  predicate OwnerRestatedFrom(es: seq<Event>, k: nat, c: Component) {
    exists j :: k <= j < |es| && RestatesOwned(es[j]) && es[j].fact.component == c
  }

  lemma {:induction false} BaselinedMeans(es: seq<Event>, c: Component)
    requires c in Baselined(es)
    ensures exists j :: 0 <= j < |es| && RestatesOwned(es[j]) && es[j].fact.component == c
  {
    var most := es[..|es| - 1];
    if c in Baselined(most) {
      BaselinedMeans(most, c);
      var j :| 0 <= j < |most| && RestatesOwned(most[j]) && most[j].fact.component == c;
      assert es[j] == most[j];
    } else {
      assert RestatesOwned(es[|es| - 1]);
    }
  }

  lemma {:induction false} ReadyIsVouched(w: World, c: Component)
    requires Honest(w) && w.snapshot.Some? && w.snapshot.value.summary.state.AggregateReady?
    ensures VouchedFor(w.events[..Folded(w)], c, w.snapshot.value.boot, w.snapshot.value.tick)
    ensures !w.snapshot.value.components[c].evidence.rebaseline
  {
    var s := w.snapshot.value;
    ReadyMeansWhole(s.components, s.sources);
    var r := s.components[c];
    SettledMeansCurrent(r.evidence, r.conflicts, s.boot, s.tick);
  }

  /** The acceptor's table at the boundary owes exactly the debt of the folded history. */
  lemma {:induction false} FoldedDebt(w: World, start: State, src: SourceId, k: nat)
    requires Inv(w, start) && k < Folded(w) && w.events[k].fact.source == src
    ensures var st := BoundaryState(w, start);
      src in st.sources && st.sources[src].pending == Debt(w.events[..Folded(w)], src)
  {
    var es := w.events[..Folded(w)];
    PendingIsRun(w, start);
    FactsOfSlices(w.events, Folded(w));
    assert AllAdmissible(FactsOf(es)) by {
      forall i | 0 <= i < |es| ensures Admissible(FactsOf(es)[i]) { assert FactsOf(es)[i] == FactsOf(w.events)[i]; }
    }
    BrokenIsKnown(start, FactsOf(es), src, k);
    DebtExactness(start, FactsOf(es), src);
  }

  lemma {:induction false} NothingOwed(es: seq<Event>, src: SourceId, k: nat, c: Component)
    requires Debt(es, src) == {} && k < |es| && Breaks(es[..k], es[k], src) && c in Declared(src)
    ensures RestatedFrom(es, k, src, c)
  {
    assert c !in Debt(es, src);
    assert !Owes(es, src, c);
    assert !NotRestatedFrom(es, k, src, c);
  }

  lemma {:induction false} ReadyOwesNothing(w: World, start: State, src: SourceId, k: nat, c: Component)
    requires Inv(w, start) && Honest(w) && w.snapshot.Some? && w.snapshot.value.summary.state.AggregateReady?
    requires k < Folded(w) && Breaks(w.events[..k], w.events[k], src) && c in Declared(src)
    ensures RestatedFrom(w.events[..Folded(w)], k, src, c)
  {
    var s, es := w.snapshot.value, w.events[..Folded(w)];
    assert es[..k] == w.events[..k] && es[k] == w.events[k];
    FoldedDebt(w, start, src, k);
    ReadyMeansWhole(s.components, s.sources);
    assert RestoredState(s).sources[src] == s.sources[src].state;
    NothingOwed(es, src, k, c);
  }

  /** A source that ever spoke is in the acceptor's table. */
  lemma {:induction false} BrokenIsKnown(start: State, fs: seq<Fact>, src: SourceId, k: nat)
    requires AllAdmissible(fs) && k < |fs| && fs[k].source == src
    ensures src in Run(start, fs).0.sources
    decreases |fs|
  {
    var most, f := fs[..|fs| - 1], fs[|fs| - 1];
    if k < |most| { BrokenIsKnown(start, most, src, k); }
    StepKeepsSources(Run(start, most).0, f, src);
    assert Run(start, fs).0 == Step(Run(start, most).0, f, f.domain).0;
  }

  lemma {:induction false} StepKeepsSources(st: State, f: Fact, src: SourceId)
    requires src in st.sources || (f.source == src && Admissible(f))
    ensures src in Step(st, f, f.domain).0.sources
  {
  }

  predicate AllVouched(es: seq<Event>, s: Snapshot) {
    forall c: Component :: VouchedFor(es, c, s.boot, s.tick)
  }

  /** After every hole, reused identity or reboot of a source, it restated all it declares. */
  ghost predicate BreaksRestated(es: seq<Event>) {
    forall src, k, c :: 0 <= k < |es| && Breaks(es[..k], es[k], src) && c in Declared(src) ==>
      RestatedFrom(es, k, src, c)
  }

  /** After every wake or reboot, each time-sensitive component observed before it was restated. */
  predicate WithdrawalsRestated(es: seq<Event>, ticks: seq<TickEntry>) {
    forall i, c :: 0 <= i < |ticks| && Withdrew(ticks[i]) && TimeSensitive(c) ==> RestatedSince(es, ticks[i], c)
  }

  predicate RestatedSince(es: seq<Event>, entry: TickEntry, c: Component) {
    0 <= entry.before <= |es| && (LastOwned(es[..entry.before], c).Some? ==> OwnerRestatedFrom(es, entry.before, c))
  }

  /** What a claim of ready rests on. */
  ghost predicate Grounded(w: World) {
    && w.snapshot.Some? && 0 <= Folded(w)
    && AllVouched(w.events[..Folded(w)], w.snapshot.value)
    && BreaksRestated(w.events[..Folded(w)])
    && WithdrawalsRestated(w.events[..Folded(w)], w.ticks)
  }

  /** Never guessed healthy: a summary of ready implies that every component's owner last said ready or
      not applicable, in the snapshot's boot and within its deadline; that after every hole, reused
      identity or reboot of any source, that source restated every component it declares; and that
      every time-sensitive component observed before a wake or a reboot was restated by its owner since. */
  lemma {:induction false} ReadyIsGrounded(w: World, start: State)
    requires Inv(w, start) && Honest(w) && w.snapshot.Some? && w.snapshot.value.summary.state.AggregateReady?
    ensures Grounded(w)
  {
    var es := w.events[..Folded(w)];
    forall c: Component
      ensures VouchedFor(es, c, w.snapshot.value.boot, w.snapshot.value.tick)
    {
      ReadyIsVouched(w, c);
    }
    ReadyRestates(w, start, es);
    forall i, c | 0 <= i < |w.ticks| && Withdrew(w.ticks[i]) && TimeSensitive(c)
      ensures RestatedSince(es, w.ticks[i], c) {
      ReadyWakeHonoured(w, i, c);
    }
  }

  lemma {:induction false} ReadyRestates(w: World, start: State, es: seq<Event>)
    requires Inv(w, start) && Honest(w) && w.snapshot.Some? && w.snapshot.value.summary.state.AggregateReady?
    requires es == w.events[..Folded(w)]
    ensures BreaksRestated(es)
  {
    forall src, k, c | 0 <= k < |es| && Breaks(es[..k], es[k], src) && c in Declared(src)
      ensures RestatedFrom(es, k, src, c) {
      assert w.events[..k] == es[..k];
      ReadyOwesNothing(w, start, src, k, c);
    }
  }

  lemma {:induction false} ReadyWakeHonoured(w: World, i: nat, c: Component)
    requires Honest(w) && w.snapshot.Some? && w.snapshot.value.summary.state.AggregateReady?
    requires i < |w.ticks| && Withdrew(w.ticks[i]) && TimeSensitive(c)
    ensures RestatedSince(w.events[..Folded(w)], w.ticks[i], c)
  {
    var es, k := w.events[..Folded(w)], w.ticks[i].before;
    assert WakeHonoured(w.snapshot.value, es, w.ticks[i], c);
    ReadyIsVouched(w, c);
    if LastOwned(es[..k], c).Some? { BaselinedFrom(es, k, c); }
  }

  lemma {:induction false} BaselinedFrom(es: seq<Event>, k: nat, c: Component)
    requires k <= |es| && c in Baselined(es[k..])
    ensures OwnerRestatedFrom(es, k, c)
  {
    BaselinedMeans(es[k..], c);
    var j :| 0 <= j < |es[k..]| && RestatesOwned(es[k..][j]) && es[k..][j].fact.component == c;
    assert es[k + j] == es[k..][j];
  }
}

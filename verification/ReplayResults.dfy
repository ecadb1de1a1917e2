/** Every link a run seals is derived again from its journals, and exactly when. */
module ReplayResults {
  import opened Facts
  import opened Acceptance
  import opened History
  import opened AcceptorTheorems
  import opened AcceptorResults
  import opened Reducer
  import opened Comparison
  import opened Reduction
  import opened ReductionTheorems
  import opened ReductionResults
  import opened RuntimeModel
  import opened RuntimeTheorems
  import opened RuntimeResults
  import opened Readiness
  import opened ReplayModel
  import opened ReplayTheorems

  // ----- Ticks keep the lineage joined -----

  lemma {:induction false} SealKeepsLineal(w: World, start: State, x: Context, id: nat, output: Output)
    requires Chronicle(w, start) && output.changed
    requires RestoredState(output.snapshot) == w.acceptor && ValidSnapshot(output.snapshot)
    requires WellObserved(output.snapshot)
    requires At(output.snapshot, start) == |w.events|
    ensures Lineal(Absorb(w, x, id, output), start)
  {
    var w' := Absorb(w, x, id, output);
    assert w'.events[..|w.events|] == w.events;
    assert LastSealed(w') == Seal(w, id, x, output);
    assert TakenAt(output.snapshot, w', start, |w.events|);
    assert w'.events[|w.events|..Folded(w')] == [];
    CoalescedAlready(output.snapshot);
  }

  lemma {:induction false} PassKeepsLineal(w: World, start: State, x: Context, id: nat, output: Output)
    requires Lineal(w, start) && w.snapshot.Some? && !output.changed && WellObserved(output.snapshot)
    requires Coalesced(LastSealed(w).snapshot, w.events[At(LastSealed(w).snapshot, start)..], output.snapshot)
    ensures Lineal(Absorb(w, x, id, output), start)
  {
    var w', p := Absorb(w, x, id, output), LastSealed(w).snapshot;
    assert w'.lineage == w.lineage;
    TakenStays(p, w, start, At(p, start), w');
    assert w'.events[At(p, start)..Folded(w')] == w.events[At(p, start)..];
  }

  /** The current snapshot, what it was last sealed as, and what was folded in between. */
  predicate Stretch(w: World, p: Snapshot, evs: seq<Event>, rest: seq<Event>) {
    w.snapshot.Some? && Coalesced(p, evs, w.snapshot.value) && rest == evs + w.pending
  }

  lemma {:induction false} SinceSealed(w: World, start: State)
    requires Chronicle(w, start) && Lineal(w, start) && w.snapshot.Some?
    ensures var p := LastSealed(w).snapshot; var m := At(p, start);
      && 0 <= m <= Folded(w) <= |w.events|
      && Stretch(w, p, w.events[m..Folded(w)], w.events[m..])
  {
    LinealParts(w, start);
    RestSplit(w, start, At(LastSealed(w).snapshot, start));
  }

  lemma {:induction false} LinealParts(w: World, start: State)
    requires Lineal(w, start) && w.snapshot.Some?
    ensures w.lineage != []
    ensures var p := LastSealed(w).snapshot; var m := At(p, start);
      0 <= m <= Folded(w) <= |w.events| && Coalesced(p, w.events[m..Folded(w)], w.snapshot.value)
  {
  }

  lemma {:induction false} PassCoalesces(w: World, x: Context, p: Snapshot, evs: seq<Event>, rest: seq<Event>)
    requires Stretch(w, p, evs, rest)
    requires Reduce(TickInput(w, x)).Ok? && !Reduce(TickInput(w, x)).output.changed
    ensures Coalesced(p, rest, Reduce(TickInput(w, x)).output.snapshot)
  {
    IneffectiveTickCoalesces(p, evs, w.snapshot.value, TickInput(w, x));
  }

  lemma {:induction false} AcceptorAt(w: World, start: State, s: Snapshot)
    requires Chronicle(w, start) && RestoredState(s) == w.acceptor
    ensures At(s, start) == |w.events|
  {
    TwoOrders(start, FactsOf(w.events));
  }

  lemma {:induction false} AbsorbKeepsLineal(w: World, start: State, x: Context, id: nat, output: Output)
    requires Chronicle(w, start) && Lineal(w, start)
    requires RestoredState(output.snapshot) == w.acceptor && ValidSnapshot(output.snapshot)
    requires WellObserved(output.snapshot)
    requires !output.changed ==> w.snapshot.Some?
    requires !output.changed ==>
      Coalesced(LastSealed(w).snapshot, w.events[At(LastSealed(w).snapshot, start)..], output.snapshot)
    ensures Lineal(Absorb(w, x, id, output), start)
  {
    AcceptorAt(w, start, output.snapshot);
    if output.changed { SealKeepsLineal(w, start, x, id, output); } else { PassKeepsLineal(w, start, x, id, output); }
  }

  lemma {:induction false} TickKeepsLineal(w: World, start: State, x: Context, id: nat)
    requires Inv(w, start) && Honest(w) && Lineal(w, start)
    ensures Lineal(Tick(w, x, id), start)
  {
    if Reduce(TickInput(w, x)).Ok? {
      TickReachesAcceptor(w, start, x);
      TickWellObserved(w, start, x);
      if !Reduce(TickInput(w, x)).output.changed {
        UnchangedShape(TickInput(w, x));
        SinceSealed(w, start);
        var m := At(LastSealed(w).snapshot, start);
        PassCoalesces(w, x, LastSealed(w).snapshot, w.events[m..Folded(w)], w.events[m..]);
      }
      AbsorbKeepsLineal(w, start, x, id, Reduce(TickInput(w, x)).output);
    }
  }

  lemma {:induction false} TickWellObserved(w: World, start: State, x: Context)
    requires Inv(w, start) && Honest(w) && Reduce(TickInput(w, x)).Ok?
    ensures WellObserved(Reduce(TickInput(w, x)).output.snapshot)
  {
    TickKeepsHonest(w, start, x, 0);
    var w' := Tick(w, x, 0);
    WitnessedIsWellObserved(w'.snapshot.value, w'.events[..Folded(w')]);
  }

  lemma {:induction false} RunKeepsLineal(boot: string, host: nat, fold: nat, ops: seq<Operation>)
    ensures Lineal(Execute(Fresh(boot, host, fold), ops), State(host, fold, map[]))
    decreases |ops|
  {
    if ops != [] {
      var start, most := State(host, fold, map[]), ops[..|ops| - 1];
      RunKeepsLineal(boot, host, fold, most);
      RunKeepsInv(boot, host, fold, most);
      RunKeepsHonest(boot, host, fold, most);
      var w := Execute(Fresh(boot, host, fold), most);
      match ops[|ops| - 1] {
        case PublishOp(fs, domain) => PublishKeepsLineal(w, start, fs, domain);
        case TickOp(x, id) => TickKeepsLineal(w, start, x, id);
      }
    }
  }

  // ----- The verdict on a sealed link -----

  /** The journals still hold, in order, everything the run decided in a stretch. */
  predicate Holds(facts: seq<Record>, es: seq<Event>, from: nat, to: nat)
    requires AllDecided(es)
  {
    Within(facts, from, to) == RecordsOf(es)
  }

  lemma {:induction false} ConclusionChange(t: Tables, x: Context, before: Option<Before>)
    requires AllKnown(t) && Conclude(t, x, before).Ok?
    ensures var o := Conclude(t, x, before).output;
      o.changed == (before.None? || before.value.seen != Project(o.snapshot))
  {
  }

  lemma {:induction false} ReductionChange(input: Input)
    requires Reduce(input).Ok?
    ensures var o := Reduce(input).output;
      o.changed == (input.prior.None? || Project(input.prior.value) != Project(o.snapshot))
  {
    ReducedShape(input);
    ConclusionChange(Fold(MarkedStart(input), input.events).value, input.context, View(input.prior));
  }

  /** Two reductions that agree on what is sealed agree on everything. */
  lemma {:induction false} SealedOutputsDecide(a: Input, b: Input)
    requires Reduce(a).Ok? && Reduce(b).Ok? && a.prior.Some? && b.prior.Some?
    requires Project(a.prior.value) == Project(b.prior.value)
    requires Reduce(a).output.snapshot == Reduce(b).output.snapshot
    requires Reduce(a).output.diff == Reduce(b).output.diff && Reduce(a).output.proposals == Reduce(b).output.proposals
    ensures Reduce(a) == Reduce(b)
  {
    ReductionChange(a);
    ReductionChange(b);
  }

  lemma {:induction false} ReplayIsReduce(p: Checkpoint, es: seq<Event>, st: State, x: Context)
    requires ValidState(RestoredState(p.snapshot)) && AllDecided(es)
    requires ReAccept(RestoredState(p.snapshot), p.consumedTo, RecordsOf(es)) == Progress(st, st.fold, es)
    ensures ReplayOnto(p, RecordsOf(es), true, x) == Concluded(Reduce(Input(Some(p.snapshot), 0, 0, es, x)))
  {
  }

  lemma {:induction false} ReproduceCompares(
    c: Checkpoint, p: Checkpoint, facts: seq<Record>, policies: seq<ComponentPolicy>, rs: seq<Record>)
    requires Within(facts, p.consumedTo, c.consumedTo) == rs && Continuous(rs, p.consumedTo)
    requires c.consumedTo == p.consumedTo + |rs|
    ensures Reproduce(c, p, facts, policies) == Compared(c, ReplayOnto(p, rs, true, RecordedContext(c, policies)))
  {
  }

  /** What replaying a retained stretch comes to: one reduction of it. */
  lemma {:induction false} ReproduceIsReduce(
    c: Checkpoint, p: Checkpoint, facts: seq<Record>, policies: seq<ComponentPolicy>, fs: seq<Fact>, es: seq<Event>)
    requires p.consumedTo == p.snapshot.fold && ValidState(RestoredState(p.snapshot)) && AllAdmissible(fs)
    requires c.consumedTo == p.consumedTo + |fs| && es == Run(RestoredState(p.snapshot), fs).1
    requires AllDecided(es) && Holds(facts, es, p.consumedTo, c.consumedTo)
    ensures Reproduce(c, p, facts, policies) ==
      Compared(c, Concluded(Reduce(Input(Some(p.snapshot), 0, 0, es, RecordedContext(c, policies)))))
  {
    var st := RestoredState(p.snapshot);
    TwoOrders(st, fs);
    ReAcceptsRun(st, fs);
    RecordsOfRun(st.host, st.fold, es, 0, |fs|);
    ReproduceCompares(c, p, facts, policies, RecordsOf(es));
    ReplayIsReduce(p, es, Run(st, fs).0, RecordedContext(c, policies));
  }

  /** The single reduction of a stretch fails at nothing the last reduction of it did not fail at. */
  lemma {:induction false} ReplayConcludes(p: Snapshot, evs: seq<Event>, s: Snapshot, live: Input, replay: Input)
    requires Coalesced(p, evs, s) && WellObserved(p) && WellObserved(s)
    requires live.prior == Some(s) && Reduce(live).Ok?
    requires replay == Input(Some(p), 0, 0, evs + live.events, live.context) && Bounded(replay.events)
    ensures Reduce(replay).Ok?
  {
    ReducedShape(live);
    PoliciesWereValid(live);
    ReplayIsValid(p, evs, s, live, replay);
    CoalescedFold(p, evs, s, live, replay);
    StartTablesStorable(replay);
    MarkStorable(StartTables(replay), Observed(StartTables(replay)));
    FoldStorable(MarkedStart(replay), replay.events);
    ConcludeSucceeds(Fold(MarkedStart(replay), replay.events).value, replay.context, View(replay.prior));
  }

  lemma {:induction false} PoliciesWereValid(input: Input)
    requires Reduce(input).Ok?
    ensures ValidPolicies(input.context.policies)
  {
  }

  /** Whether a link is derived again. */
  function VerdictIf(covered: bool): LinkStatus {
    if covered then Reproduced else Diverged
  }

  /** Sealing what the last reduction of a stretch concluded: the single reduction of the whole
      stretch concludes the same exactly when a wake it carried is covered and the refusals it left
      over are. */
  lemma {:induction false} ComparedExactly(
    c: Checkpoint, p: Snapshot, evs: seq<Event>, s: Snapshot, live: Input, replay: Input)
    requires Coalesced(p, evs, s) && WellObserved(p) && WellObserved(s)
    requires live.prior == Some(s) && Reduce(live).Ok?
    requires replay == Input(Some(p), 0, 0, evs + live.events, live.context)
    requires c.snapshot == Reduce(live).output.snapshot
    requires c.diff == Reduce(live).output.diff && c.proposals == Reduce(live).output.proposals
    requires Bounded(replay.events)
    ensures Compared(c, Concluded(Reduce(replay))) ==
      VerdictIf(WakeCovered(p, evs, live) && RefusalsCovered(p.conflicts, evs, live.events))
  {
    ReplayConcludes(p, evs, s, live, replay);
    CoalescedReductionExact(p, evs, s, live, replay);
    if Compared(c, Concluded(Reduce(replay))) == Reproduced { SealedOutputsDecide(replay, live); }
  }

  lemma {:induction false} AdmissibleSlices(es: seq<Event>, m: nat)
    requires AllAdmissible(FactsOf(es)) && m <= |es|
    ensures AllAdmissible(FactsOf(es[..m])) && AllAdmissible(FactsOf(es[m..]))
  {
    forall i | 0 <= i < m ensures Admissible(FactsOf(es[..m])[i]) { assert FactsOf(es)[i] == FactsOf(es[..m])[i]; }
    forall i | 0 <= i < |es| - m
      ensures Admissible(FactsOf(es[m..])[i])
    {
      assert FactsOf(es)[m + i] == FactsOf(es[m..])[i];
    }
  }

  /** What the run decided after a snapshot is what an acceptor restored from it decides. */
  lemma {:induction false} RestIsRun(w: World, start: State, st: State, m: nat)
    requires Chronicle(w, start) && m <= |w.events| && st == Run(start, FactsOf(w.events[..m])).0
    ensures Run(st, FactsOf(w.events[m..])).1 == w.events[m..]
  {
    FactsOfSlices(w.events, m);
    RunSplit(start, FactsOf(w.events), m);
  }

  /** Everything about a link that its replay depends on. */
  ghost predicate Replayable(p: Checkpoint, evs: seq<Event>, s: Snapshot, rest: seq<Event>) {
    && p.consumedTo == p.snapshot.fold && ValidState(RestoredState(p.snapshot))
    && AllDecided(rest) && AllAdmissible(FactsOf(rest)) && rest == Run(RestoredState(p.snapshot), FactsOf(rest)).1
    && Coalesced(p.snapshot, evs, s) && WellObserved(p.snapshot) && WellObserved(s) && Bounded(rest)
  }

  lemma {:induction false} SealedIsReplayable(w: World, start: State)
    requires Inv(w, start) && Lineal(w, start) && w.snapshot.Some?
    ensures var p := LastSealed(w); var m := p.consumedTo - start.fold;
      && 0 <= m <= Folded(w) <= |w.events|
      && Replayable(p, w.events[m..Folded(w)], w.snapshot.value, w.events[m..])
  {
    var p := LastSealed(w);
    var m := At(p.snapshot, start);
    AdmissibleSlices(w.events, m);
    RestIsRun(w, start, RestoredState(p.snapshot), m);
    EveryStateCanBeRestored(start, FactsOf(w.events[..m]));
    TwoOrders(RestoredState(p.snapshot), FactsOf(w.events[m..]));
    RunBounded(start, FactsOf(w.events));
    BoundedSuffix(w.events, m);
  }

  lemma {:induction false} SealedShape(w: World, x: Context, id: nat)
    requires Reduce(TickInput(w, x)).Ok? && Reduce(TickInput(w, x)).output.changed
    ensures var o := Reduce(TickInput(w, x)).output; var w' := Tick(w, x, id);
      && w'.lineage == w.lineage + [Seal(w, id, x, o)]
      && RecordedContext(Seal(w, id, x, o), x.policies) == TickInput(w, x).context
  {
    ReducedShape(TickInput(w, x));
  }

  /** The stretch a new link covers, from the link before it. */
  function LinkStart(w: World, fold: nat): int
    requires w.lineage != []
  {
    LastSealed(w).consumedTo - fold
  }

  /** `c` seals what the reduction `live` concluded. */
  predicate Seals(c: Checkpoint, live: Input) {
    && Reduce(live).Ok?
    && c.snapshot == Reduce(live).output.snapshot
    && c.diff == Reduce(live).output.diff && c.proposals == Reduce(live).output.proposals
    && RecordedContext(c, live.context.policies) == live.context
  }

  lemma {:induction false} VerdictExactly(
    c: Checkpoint, p: Checkpoint, evs: seq<Event>, s: Snapshot, live: Input, rest: seq<Event>, facts: seq<Record>)
    requires Replayable(p, evs, s, rest) && Seals(c, live) && live.prior == Some(s)
    requires rest == evs + live.events && c.consumedTo == p.consumedTo + |rest|
    requires Holds(facts, rest, p.consumedTo, c.consumedTo)
    ensures Reproduce(c, p, facts, live.context.policies) ==
      VerdictIf(WakeCovered(p.snapshot, evs, live) && RefusalsCovered(p.snapshot.conflicts, evs, live.events))
  {
    var replay := Input(Some(p.snapshot), 0, 0, rest, live.context);
    ReproduceIsReduce(c, p, facts, live.context.policies, FactsOf(rest), rest);
    ComparedExactly(c, p.snapshot, evs, s, live, replay);
  }

  lemma {:induction false} SealedReach(w: World, start: State, x: Context, id: nat)
    requires Inv(w, start) && Reduce(TickInput(w, x)).Ok? && Reduce(TickInput(w, x)).output.changed
    ensures var c := Seal(w, id, x, Reduce(TickInput(w, x)).output);
      && Tick(w, x, id).lineage == w.lineage + [c]
      && Seals(c, TickInput(w, x)) && c.consumedTo == start.fold + |w.events|
  {
    SealedShape(w, x, id);
    TickReachesAcceptor(w, start, x);
    AcceptorAt(w, start, Reduce(TickInput(w, x)).output.snapshot);
  }

  /** The journals still hold the fold range from the last link up to `to`. */
  predicate RangeHeld(w: World, fold: nat, facts: seq<Record>, to: nat) {
    && w.lineage != [] && 0 <= LinkStart(w, fold) <= |w.events|
    && AllDecided(w.events[LinkStart(w, fold)..])
    && Holds(facts, w.events[LinkStart(w, fold)..], LastSealed(w).consumedTo, to)
  }

  /** What decides whether a link can be derived again in one piece: everything observed and restated
      since the last link is restated within a tick that carries a wake, and refusals made again since
      the last link evicted them are covered. */
  predicate LinkCovered(w: World, fold: nat, x: Context) {
    && w.lineage != [] && Complete(LastSealed(w).snapshot)
    && 0 <= LinkStart(w, fold) <= Folded(w)
    && WakeCovered(LastSealed(w).snapshot, w.events[LinkStart(w, fold)..Folded(w)], TickInput(w, x))
    && RefusalsCovered(LastSealed(w).snapshot.conflicts, w.events[LinkStart(w, fold)..Folded(w)], w.pending)
  }

  lemma {:induction false} FidelityOf(
    w: World, fold: nat, x: Context, facts: seq<Record>, c: Checkpoint, m: nat, evs: seq<Event>, rest: seq<Event>)
    requires w.snapshot.Some? && w.lineage != [] && m == LinkStart(w, fold) && m <= Folded(w) <= |w.events|
    requires evs == w.events[m..Folded(w)] && rest == w.events[m..] && rest == evs + w.pending
    requires Replayable(LastSealed(w), evs, w.snapshot.value, rest)
    requires Holds(facts, rest, LastSealed(w).consumedTo, c.consumedTo)
    requires Seals(c, TickInput(w, x)) && c.consumedTo == LastSealed(w).consumedTo + |rest|
    ensures Reproduce(c, LastSealed(w), facts, x.policies) == VerdictIf(LinkCovered(w, fold, x))
  {
    VerdictExactly(c, LastSealed(w), evs, w.snapshot.value, TickInput(w, x), rest, facts);
  }

  lemma {:induction false} RestSplit(w: World, start: State, m: nat)
    requires Chronicle(w, start) && m <= Folded(w)
    ensures w.events[m..] == w.events[m..Folded(w)] + w.pending
  {
  }

  lemma {:induction false} FidelityAt(w: World, start: State, x: Context, id: nat, facts: seq<Record>, c: Checkpoint)
    requires Inv(w, start) && Lineal(w, start) && w.lineage != [] && RangeHeld(w, start.fold, facts, c.consumedTo)
    requires Seals(c, TickInput(w, x)) && c.consumedTo == start.fold + |w.events|
    ensures Reproduce(c, LastSealed(w), facts, x.policies) == VerdictIf(LinkCovered(w, start.fold, x))
  {
    var m := LinkStart(w, start.fold);
    SealedIsReplayable(w, start);
    RestSplit(w, start, m);
    FidelityOf(w, start.fold, x, facts, c, m, w.events[m..Folded(w)], w.events[m..]);
  }

  /** Replay fidelity.  Take any run and any effective tick that continues its lineage.  If the
      journals still hold the link's fold range, verification reports the new link reproduced - same
      snapshot, same diff, same proposals - if it is covered and diverged if it is not, however many
      ineffective ticks lie between parent and child. */
  lemma {:induction false} RunFidelity(
    boot: string, host: nat, fold: nat, ops: seq<Operation>, x: Context, id: nat, facts: seq<Record>)
    requires var w := Execute(Fresh(boot, host, fold), ops); var w' := Tick(w, x, id);
      && |w'.lineage| > |w.lineage|
      && RangeHeld(w, fold, facts, LastSealed(w').consumedTo)
    ensures var w := Execute(Fresh(boot, host, fold), ops); var w' := Tick(w, x, id);
      Reproduce(LastSealed(w'), LastSealed(w), facts, x.policies) == VerdictIf(LinkCovered(w, fold, x))
  {
    var w, start := Execute(Fresh(boot, host, fold), ops), State(host, fold, map[]);
    RunKeepsInv(boot, host, fold, ops);
    RunKeepsLineal(boot, host, fold, ops);
    SealedReach(w, start, x, id);
    FidelityAt(w, start, x, id, facts, LastSealed(Tick(w, x, id)));
  }

  /** Without a wake, in the boot of the sealed parent and with no refusal evicted there, a link is
      always covered. */
  lemma {:induction false} QuietAt(w: World, start: State, x: Context)
    requires Lineal(w, start) && w.lineage != []
    requires x.wake.None? && LastSealed(w).snapshot.boot == w.boot && !LastSealed(w).snapshot.summary.conflictOverflow
    ensures LinkCovered(w, start.fold, x)
  {
    var p, m := LastSealed(w).snapshot, LinkStart(w, start.fold);
    NothingEvictedNothingDiffers(p, w.events[m..Folded(w)], w.snapshot.value, w.pending);
  }
}

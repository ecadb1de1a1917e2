/** One concrete run in which a wake makes a sealed link underivable: the condition of replay
    fidelity is not vacuous. */
module SleepingRun {
  import opened Facts
  import opened Acceptance
  import opened History
  import opened AcceptorTheorems
  import opened AcceptorResults
  import opened Reducer
  import opened Comparison
  import opened Reduction
  import opened ReductionTheorems
  import opened ReductionResults
  import opened RuntimeModel
  import opened RuntimeTheorems
  import opened RuntimeResults
  import opened Readiness
  import opened ReplayModel
  import opened ReplayTheorems
  import opened ReplayResults
  import opened JournalOrder

  /** The resolver's owner restating the same answer under its `q`-th sequence. */
  function Say(q: nat): Fact {
    Fact(Root, Dns, RootDns, "b", q, 1, 100, Ready, "ok", true, DnsPayload(1, 0), q)
  }

  function Clock(tick: int, wake: Option<int>): Context {
    Context("b", tick, wake, Policy(false, false, false, 0, 0, 0, ""), [])
  }

  // ----- Two decisions -----

  function Position(q: nat): SourceState {
    SourceState("b", q, if q == 1 then [Remembered(1, 1)] else [Remembered(1, 1), Remembered(2, 2)], [], false, {}, 0)
  }

  function Said(q: nat): Event {
    Event(Say(q), Decided(Accepted, NoReason, Authoritative, q, q, q, None, [], Position(q)))
  }

  function Known(q: nat): State {
    if q == 0 then State(0, 0, map[]) else State(q, q, map[RootDns := Position(q)])
  }

  lemma {:induction false} Decisions(q: nat)
    requires q == 1 || q == 2
    ensures Step(Known(q - 1), Say(q), Root) == (Known(q), Said(q).decision)
  {
    if q == 1 {
      assert [] + [Remembered(1, 1)] == [Remembered(1, 1)];
      assert Admit(FirstContact("b"), Say(1)).after == Position(1);
    } else {
      assert [Remembered(1, 1)] + [Remembered(2, 2)] == [Remembered(1, 1), Remembered(2, 2)];
      assert Admit(Position(1), Say(2)).after == Position(2);
      assert Known(1).sources[RootDns := Position(2)] == Known(2).sources;
    }
  }

  // ----- Three reductions -----

  function Evidenced(q: nat, rebaseline: bool): Evidence {
    Evidence(RootDns, Root, Ready, "ok", Some(DnsPayload(1, 0)), "b", 1, 100, q, true, rebaseline, map[])
  }

  function Tabled(q: nat, rebaseline: bool): (t: Tables)
    ensures AllKnown(t)
  {
    if q == 0 then EmptyTables(0, 0)
    else Tables(EmptyTables(0, 0).components[Dns := Evidenced(q, rebaseline)],
                map[RootDns := Watermark(Root, Authoritative, Position(q))], map[], q, q)
  }

  lemma {:induction false} FoldsOne(q: nat)
    requires q == 1 || q == 2
    ensures Fold(Tabled(q - 1, false), [Said(q)]) == Some(Tabled(q, false))
  {
    var t, e := Tabled(q - 1, false), Said(q);
    assert [e][..0] == [];
    assert Heard(t.components[Dns], e) == Evidenced(q, false);
    assert Retire(t.conflicts, RootDns, Dns) == map[];
    assert t.components[Dns := Evidenced(q, false)] == Tabled(q, false).components;
    assert Adopt(t.sources, e) == Tabled(q, false).sources;
  }

  lemma {:induction false} OnlyDnsObserved()
    ensures Mark(Tabled(2, false), Observed(Tabled(2, false))) == Tabled(2, true)
  {
    var t := Tabled(2, false);
    assert Observed(t) == {Dns};
    assert forall c: Component :: Mark(t, {Dns}).components[c] == Tabled(2, true).components[c];
    assert Mark(t, {Dns}).components == Tabled(2, true).components;
  }

  /** The snapshot after `q` answers, at a given tick. */
  predicate Shows(s: Snapshot, q: nat, rebaseline: bool, x: Context) {
    s == SnapshotOf(Tabled(q, rebaseline), x, Unauthorized(PolicyAbsent), s.generation)
  }

  lemma {:induction false} ReductionShows(input: Input, q: nat, rebaseline: bool, x: Context)
    requires Reduce(input).Ok? && ValidInput(input) && input.context == x && x.policy == Clock(1, None).policy
    requires Fold(MarkedStart(input), input.events) == Some(Tabled(q, rebaseline))
    ensures Shows(Reduce(input).output.snapshot, q, rebaseline, x)
  {
    ReducedShape(input);
  }

  lemma {:induction false} ShownTables(s: Snapshot, q: nat, x: Context)
    requires Shows(s, q, false, x)
    ensures TablesOf(s) == Tabled(q, false)
  {
    RenderedTables(Tabled(q, false), x, Unauthorized(PolicyAbsent), s.generation);
    assert Retain(map[]) == map[];
  }

  /** What a reader sees of a component, whichever answer was the last. */
  function Seen(c: Component): SemanticComponent {
    if c.Dns? then SemanticComponent(StateReady, Ready, "ok", Some(DnsPayload(1, 0)), true, false, 0, map[])
    else SemanticComponent(StateUnknown, Unknown, "none", None, false, false, 0, map[])
  }

  lemma {:induction false} SeenAlike(q: nat, tick: int, c: Component)
    requires (q == 1 || q == 2) && tick <= 100
    ensures var t := Tabled(q, false);
      ProjectComponent(RenderRecord(t.components[c], t.sources, "b", tick)) == Seen(c)
  {
    var t := Tabled(q, false);
    assert t.components[c].corroborations == map[];
    if c.Dns? { assert t.components[c] == Evidenced(q, false); } else { assert t.components[c] == Unobserved(c); }
  }

  lemma {:induction false} SeenBoth(a: Snapshot, q: nat, x: Context, c: Component)
    requires (q == 1 || q == 2) && x.tick <= 100 && x.boot == "b" && Shows(a, q, false, x)
    ensures Complete(a) && ProjectComponent(a.components[c]) == Seen(c)
  {
    var t := Tabled(q, false);
    assert a.components == RenderComponents(t, "b", x.tick);
    assert a.components[c] == RenderRecord(t.components[c], t.sources, "b", x.tick);
    SeenAlike(q, x.tick, c);
  }

  predicate SameIntegrity(a: map<SourceId, Watermark>, b: map<SourceId, Watermark>) {
    && a.Keys == b.Keys
    && (forall id :: id in a ==> a[id].state.gaps == b[id].state.gaps && a[id].state.overflow == b[id].state.overflow)
    && (forall id :: id in a ==>
      a[id].state.pending == b[id].state.pending && a[id].state.conflicts == b[id].state.conflicts)
  }

  /** A summary depends on component states and stream integrity only. */
  lemma {:induction false} SameSummary(
    ra: map<Component, ComponentRecord>, rb: map<Component, ComponentRecord>,
    sa: map<SourceId, Watermark>, sb: map<SourceId, Watermark>, auth: Authorization, over: bool)
    requires (forall c: Component :: c in ra && c in rb && ra[c].state == rb[c].state) && SameIntegrity(sa, sb)
    ensures Summarize(ra, sa, auth, over) == Summarize(rb, sb, auth, over)
  {
    SameCounts(ra, rb);
    SameStreams(sa, sb);
  }

  lemma {:induction false} SameCounts(ra: map<Component, ComponentRecord>, rb: map<Component, ComponentRecord>)
    requires forall c: Component :: c in ra && c in rb && ra[c].state == rb[c].state
    ensures forall s: ComponentState :: InState(ra, s) == InState(rb, s)
    ensures (map s: ComponentState :: |InState(ra, s)|) == (map s: ComponentState :: |InState(rb, s)|)
  {
    forall s: ComponentState ensures InState(ra, s) == InState(rb, s) {}
  }

  lemma {:induction false} SameStreams(sa: map<SourceId, Watermark>, sb: map<SourceId, Watermark>)
    requires SameIntegrity(sa, sb)
    ensures OpenGaps(sa) == OpenGaps(sb) && Conflicted(sa) == Conflicted(sb) && Awaiting(sa) == Awaiting(sb)
    ensures Overflowed(sa) == Overflowed(sb)
  {
    assert OpenGaps(sa) == OpenGaps(sb);
    assert Conflicted(sa) == Conflicted(sb);
    assert Awaiting(sa) == Awaiting(sb);
  }

  lemma {:induction false} ShownSummary(s: Snapshot, q: nat, x: Context)
    requires Shows(s, q, false, x)
    ensures s.summary == Summarize(s.components, s.sources, Unauthorized(PolicyAbsent), false) && s.conflicts == map[]
    ensures s.boot == x.boot && s.policy == x.policy && s.authorization == Unauthorized(PolicyAbsent)
    ensures s.sources == Tabled(q, false).sources
  {
    assert Tabled(q, false).conflicts == map[];
    assert Retain(map[]) == map[];
  }

  lemma {:induction false} SameShownSummary(a: Snapshot, b: Snapshot)
    requires Shows(a, 1, false, Clock(1, None)) && Shows(b, 2, false, Clock(2, None))
    ensures a.summary == b.summary
  {
    ShownSummary(a, 1, Clock(1, None));
    ShownSummary(b, 2, Clock(2, None));
    SameComponents(a, b);
    assert forall c: Component :: ProjectComponent(a.components[c]).state == ProjectComponent(b.components[c]).state;
    SameSummary(a.components, b.components, a.sources, b.sources, Unauthorized(PolicyAbsent), false);
  }

  lemma {:induction false} SameProjection(a: Snapshot, b: Snapshot)
    requires Complete(a) && Complete(b) && forall c: Component ::
      ProjectComponent(a.components[c]) == ProjectComponent(b.components[c])
    requires SameIntegrity(a.sources, b.sources) && forall id :: id in a.sources ==>
      a.sources[id].state.boot == b.sources[id].state.boot
    requires a.boot == b.boot && a.policy == b.policy && a.authorization == b.authorization
    requires a.conflicts == b.conflicts && a.summary == b.summary
    ensures Project(a) == Project(b)
  {
    assert Project(a).components == Project(b).components;
    assert Project(a).sources == Project(b).sources;
  }

  /** Hearing the same answer again is no change. */
  lemma {:induction false} SameToAReader(a: Snapshot, b: Snapshot)
    requires Shows(a, 1, false, Clock(1, None)) && Shows(b, 2, false, Clock(2, None))
    ensures Project(a) == Project(b)
  {
    SameShownSummary(a, b);
    ShownSummary(a, 1, Clock(1, None));
    ShownSummary(b, 2, Clock(2, None));
    SameComponents(a, b);
    SameProjection(a, b);
  }

  lemma {:induction false} SameComponents(a: Snapshot, b: Snapshot)
    requires Shows(a, 1, false, Clock(1, None)) && Shows(b, 2, false, Clock(2, None))
    ensures Complete(a) && Complete(b)
    ensures forall c: Component :: ProjectComponent(a.components[c]) == ProjectComponent(b.components[c])
  {
    forall c: Component
      ensures Complete(a) && Complete(b) && ProjectComponent(a.components[c]) == ProjectComponent(b.components[c]) {
      SeenBoth(a, 1, Clock(1, None), c);
      SeenBoth(b, 2, Clock(2, None), c);
    }
  }

  lemma {:induction false} WakeIsAChange(a: Snapshot, b: Snapshot, wake: Option<int>)
    requires Shows(a, 2, false, Clock(2, None)) && Shows(b, 2, true, Clock(3, wake))
    ensures Project(a) != Project(b)
  {
    assert Project(a).components[Dns].rebaseline != Project(b).components[Dns].rebaseline;
  }

  // ----- The run -----

  function After(ops: seq<Operation>): World {
    Execute(Fresh("b", 0, 0), ops)
  }

  lemma {:induction false} AfterSnoc(ops: seq<Operation>, op: Operation)
    ensures After(ops + [op]) == Perform(After(ops), op)
  {
    assert (ops + [op])[..|ops + [op]| - 1] == ops;
  }

  lemma {:induction false} TickGoes(ops: seq<Operation>, x: Context)
    ensures Reduce(TickInput(After(ops), x)).Ok? <==> GoodTick(After(ops), x)
  {
    RunKeepsInv("b", 0, 0, ops);
    TickSucceeds(After(ops), State(0, 0, map[]), x);
  }

  lemma {:induction false} PublishOne(w: World, f: Fact, domain: Domain)
    ensures Publish(w, [f], domain) == Offer(w, f, domain)
  {
    assert [f][..0] == [];
  }

  /** What the runtime has heard and what it has not folded. */
  predicate Stage(w: World, heard: nat, pending: seq<Event>, events: seq<Event>) {
    && w.boot == "b" && w.acceptor == Known(heard) && w.pending == pending && w.events == events
  }

  predicate ShowsNow(w: World, q: nat, x: Context) {
    w.snapshot.Some? && Shows(w.snapshot.value, q, false, x)
  }

  /** The first answer is sealed. */
  predicate SealedFirst(w: World) {
    |w.lineage| == 1 && LastSealed(w).consumedTo == 1 && Shows(LastSealed(w).snapshot, 1, false, Clock(1, None))
  }

  lemma {:induction false} OfferFirst()
    ensures var w := Publish(Fresh("b", 0, 0), [Say(1)], Root);
      && Stage(w, 1, [Said(1)], [Said(1)]) && w.snapshot.None? && w.lineage == [] && w.accepted == 0 && w.consumed == 0
  {
    PublishOne(Fresh("b", 0, 0), Say(1), Root);
    Decisions(1);
  }

  lemma {:induction false} FirstReduction(w: World)
    requires Stage(w, 1, [Said(1)], [Said(1)]) && w.snapshot.None? && w.lineage == [] && w.accepted == 0
    requires w.consumed == 0
    requires Reduce(TickInput(w, Clock(1, None))).Ok?
    ensures var o := Reduce(TickInput(w, Clock(1, None))).output;
      Shows(o.snapshot, 1, false, Clock(1, None)) && o.changed
  {
    var input := TickInput(w, Clock(1, None));
    ReducedShape(input);
    FoldsOne(1);
    ReductionShows(input, 1, false, Clock(1, None));
    ReductionChange(input);
  }

  lemma {:induction false} FirstTick(ops: seq<Operation>)
    requires var w := After(ops);
      Stage(w, 1, [Said(1)], [Said(1)]) && w.snapshot.None? && w.lineage == [] && w.accepted == 0 && w.consumed == 0
    ensures var w := Tick(After(ops), Clock(1, None), 1);
      Stage(w, 1, [], [Said(1)]) && ShowsNow(w, 1, Clock(1, None)) && SealedFirst(w)
  {
    TickGoes(ops, Clock(1, None));
    FirstReduction(After(ops));
  }

  lemma {:induction false} OfferSecond(w: World)
    requires Stage(w, 1, [], [Said(1)])
    ensures var w' := Publish(w, [Say(2)], Root);
      Stage(w', 2, [Said(2)], [Said(1), Said(2)]) && w'.snapshot == w.snapshot && w'.lineage == w.lineage
  {
    PublishOne(w, Say(2), Root);
    Decisions(2);
  }

  lemma {:induction false} SecondReduction(input: Input, s: Snapshot)
    requires input.prior == Some(s) && Shows(s, 1, false, Clock(1, None)) && input.events == [Said(2)]
    requires input.context == Clock(2, None)
    requires Reduce(input).Ok?
    ensures var o := Reduce(input).output; Shows(o.snapshot, 2, false, Clock(2, None)) && !o.changed
  {
    ReducedShape(input);
    ShownTables(s, 1, Clock(1, None));
    FoldsOne(2);
    ReductionShows(input, 2, false, Clock(2, None));
    ReductionChange(input);
    SameToAReader(s, Reduce(input).output.snapshot);
  }

  lemma {:induction false} SecondTick(ops: seq<Operation>)
    requires Stage(After(ops), 2, [Said(2)], [Said(1), Said(2)]) && ShowsNow(After(ops), 1, Clock(1, None))
    ensures var w := Tick(After(ops), Clock(2, None), 2);
      Stage(w, 2, [], [Said(1), Said(2)]) && ShowsNow(w, 2, Clock(2, None)) && w.lineage == After(ops).lineage
  {
    var w := After(ops);
    assert w.snapshot.value.tick == 1;
    TickGoes(ops, Clock(2, None));
    SecondReduction(TickInput(w, Clock(2, None)), w.snapshot.value);
    assert w.lineage + [] == w.lineage;
  }

  lemma {:induction false} ThirdReduction(input: Input, s: Snapshot)
    requires input.prior == Some(s) && Shows(s, 2, false, Clock(2, None)) && input.events == []
    requires input.context == Clock(3, Some(1))
    requires Reduce(input).Ok?
    ensures Reduce(input).output.changed
  {
    ReducedShape(input);
    ShownTables(s, 2, Clock(2, None));
    OnlyDnsObserved();
    ReductionShows(input, 2, true, Clock(3, Some(1)));
    ReductionChange(input);
    WakeIsAChange(s, Reduce(input).output.snapshot, Some(1));
  }

  lemma {:induction false} NotCovered(p: Snapshot, input: Input)
    requires Complete(p) && TablesOf(p) == Tabled(1, false) && input.context == Clock(3, Some(1)) && input.events == []
    ensures !WakeCovered(p, [Said(2)], input)
  {
    assert [Said(2)][..0] == [];
    assert Dns in Baselined([Said(2)]);
    assert Dns in Observed(TablesOf(p));
    assert Dns in Observed(TablesOf(p)) * Baselined([Said(2)]);
  }

  lemma {:induction false} LinkNotCovered(w: World)
    requires Stage(w, 2, [], [Said(1), Said(2)]) && w.lineage != [] && LastSealed(w).consumedTo == 1
    requires Complete(LastSealed(w).snapshot) && TablesOf(LastSealed(w).snapshot) == Tabled(1, false)
    ensures !LinkCovered(w, 0, Clock(3, Some(1)))
  {
    assert w.events[1..2] == [Said(2)];
    NotCovered(LastSealed(w).snapshot, TickInput(w, Clock(3, Some(1))));
  }

  /** A run whose next effective tick seals a link its own journals do not derive. */
  predicate Underivable(ops: seq<Operation>, x: Context, id: nat) {
    var w := After(ops); var w' := Tick(w, x, id);
    && w.lineage != [] && |w'.lineage| > |w.lineage|
    && Reproduce(LastSealed(w'), LastSealed(w), Merge(ByFold, w'.root + w'.user), x.policies) != Reproduced
  }

  lemma {:induction false} WakeSeals(ops: seq<Operation>)
    requires ShowsNow(After(ops), 2, Clock(2, None)) && Stage(After(ops), 2, [], [Said(1), Said(2)])
    ensures |Tick(After(ops), Clock(3, Some(1)), 3).lineage| > |After(ops).lineage|
  {
    var w, x := After(ops), Clock(3, Some(1));
    assert w.snapshot.value.tick == 2;
    TickGoes(ops, x);
    ThirdReduction(TickInput(w, x), w.snapshot.value);
  }

  lemma {:induction false} WakeIsUnderivable(ops: seq<Operation>)
    requires ShowsNow(After(ops), 2, Clock(2, None)) && Stage(After(ops), 2, [], [Said(1), Said(2)])
    requires SealedFirst(After(ops))
    ensures Underivable(ops, Clock(3, Some(1)), 3)
  {
    var w, x := After(ops), Clock(3, Some(1));
    WakeSeals(ops);
    ShownTables(LastSealed(w).snapshot, 1, Clock(1, None));
    LinkNotCovered(w);
    JournalsDeriveEveryLink("b", 0, 0, ops, x, 3, []);
    assert Execute(Tick(w, x, 3), []) == Tick(w, x, 3);
  }

  lemma {:induction false} ThroughFirstAnswer() returns (ops: seq<Operation>)
    ensures var w := After(ops);
      Stage(w, 1, [Said(1)], [Said(1)]) && w.snapshot.None? && w.lineage == [] && w.accepted == 0 && w.consumed == 0
  {
    ops := [] + [PublishOp([Say(1)], Root)];
    AfterSnoc([], PublishOp([Say(1)], Root));
    OfferFirst();
  }

  lemma {:induction false} ThroughFirstTick() returns (ops: seq<Operation>)
    ensures var w := After(ops);
      Stage(w, 1, [], [Said(1)]) && ShowsNow(w, 1, Clock(1, None)) && SealedFirst(w)
  {
    var before := ThroughFirstAnswer();
    FirstTick(before);
    AfterSnoc(before, TickOp(Clock(1, None), 1));
    ops := before + [TickOp(Clock(1, None), 1)];
  }

  lemma {:induction false} ThroughSecondAnswer() returns (ops: seq<Operation>)
    ensures var w := After(ops);
      Stage(w, 2, [Said(2)], [Said(1), Said(2)]) && ShowsNow(w, 1, Clock(1, None)) && SealedFirst(w)
  {
    var before := ThroughFirstTick();
    OfferSecond(After(before));
    AfterSnoc(before, PublishOp([Say(2)], Root));
    ops := before + [PublishOp([Say(2)], Root)];
  }

  lemma {:induction false} ThroughSecondTick() returns (ops: seq<Operation>)
    ensures ShowsNow(After(ops), 2, Clock(2, None)) && Stage(After(ops), 2, [], [Said(1), Said(2)])
    ensures SealedFirst(After(ops))
  {
    var before := ThroughSecondAnswer();
    SecondTick(before);
    AfterSnoc(before, TickOp(Clock(2, None), 2));
    ops := before + [TickOp(Clock(2, None), 2)];
  }

  /** The resolver answers, answers the same again, and the host sleeps and wakes: the second answer
      fell into a tick that changed nothing, so the wake's link cannot be derived in one piece. */
  lemma {:induction false} WakeDefeatsReplay() returns (ops: seq<Operation>, x: Context, id: nat)
    ensures Underivable(ops, x, id)
  {
    ops := ThroughSecondTick();
    x, id := Clock(3, Some(1)), 3;
    WakeIsUnderivable(ops);
  }
}

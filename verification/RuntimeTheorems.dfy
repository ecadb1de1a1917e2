/** What every restart-free run of the runtime keeps. */
module RuntimeTheorems {
  import opened Facts
  import opened Acceptance
  import opened History
  import opened AcceptorTheorems
  import opened AcceptorResults
  import opened Reducer
  import opened Comparison
  import opened Reduction
  import opened ReductionTheorems
  import opened ReductionResults
  import opened RuntimeModel

  function FactsOf(es: seq<Event>): seq<Fact> {
    seq(|es|, i requires 0 <= i < |es| => es[i].fact)
  }

  // ----- The fold follows the acceptor -----

  /** Folded tables hold the acceptor's own position and source states. */
  predicate Follows(t: Tables, st: State) {
    AllKnown(t) && t.host == st.host && t.fold == st.fold && States(t.sources) == st.sources
  }

  lemma {:induction false} AdoptedStates(sources: map<SourceId, Watermark>, e: Event)
    requires e.decision.Decided?
    ensures States(Adopt(sources, e)) == States(sources)[e.fact.source := e.decision.source]
  {
  }

  lemma {:induction false} ApplyFollowsStep(t: Tables, st: State, f: Fact)
    requires Follows(t, st) && Admissible(f)
    ensures var (st', d) := Step(st, f, f.domain);
      NextInOrder(t, Event(f, d)) && Follows(Apply(t, Event(f, d)), st')
  {
    var (st', d) := Step(st, f, f.domain);
    var e := Event(f, d);
    AdoptedStates(t.sources, e);
    if d.outcome.Duplicate? || d.outcome.Stale? {
      assert st.sources[f.source := st.sources[f.source]] == st.sources;
    }
  }

  /** Decisions always continue both orders, and adopting them rebuilds the acceptor exactly. */
  lemma {:induction false} FoldFollowsRun(t: Tables, st: State, fs: seq<Fact>)
    requires Follows(t, st) && AllAdmissible(fs)
    ensures Fold(t, Run(st, fs).1).Some? && Follows(Fold(t, Run(st, fs).1).value, Run(st, fs).0)
    decreases |fs|
  {
    if fs != [] {
      var most, f := fs[..|fs| - 1], fs[|fs| - 1];
      FoldFollowsRun(t, st, most);
      var (mid, es) := Run(st, most);
      ApplyFollowsStep(Fold(t, es).value, mid, f);
      var d := Step(mid, f, f.domain).1;
      assert Run(st, fs).1[..|fs| - 1] == es && Run(st, fs).1[|fs| - 1] == Event(f, d);
    }
  }

  lemma {:induction false} RunBounded(start: State, fs: seq<Fact>)
    requires start.sources == map[] && AllAdmissible(fs)
    ensures Bounded(Run(start, fs).1)
    decreases |fs|
  {
    if fs != [] {
      RunBounded(start, fs[..|fs| - 1]);
      EveryStateCanBeRestored(start, fs);
      var (st, es) := Run(start, fs[..|fs| - 1]);
      DecisionShowsSource(st, fs[|fs| - 1]);
      assert Run(start, fs).1 == es + [Event(fs[|fs| - 1], Step(st, fs[|fs| - 1], fs[|fs| - 1].domain).1)];
    }
  }

  /** A decision carries the source's state as it stands after the decision. */
  lemma {:induction false} DecisionShowsSource(st: State, f: Fact)
    requires Admissible(f)
    ensures var (st', d) := Step(st, f, f.domain);
      d.Decided? && f.source in st'.sources && d.source == st'.sources[f.source]
  {
  }

  // ----- The invariant of a run -----

  function Folded(w: World): int {
    |w.events| - |w.pending|
  }

  /** The acceptor's state when the current snapshot was taken. */
  function BoundaryState(w: World, start: State): State
    requires 0 <= Folded(w)
  {
    Run(start, FactsOf(w.events[..Folded(w)])).0
  }

  /** Every decision ever made, in order, from an acceptor that knew no source. */
  predicate Chronicle(w: World, start: State) {
    && start.sources == map[]
    && Decided(start, w.events, w.acceptor)
    && 0 <= Folded(w)
    && w.pending == w.events[Folded(w)..]
  }

  /** The snapshot and the two watermarks are those of the decisions folded so far. */
  predicate AtBoundary(w: World, st: State) {
    && w.accepted == st.host && w.consumed == st.fold
    && (w.snapshot.None? ==> Folded(w) == 0)
    && (w.snapshot.Some? ==>
        && RestoredState(w.snapshot.value) == st
        && ValidSnapshot(w.snapshot.value))
  }

  predicate Inv(w: World, start: State) {
    Chronicle(w, start) && AtBoundary(w, BoundaryState(w, start))
  }

  lemma {:induction false} FactsOfRun(start: State, fs: seq<Fact>)
    ensures FactsOf(Run(start, fs).1) == fs
  {
  }

  /** The pending events are what the acceptor decided from the boundary on. */
  lemma {:induction false} PendingIsRun(w: World, start: State)
    requires Chronicle(w, start)
    ensures Run(BoundaryState(w, start), FactsOf(w.pending)) == (w.acceptor, w.pending)
    ensures AllAdmissible(FactsOf(w.pending))
    ensures Run(start, FactsOf(w.events[..Folded(w)])).1 == w.events[..Folded(w)]
  {
    var n := Folded(w);
    FactsOfSlices(w.events, n);
    RunSplit(start, FactsOf(w.events), n);
  }

  lemma {:induction false} FactsOfSlices(es: seq<Event>, n: nat)
    requires n <= |es|
    ensures FactsOf(es[..n]) == FactsOf(es)[..n] && FactsOf(es[n..]) == FactsOf(es)[n..]
  {
  }

  lemma {:induction false} RunSplit(start: State, fs: seq<Fact>, n: nat)
    requires n <= |fs|
    ensures var (mid, es) := Run(start, fs[..n]);
      es == Run(start, fs).1[..n] && Run(mid, fs[n..]) == (Run(start, fs).0, Run(start, fs).1[n..])
  {
    assert fs == fs[..n] + fs[n..];
    RunConcat(start, fs[..n], fs[n..]);
  }

  /** The acceptor reached `st` from `start` by deciding exactly `es`. */
  predicate Decided(start: State, es: seq<Event>, st: State) {
    AllAdmissible(FactsOf(es)) && Run(start, FactsOf(es)) == (st, es)
  }

  lemma {:induction false} DecidedSnoc(start: State, es: seq<Event>, st: State, after: State, e: Event)
    requires Decided(start, es, st) && Admissible(e.fact) && Step(st, e.fact, e.fact.domain) == (after, e.decision)
    ensures Decided(start, es + [e], after)
  {
    FactsOfSnoc(es, e);
    RunSnoc(start, FactsOf(es), e.fact);
    AdmissibleSnoc(FactsOf(es), e.fact);
  }

  lemma {:induction false} JournalledKeepsChronicle(w: World, start: State, st: State, e: Event)
    requires Chronicle(w, start) && e.decision.Decided? && Admissible(e.fact)
    requires Step(w.acceptor, e.fact, e.fact.domain) == (st, e.decision)
    ensures Chronicle(Journalled(w.(acceptor := st), e), start)
  {
    DecidedSnoc(start, w.events, w.acceptor, st, e);
    JournalledFields(w.(acceptor := st), e);
    SuffixSnoc(w.events, e, Folded(w));
  }

  lemma {:induction false} JournalledFields(w: World, e: Event)
    requires e.decision.Decided?
    ensures var w' := Journalled(w, e);
      w'.events == w.events + [e] && w'.pending == w.pending + [e] && w'.acceptor == w.acceptor &&
        Folded(w') == Folded(w)
  {
  }

  lemma {:induction false} SuffixSnoc(es: seq<Event>, e: Event, n: nat)
    requires n <= |es|
    ensures (es + [e])[n..] == es[n..] + [e]
  {
  }

  lemma {:induction false} OfferKeepsChronicle(w: World, start: State, f: Fact, domain: Domain)
    requires Chronicle(w, start)
    ensures Chronicle(Offer(w, f, domain), start)
  {
    RejectedChangesNothing(w.acceptor, f, domain);
    var (st, d) := Step(w.acceptor, f, domain);
    if !d.Rejected? { JournalledKeepsChronicle(w, start, st, Event(f, d)); }
  }

  lemma {:induction false} OfferFolds(w: World, f: Fact, domain: Domain)
    requires 0 <= Folded(w)
    ensures var w' := Offer(w, f, domain);
      && Folded(w') == Folded(w) && |w.events| <= |w'.events| && w'.events[..Folded(w)] == w.events[..Folded(w)]
      && w'.snapshot == w.snapshot && w'.accepted == w.accepted && w'.consumed == w.consumed && w'.boot == w.boot
  {
  }

  lemma {:induction false} FactsOfSnoc(es: seq<Event>, e: Event)
    ensures FactsOf(es + [e]) == FactsOf(es) + [e.fact]
  {
  }

  lemma {:induction false} RunSnoc(start: State, fs: seq<Fact>, f: Fact)
    ensures var (st, es) := Run(start, fs); var (st', d) := Step(st, f, f.domain);
      Run(start, fs + [f]) == (st', es + [Event(f, d)])
  {
    assert (fs + [f])[..|fs + [f]| - 1] == fs;
  }

  lemma {:induction false} AdmissibleSnoc(fs: seq<Fact>, f: Fact)
    requires AllAdmissible(fs) && Admissible(f)
    ensures AllAdmissible(fs + [f])
  {
  }

  lemma {:induction false} OfferKeepsInv(w: World, start: State, f: Fact, domain: Domain)
    requires Inv(w, start)
    ensures Inv(Offer(w, f, domain), start)
  {
    OfferKeepsChronicle(w, start, f, domain);
    OfferFolds(w, f, domain);
  }

  lemma {:induction false} PublishKeepsInv(w: World, start: State, fs: seq<Fact>, domain: Domain)
    requires Inv(w, start)
    ensures Inv(Publish(w, fs, domain), start)
    decreases |fs|
  {
    if fs != [] {
      PublishKeepsInv(w, start, fs[..|fs| - 1], domain);
      OfferKeepsInv(Publish(w, fs[..|fs| - 1], domain), start, fs[|fs| - 1], domain);
    }
  }

  // ----- Ticks -----

  lemma {:induction false} StartFollows(w: World, start: State, x: Context)
    requires Inv(w, start) && ValidInput(TickInput(w, x))
    ensures Follows(MarkedStart(TickInput(w, x)), BoundaryState(w, start))
  {
    var t := StartTables(TickInput(w, x));
    if w.snapshot.None? {
      assert FactsOf(w.events[..Folded(w)]) == [];
      assert States(t.sources) == map[];
    }
  }

  /** Whatever was published, the next reduction finds it in order and ends exactly where the
      acceptor stands. */
  lemma {:induction false} TickFolds(w: World, start: State, x: Context)
    requires Inv(w, start) && ValidInput(TickInput(w, x))
    ensures var folded := Fold(MarkedStart(TickInput(w, x)), w.pending);
      folded.Some? && Follows(folded.value, w.acceptor)
  {
    StartFollows(w, start, x);
    PendingIsRun(w, start);
    FoldFollowsRun(MarkedStart(TickInput(w, x)), BoundaryState(w, start), FactsOf(w.pending));
  }

  lemma {:induction false} AbsorbKeepsInv(w: World, start: State, x: Context, id: nat, output: Output)
    requires Chronicle(w, start)
    requires RestoredState(output.snapshot) == w.acceptor && ValidSnapshot(output.snapshot)
    ensures Inv(Absorb(w, x, id, output), start)
  {
    var w' := Absorb(w, x, id, output);
    assert w'.events[..Folded(w')] == w.events;
    assert w'.events[Folded(w')..] == [];
  }

  /** What a successful tick produces is where the acceptor stands. */
  lemma {:induction false} TickReachesAcceptor(w: World, start: State, x: Context)
    requires Inv(w, start) && Reduce(TickInput(w, x)).Ok?
    ensures var s := Reduce(TickInput(w, x)).output.snapshot;
      RestoredState(s) == w.acceptor && ValidSnapshot(s) && s.boot == w.boot
  {
    ReducedShape(TickInput(w, x));
    TickFolds(w, start, x);
  }

  lemma {:induction false} TickKeepsInv(w: World, start: State, x: Context, id: nat)
    requires Inv(w, start)
    ensures Inv(Tick(w, x, id), start)
  {
    if Reduce(TickInput(w, x)).Ok? {
      TickReachesAcceptor(w, start, x);
      AbsorbKeepsInv(w, start, x, id, Reduce(TickInput(w, x)).output);
    }
  }

  /** Every run keeps the invariant. */
  lemma {:induction false} RunKeepsInv(boot: string, host: nat, fold: nat, ops: seq<Operation>)
    ensures Inv(Execute(Fresh(boot, host, fold), ops), State(host, fold, map[]))
    decreases |ops|
  {
    var start := State(host, fold, map[]);
    if ops == [] {
      assert FactsOf([]) == [];
    } else {
      RunKeepsInv(boot, host, fold, ops[..|ops| - 1]);
      var w := Execute(Fresh(boot, host, fold), ops[..|ops| - 1]);
      match ops[|ops| - 1] {
        case PublishOp(fs, domain) => PublishKeepsInv(w, start, fs, domain);
        case TickOp(x, id) => TickKeepsInv(w, start, x, id);
      }
    }
  }
}

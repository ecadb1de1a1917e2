/** Replay fidelity: what the runtime seals, its own journals derive again. */
module ReplayTheorems {
  import opened Facts
  import opened Acceptance
  import opened History
  import opened AcceptorTheorems
  import opened AcceptorResults
  import opened Reducer
  import opened Comparison
  import opened Reduction
  import opened ReductionTheorems
  import opened ReductionResults
  import opened RuntimeModel
  import opened RuntimeTheorems
  import opened Readiness
  import opened ReplayModel

  function RecordsOf(es: seq<Event>): seq<Record>
    requires AllDecided(es)
  {
    seq(|es|, i requires 0 <= i < |es| => RecordOf(es[i]))
  }

  // ----- Re-acceptance repeats the run -----

  predicate AllDecided(es: seq<Event>) {
    forall i :: 0 <= i < |es| ==> es[i].decision.Decided?
  }

  lemma {:induction false} RecordsOfSnoc(es: seq<Event>, e: Event)
    requires AllDecided(es) && e.decision.Decided?
    ensures RecordsOf(es + [e]) == RecordsOf(es) + [RecordOf(e)]
  {
  }

  lemma {:induction false} ReAcceptSnoc(st: State, from: nat, rs: seq<Record>, r: Record)
    ensures ReAccept(st, from, rs + [r]) == ReAcceptOne(ReAccept(st, from, rs), from, r)
  {
    assert (rs + [r])[..|rs + [r]| - 1] == rs;
  }

  /** Replaying what a run journalled repeats its decisions exactly. */
  lemma {:induction false} ReAcceptsRun(st: State, fs: seq<Fact>)
    requires AllAdmissible(fs)
    ensures var (st', es) := Run(st, fs);
      && AllDecided(es)
      && st'.fold == st.fold + |fs|
      && ReAccept(st, st.fold, RecordsOf(es)) == Progress(st', st'.fold, es)
    decreases |fs|
  {
    if fs != [] {
      var most, f := fs[..|fs| - 1], fs[|fs| - 1];
      ReAcceptsRun(st, most);
      var (mid, es) := Run(st, most);
      ReAcceptsStep(mid, f, st.fold, es);
      var e := Event(f, Step(mid, f, f.domain).1);
      RecordsOfSnoc(es, e);
      ReAcceptSnoc(st, st.fold, RecordsOf(es), RecordOf(e));
    }
  }

  lemma {:induction false} ReAcceptsStep(mid: State, f: Fact, from: nat, es: seq<Event>)
    requires Admissible(f) && mid.fold >= from
    ensures var (last, d) := Step(mid, f, f.domain);
      && d.Decided? && last.fold == mid.fold + 1
      && ReAcceptOne(Progress(mid, mid.fold, es), from, RecordOf(Event(f, d))) ==
        Progress(last, mid.fold + 1, es + [Event(f, d)])
  {
  }

  // ----- The records of a stretch -----

  lemma {:induction false} WithinEmpty(rs: seq<Record>, from: nat, to: nat)
    requires forall i :: 0 <= i < |rs| ==> rs[i].fold <= from
    ensures Within(rs, from, to) == []
  {
    if rs != [] { WithinEmpty(rs[..|rs| - 1], from, to); }
  }

  /** Out of consecutive records, a range keeps exactly its own stretch. */
  lemma {:induction false} WithinStretch(rs: seq<Record>, fold: nat, a: nat, b: nat)
    requires Continuous(rs, fold) && a <= b
    ensures Within(rs, fold + a, fold + b) == if a >= |rs| then [] else if b >= |rs| then rs[a..] else rs[a..b]
  {
    if a >= |rs| {
      WithinEmpty(rs, fold + a, fold + b);
    } else {
      WithinStretch(rs[..|rs| - 1], fold, a, b);
    }
  }

  lemma {:induction false} RecordsOfRun(host: nat, fold: nat, es: seq<Event>, a: nat, b: nat)
    requires InOrder(host, fold, es) && a <= b <= |es|
    ensures Continuous(RecordsOf(es), fold) && RecordsOf(es)[a..b] == RecordsOf(es[a..b])
  {
  }

  // ----- The lineage -----

  /** The position in the run at which a snapshot was taken. */
  function At(s: Snapshot, start: State): int {
    s.fold - start.fold
  }

  /** A snapshot of the run, taken after its first `m` decisions. */
  ghost predicate TakenAt(s: Snapshot, w: World, start: State, m: int) {
    && 0 <= m <= |w.events|
    && m == At(s, start)
    && ValidSnapshot(s) && WellObserved(s)
    && RestoredState(s) == Run(start, FactsOf(w.events[..m])).0
  }

  function LastSealed(w: World): Checkpoint
    requires w.lineage != []
  {
    w.lineage[|w.lineage| - 1]
  }

  ghost predicate Lineal(w: World, start: State) {
    && 0 <= Folded(w)
    && (w.snapshot.None? ==> w.lineage == [])
    && (w.snapshot.Some? ==>
        && w.lineage != []
        && LastSealed(w).consumedTo == LastSealed(w).snapshot.fold
        && TakenAt(LastSealed(w).snapshot, w, start, At(LastSealed(w).snapshot, start))
        && WellObserved(w.snapshot.value)
        && At(LastSealed(w).snapshot, start) <= Folded(w)
        && Coalesced(LastSealed(w).snapshot, w.events[At(LastSealed(w).snapshot, start)..Folded(w)], w.snapshot.value))
  }

  lemma {:induction false} WitnessedIsWellObserved(s: Snapshot, es: seq<Event>)
    requires Witnessed(s, es)
    ensures WellObserved(s)
  {
    forall c: Component ensures s.components[c].evidence.host > 0 <==> s.components[c].evidence.payload.Some? {
      assert EvidenceAgrees(s.components[c].evidence, LastOwned(es, c));
    }
  }

  lemma {:induction false} TakenStays(s: Snapshot, w: World, start: State, m: int, w': World)
    requires TakenAt(s, w, start, m) && |w.events| <= |w'.events| && w'.events[..m] == w.events[..m]
    ensures TakenAt(s, w', start, m)
  {
  }

  lemma {:induction false} PublishKeepsLineal(w: World, start: State, fs: seq<Fact>, domain: Domain)
    requires Lineal(w, start)
    ensures Lineal(Publish(w, fs, domain), start)
  {
    PublishFolds(w, fs, domain);
    if w.snapshot.Some? {
      var w', p := Publish(w, fs, domain), LastSealed(w).snapshot;
      var m := At(p, start);
      assert w'.events[..m] == w'.events[..Folded(w)][..m] == w.events[..Folded(w)][..m] == w.events[..m];
      assert w'.events[m..Folded(w)] == w'.events[..Folded(w)][m..] == w.events[m..Folded(w)];
      TakenStays(p, w, start, m, w');
    }
  }
}

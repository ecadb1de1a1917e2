/** One concrete run after which a restart does not resume where the run stopped: a fact that came late
    is counted twice. */
module LateRun {
  import opened Facts
  import opened Acceptance
  import opened History
  import opened AcceptorResults
  import opened Reducer
  import opened Reduction
  import opened RuntimeModel
  import opened RuntimeTheorems
  import opened ReplayModel
  import opened ReplayTheorems
  import opened ReplayResults
  import opened JournalOrder
  import opened Restart
  import opened SleepingRun

  /** The resolver's third answer arrives before its second, and neither has been folded. */
  lemma {:induction false} LateDecisions()
    ensures var (live, d) := Step(Known(1), Say(3), Root); var (end, e) := Step(live, Say(2), Root);
      && d.Decided? && d.outcome.Accepted? && d.host == 2 && d.fold == 2
      && e.Decided? && !e.outcome.Accepted? && e.host == 0 && e.fold == 3 && end.host == 2
  {
    LateCountsTwice(Known(1), Say(3), Say(2));
  }

  /** Published past the checkpoint: one accepted record, then one refused. */
  predicate OneLate(w: World, ahead: Event, late: Event) {
    && w.events == [Said(1), ahead, late] && ahead.fact == Say(3) && late.fact == Say(2) && w.acceptor.host == 2
    && ahead.decision.Decided? && late.decision.Decided? && ahead.decision.host == 2 && late.decision.host == 0
    && w.lineage != [] && LastSealed(w).consumedTo == 1 && RestoredState(LastSealed(w).snapshot) == Known(1)
  }

  lemma {:induction false} PublishBoth(w: World, f: Fact, g: Fact)
    ensures Publish(w, [f, g], Root) == Offer(Offer(w, f, Root), g, Root)
  {
    assert [f, g][..1] == [f] && [f][..0] == [];
    assert Publish(w, [f], Root) == Offer(w, f, Root);
  }

  lemma {:induction false} SealedIsKnown(s: Snapshot)
    requires Shows(s, 1, false, Clock(1, None))
    ensures RestoredState(s) == Known(1)
  {
    ShownTables(s, 1, Clock(1, None));
    assert s.sources == TablesOf(s).sources && s.host == TablesOf(s).host && s.fold == TablesOf(s).fold;
    assert States(s.sources) == Known(1).sources;
  }

  lemma {:induction false} PublishTwo(w: World, f: Fact, g: Fact, live: State, d: Decision, end: State, e: Decision)
    requires Step(w.acceptor, f, Root) == (live, d) && d.Decided? && Step(live, g, Root) == (end, e) && e.Decided?
    ensures var v := Publish(w, [f, g], Root);
      v.events == w.events + [Event(f, d)] + [Event(g, e)] && v.acceptor == end && v.lineage == w.lineage
  {
    PublishBoth(w, f, g);
  }

  lemma {:induction false} OfferLate(w: World)
    requires Stage(w, 1, [], [Said(1)]) && SealedFirst(w)
    ensures exists ahead, late :: OneLate(Publish(w, [Say(3), Say(2)], Root), ahead, late)
  {
    LateDecisions();
    SealedIsKnown(LastSealed(w).snapshot);
    var (live, d) := Step(Known(1), Say(3), Root);
    var (end, e) := Step(live, Say(2), Root);
    PublishTwo(w, Say(3), Say(2), live, d, end, e);
    IsOneLate(w, Publish(w, [Say(3), Say(2)], Root), Event(Say(3), d), Event(Say(2), e));
  }

  lemma {:induction false} IsOneLate(w: World, v: World, ahead: Event, late: Event)
    requires w.events == [Said(1)] && v.events == w.events + [ahead] + [late] && v.lineage == w.lineage
    requires v.acceptor.host == 2
    requires ahead.fact == Say(3) && late.fact == Say(2) && ahead.decision.Decided? && late.decision.Decided?
    requires ahead.decision.host == 2 && late.decision.host == 0
    requires SealedFirst(w) && RestoredState(LastSealed(w).snapshot) == Known(1)
    ensures OneLate(v, ahead, late)
  {
  }

  lemma {:induction false} OnlySort(a: Record, b: Record, rs: seq<Record>)
    requires a.host > b.host && SortedBy(ByHost, rs) && multiset(rs) == multiset([a, b])
    ensures rs == [b, a]
  {
    assert [b, a][..1] == [b];
    assert StrictlyBy(ByHost, [b, a]);
    assert multiset([b, a]) == multiset([a, b]);
    OneOrder(ByHost, [b, a], rs);
  }

  lemma {:induction false} ResumeTwo(st: State, a: Record, b: Record, mid: State, end: State)
    requires Step(st, a.fact, a.fact.domain).0 == mid && Step(st, a.fact, a.fact.domain).1.Decided?
    requires Step(mid, b.fact, b.fact.domain).0 == end && Step(mid, b.fact, b.fact.domain).1.Decided?
    ensures Resumed(st, [a, b]).Some? && Resumed(st, [a, b]).value.0 == end
  {
    assert [a, b][..1] == [a] && [a][..0] == [];
    assert Resumed(st, [a]).Some? && Resumed(st, [a]).value.0 == mid;
  }

  /** The restarted acceptor accepts both. */
  lemma {:induction false} ResumesTwice(a: Record, b: Record)
    requires a.fact == Say(3) && b.fact == Say(2)
    ensures Resumed(Known(1), [b, a]).Some? && Resumed(Known(1), [b, a]).value.0.host == 3
  {
    LateCountsTwice(Known(1), Say(3), Say(2));
    var mid := Step(Known(1), Say(2), Root).0;
    ResumeTwo(Known(1), b, a, mid, Step(mid, Say(3), Root).0);
  }

  /** However the retained records are sorted, the restart counts one fact too many. */
  predicate CountsTooMany(w: World, rs: seq<Record>)
    requires w.lineage != []
  {
    var resumed := Resumed(RestoredState(LastSealed(w).snapshot), rs);
    resumed.Some? && resumed.value.0.host == w.acceptor.host + 1
  }

  lemma {:induction false} LateSort(ops: seq<Operation>, ahead: Event, late: Event, rs: seq<Record>)
    requires OneLate(After(ops), ahead, late) && HostSorted(rs, After(ops), 1)
    ensures CountsTooMany(After(ops), rs)
  {
    var w := After(ops);
    RestartPermutes("b", 0, 0, ops, 1, 1, rs);
    assert w.events[1..] == [ahead, late];
    assert RecordsOf([ahead, late]) == [RecordOf(ahead), RecordOf(late)];
    OnlySort(RecordOf(ahead), RecordOf(late), rs);
    ResumesTwice(RecordOf(ahead), RecordOf(late));
  }

  /** A run with a sealed checkpoint, an answer ahead of its turn and the late one: restarting it, by any
      sort of its journals, ends one host sequence above where it stopped. */
  lemma {:induction false} LateArrivalChangesRestart() returns (ops: seq<Operation>)
    ensures var w := After(ops);
      && w.lineage != []
      && (exists rs :: HostSorted(rs, w, LastSealed(w).consumedTo))
      && (forall rs :: HostSorted(rs, w, LastSealed(w).consumedTo) ==> CountsTooMany(w, rs))
  {
    var before := ThroughFirstTick();
    OfferLate(After(before));
    var op := PublishOp([Say(3), Say(2)], Root);
    AfterSnoc(before, op);
    ops := before + [op];
    var w := After(ops);
    var ahead, late :| OneLate(w, ahead, late);
    SomeSort(w, 1);
    forall rs | HostSorted(rs, w, 1) ensures CountsTooMany(w, rs) { LateSort(ops, ahead, late, rs); }
  }

  lemma {:induction false} SomeSort(w: World, from: nat)
    ensures exists rs :: HostSorted(rs, w, from)
  {
    var held := Beyond(w.root, from) + Beyond(w.user, from);
    MergeSorts(ByHost, held);
    assert HostSorted(Merge(ByHost, held), w, from);
  }
}

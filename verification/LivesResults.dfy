/** What holds in every life of the runtime, and exactly when the rest does. */
module LivesResults {
  import opened Facts
  import opened Acceptance
  import opened History
  import opened AcceptorTheorems
  import opened AcceptorResults
  import opened Reducer
  import opened Comparison
  import opened Reduction
  import opened ReductionTheorems
  import opened ReductionResults
  import opened RuntimeModel
  import opened RuntimeTheorems
  import opened RuntimeResults
  import opened Readiness
  import opened ReplayModel
  import opened ReplayTheorems
  import opened ReplayResults
  import opened JournalModel
  import opened Restart
  import opened Issued
  import opened Lives
  import opened LivesTheorems

  // ----- Starting again -----

  /** What a start from a checkpoint is given: the records past it, sorted, and where they are. */
  predicate Offered(l: Life, from: nat, rs: seq<Record>, ps: seq<Place>) {
    && from < |l.shelf| && l.shelf[from].world.lineage != []
    && HostSorted(rs, l.now.world, LastSealed(l.shelf[from].world).consumedTo) && HeldAt(l.now.world, rs, ps)
  }

  /** Starting from a visible checkpoint is never refused and shows its snapshot; and unless an append
      was lost, a start - from any checkpoint or from nothing - continues at the very fold position the
      last life had reached, whatever the sort made of the records. */
  lemma {:induction false} StartContinues(
    l: Life, boot: string, from: nat, accepts: bool, rs: seq<Record>, ps: seq<Place>, m: Life)
    requires Sound(l) && Offered(l, from, rs, ps) && m == Restarted(l, boot, Some(from), accepts, rs, ps)
    ensures var v, c := m.now.world, LastSealed(l.shelf[from].world);
      && v.boot == boot && v.snapshot == Some(c.snapshot) && v.lineage == l.shelf[from].world.lineage
      && FactsOf(v.pending) == FactsIn(rs) && v.root == l.now.world.root && v.user == l.now.world.user
    ensures l.intact ==> m.now.world.acceptor.fold == l.now.world.acceptor.fold
    ensures l.intact ==> FromNothing(l, boot, accepts).now.world.acceptor.fold == l.now.world.acceptor.fold
  {
    var s, w := l.shelf[from], l.now.world;
    StartIsNeverRefused(l, s, rs);
    RestartedShape(l, boot, Some(from), accepts, rs, ps, s);
    FactsOfRun(s.world.acceptor, FactsIn(rs));
    if l.intact {
      StartedIntact(l, s, boot, rs, ps);
      IssuedIsReached(w.root, w.user, w.acceptor.fold);
    }
  }

  /** Some journal holds a record above this position, which the acceptor will come to hand out again. */
  ghost predicate HeldAbove(root: seq<Record>, user: seq<Record>, fold: nat) {
    exists r :: (r in root || r in user) && r.fold > fold
  }

  /** As far past a position as the journals hold records past it. */
  function Reach(w: World, from: nat): nat {
    from + |Beyond(w.root, from)| + |Beyond(w.user, from)|
  }

  /** A start from a checkpoint ends where re-accepting one record after the other takes it. */
  lemma {:induction false} StartReaches(
    l: Life, boot: string, from: nat, accepts: bool, rs: seq<Record>, ps: seq<Place>, c: nat, v: World)
    requires Sound(l) && Offered(l, from, rs, ps) && c == LastSealed(l.shelf[from].world).consumedTo
    requires v == Restarted(l, boot, Some(from), accepts, rs, ps).now.world
    ensures v.root == l.now.world.root && v.user == l.now.world.user && v.acceptor.fold == Reach(l.now.world, c)
  {
    var s := l.shelf[from];
    StartIsNeverRefused(l, s, rs);
    RestartedShape(l, boot, Some(from), accepts, rs, ps, s);
    StartedPosition(s, l.all, l.now.world, boot, rs, ps);
  }

  lemma {:induction false} SameAbove(v: World, w: World, fold: nat)
    requires v.root == w.root && v.user == w.user && v.acceptor.fold == fold
    ensures HeldAbove(v.root, v.user, v.acceptor.fold) <==> HeldAbove(w.root, w.user, fold)
  {
  }

  /** Positions come again after a start from a checkpoint exactly when a record is held further past it
      than there are records past it. */
  lemma {:induction false} PositionsComeAgainExactly(
    l: Life, boot: string, from: nat, accepts: bool, rs: seq<Record>, ps: seq<Place>, c: nat, v: World)
    requires Sound(l) && Offered(l, from, rs, ps) && c == LastSealed(l.shelf[from].world).consumedTo
    requires v == Restarted(l, boot, Some(from), accepts, rs, ps).now.world
    ensures HeldAbove(v.root, v.user, v.acceptor.fold) <==>
      HeldAbove(l.now.world.root, l.now.world.user, Reach(l.now.world, c))
  {
    StartReaches(l, boot, from, accepts, rs, ps, c, v);
    SameAbove(v, l.now.world, Reach(l.now.world, c));
  }

  /** In a life that lost no append none ever does, however often it starts again. */
  lemma {:induction false} IntactNeverIssuesAgain(boot: string, acts: seq<Act>)
    requires Lived(boot, acts).intact
    ensures var v := Running(Lived(boot, acts)); !HeldAbove(v.root, v.user, v.acceptor.fold)
  {
    EveryLifeIsSound(boot, acts);
  }

  predicate WroteOne(v: World, w: World, r: Record) {
    (v.root == w.root + [r] && v.user == w.user) || (v.root == w.root && v.user == w.user + [r])
  }

  lemma {:induction false} OfferWrites(w: World, g: Fact)
    requires Admissible(g)
    ensures var v := Publish(w, [g], g.domain); var d := Step(w.acceptor, g, g.domain).1;
      d.Decided? && d.fold == w.acceptor.fold + 1 && WroteOne(v, w, RecordOf(Event(g, d)))
  {
    RejectedChangesNothing(w.acceptor, g, g.domain);
    DecisionCounts(w.acceptor, g);
    assert [g][..0] == [];
    assert Publish(w, [g], g.domain) == Offer(w, g, g.domain);
  }

  lemma {:induction false} LostMoves(l: Life, f: Fact)
    requires l.drift.None? && Admissible(f)
    ensures var st := Step(l.now.world.acceptor, f, f.domain).0;
      st.fold == l.now.world.acceptor.fold + 1 &&
        Lost(l, f, f.domain) == l.(drift := Some(Drift(st, [])), intact := false)
  {
    RejectedChangesNothing(l.now.world.acceptor, f, f.domain);
    DecisionCounts(l.now.world.acceptor, f);
  }

  /** What publishing one fact past a lost one writes: a record one position further. */
  lemma {:induction false} WrittenPastLost(l: Life, f: Fact, g: Fact) returns (r: Record)
    requires l.drift.None? && Admissible(f) && Admissible(g)
    ensures var m := Published(Lost(l, f, f.domain), [g], g.domain);
      && m.shelf == l.shelf && WroteOne(m.now.world, l.now.world, r) && r.fold == l.now.world.acceptor.fold + 2
  {
    LostMoves(l, f);
    var st := Step(l.now.world.acceptor, f, f.domain).0;
    OfferWrites(l.now.world.(acceptor := st, pending := []), g);
    r := RecordOf(Event(g, Step(st, g, g.domain).1));
  }

  lemma {:induction false} TallyWithOne(w: World, v: World, from: nat, r: Record)
    requires JournalsFit(w.root, w.user, w.acceptor.fold) && from <= w.acceptor.fold && r.fold > from
    requires WroteOne(v, w, r)
    ensures |Beyond(v.root, from)| + |Beyond(v.user, from)| == w.acceptor.fold - from + 1
    ensures r in v.root || r in v.user
  {
    BeyondSnoc(w.root, r, from);
    BeyondSnoc(w.user, r, from);
    assert |Beyond(w.root, from)| + |Beyond(w.user, from)| == w.acceptor.fold - from;
  }

  /** A lost append is not healed by starting again: one fact published past it, and the start hands that
      fact's position out a second time. */
  lemma {:induction false} LostPositionComesAgain(
    l: Life, f: Fact, g: Fact, n: Life, boot: string, from: nat, accepts: bool, rs: seq<Record>, ps: seq<Place>,
      m: Life)
    requires Sound(l) && l.intact && Admissible(f) && Admissible(g)
    requires n == Published(Lost(l, f, f.domain), [g], g.domain)
    requires Offered(n, from, rs, ps) && m == Restarted(n, boot, Some(from), accepts, rs, ps)
    ensures var v := m.now.world; HeldAbove(v.root, v.user, v.acceptor.fold)
  {
    LostKeepsSound(l, f, f.domain);
    PublishKeepsSound(Lost(l, f, f.domain), [g], g.domain);
    var r := WrittenPastLost(l, f, g);
    var c := LastSealed(n.shelf[from].world).consumedTo;
    StartReaches(n, boot, from, accepts, rs, ps, c, m.now.world);
    SealBelow(l, from, c);
    TallyWithOne(l.now.world, n.now.world, c, r);
  }

  lemma {:induction false} SealBelow(l: Life, from: nat, c: nat)
    requires Sound(l) && l.intact && from < |l.shelf| && l.shelf[from].world.lineage != []
    requires c == LastSealed(l.shelf[from].world).consumedTo
    ensures c <= l.now.world.acceptor.fold && JournalsFit(l.now.world.root, l.now.world.user, l.now.world.acceptor.fold)
  {
    assert Shelved(l.shelf[from], l.all);
    SealRestores(l.shelf[from], l.all);
    assert l.shelf[from].world.acceptor.fold <= l.now.world.acceptor.fold;
  }

  // ----- Reductions -----

  lemma {:induction false} OutOfOrderFails(t: Tables, es: seq<Event>)
    requires AllKnown(t) && es != [] && !NextInOrder(t, es[0])
    ensures Fold(t, es).None?
  {
    if |es| == 1 {
      assert es[..0] == [];
    } else {
      OutOfOrderFails(t, es[..|es| - 1]);
    }
  }

  lemma {:induction false} DriftFails(l: Life, x: Context)
    requires Sound(l) && Adrift(l)
    ensures Reduce(TickInput(Running(l), x)).Err?
  {
    var input, w, d := TickInput(Running(l), x), l.now.world, l.drift.value;
    if ValidInput(input) {
      PendingBounded(w, l.now.start);
      assert ValidInput(TickInput(w, x));
      assert MarkedStart(input) == MarkedStart(TickInput(w, x));
      TickFolds(w, l.now.start, x);
      FoldConcat(MarkedStart(input), w.pending, d.pending);
      OutOfOrderFails(Fold(MarkedStart(input), w.pending).value, d.pending);
    }
  }

  /** In any life, the first tick after a start included, a tick succeeds exactly when its time context
      and policy are well formed and nothing was decided past a decision that was lost. */
  lemma {:induction false} TickSucceedsExactly(boot: string, acts: seq<Act>, x: Context)
    ensures var l := Lived(boot, acts); Reduce(TickInput(Running(l), x)).Ok? <==> GoodTick(Running(l), x) && !Adrift(l)
  {
    var l := Lived(boot, acts);
    EveryLifeIsSound(boot, acts);
    if Adrift(l) {
      DriftFails(l, x);
    } else {
      TickSucceeds(l.now.world, l.now.start, x);
      assert l.now.world.pending + [] == l.now.world.pending;
      assert TickInput(Running(l), x) == TickInput(l.now.world, x);
    }
  }

  // ----- What a snapshot restores -----

  /** In any life the acceptor rebuilt from the snapshot is the live one exactly when nothing waits to be
      folded and no decision was lost since the start; and then it decides everything later alike. */
  lemma {:induction false} RestoredEqualsLive(boot: string, acts: seq<Act>, later: seq<Fact>)
    requires Running(Lived(boot, acts)).snapshot.Some?
    ensures var l := Lived(boot, acts); var v := Running(l); var restored := RestoredState(v.snapshot.value);
      && ValidState(restored)
      && (restored == v.acceptor <==> v.pending == [] && l.drift.None?)
      && (v.pending == [] && l.drift.None? ==> Run(restored, later) == Run(v.acceptor, later))
  {
    var l := Lived(boot, acts);
    EveryLifeIsSound(boot, acts);
    RestoresBoundary(l.now.world, l.now.start);
  }

  /** A snapshot restores a valid acceptor, as many positions back as decisions wait. */
  lemma {:induction false} RestoresBoundary(w: World, start: State)
    requires Inv(w, start) && w.snapshot.Some?
    ensures var restored := RestoredState(w.snapshot.value);
      && ValidState(restored) && restored.fold + |w.pending| == w.acceptor.fold
      && (w.pending == [] ==> restored == w.acceptor)
  {
    var es := w.events[..Folded(w)];
    PendingIsRun(w, start);
    AdmissibleSlices(w.events, Folded(w));
    EveryStateCanBeRestored(start, FactsOf(es));
    TwoOrders(BoundaryState(w, start), FactsOf(w.pending));
    if w.pending == [] { RestoredIsLive(w, start, []); }
  }

  /** The input that shows it: a lost append at a tick boundary, after which nothing is pending and the
      acceptor is no longer the one the snapshot restores. */
  lemma {:induction false} LostAppendIsNotRestored(l: Life, f: Fact, m: Life)
    requires Sound(l) && l.drift.None? && l.now.world.pending == [] && l.now.world.snapshot.Some? && Admissible(f)
    requires m == Lost(l, f, f.domain)
    ensures Running(m).pending == [] && RestoredState(Running(m).snapshot.value) != Running(m).acceptor
  {
    LostMoves(l, f);
    RestoresBoundary(l.now.world, l.now.start);
  }

  lemma {:induction false} DriftLeavesGap(l: Life)
    requires Sound(l) && l.drift.Some?
    ensures !GapFree(Running(l), l.now.start)
  {
    var w, v, d := l.now.world, Running(l), l.drift.value;
    OrdersAreGapFree(w, l.now.start);
    if d.pending == [] {
      assert v.events == w.events;
    } else {
      assert v.events[|w.events|] == d.pending[0] && v.events[..|w.events|] == w.events;
    }
  }

  /** Everything the runtime decided and still holds, waiting or folded, is without gaps in both orders
      exactly when no decision was lost since the start. */
  lemma {:induction false} LivesAreGapFree(boot: string, acts: seq<Act>)
    ensures var l := Lived(boot, acts); GapFree(Running(l), l.now.start) <==> l.drift.None?
  {
    var l := Lived(boot, acts);
    EveryLifeIsSound(boot, acts);
    if l.drift.None? { OrdersAreGapFree(l.now.world, l.now.start); } else { DriftLeavesGap(l); }
  }

  // ----- Replay -----

  /** Only a change moves the generation, and only by one. */
  lemma {:induction false} GenerationCounts(input: Input)
    requires Reduce(input).Ok? && input.prior.Some?
    ensures var o := Reduce(input).output;
      o.snapshot.generation == input.prior.value.generation + if o.changed then 1 else 0
  {
  }

  /** The generation is the sealed one's, or past it once a change could not be stored. */
  predicate Counts(w: World, lineal: bool) {
    w.lineage != [] ==>
      && w.snapshot.Some? && w.snapshot.value.generation >= LastSealed(w).snapshot.generation
      && (!lineal ==> w.snapshot.value.generation > LastSealed(w).snapshot.generation)
  }

  predicate Counted(l: Life) {
    Counts(l.now.world, l.lineal)
  }

  lemma {:induction false} KeptCounts(l: Life, x: Context, id: nat, output: Output, m: Life)
    requires m == Kept(l, x, id, output)
    ensures Counted(m)
  {
    assert LastSealed(m.now.world) == Seal(l.now.world, id, x, output.(changed := true));
  }

  lemma {:induction false} NotKeptCounts(l: Life, x: Context, id: nat, output: Output, visible: bool, m: Life)
    requires Counted(l) && Reduce(TickInput(l.now.world, x)) == Ok(output) && m == NotKept(l, x, id, output, visible)
    ensures Counted(m)
  {
    assert m.now.world.lineage == l.now.world.lineage;
    if l.now.world.lineage != [] { GenerationCounts(TickInput(l.now.world, x)); }
  }

  lemma {:induction false} AbsorbedCounts(l: Life, x: Context, id: nat, output: Output, keeping: Keeping, m: Life)
    requires Counted(l) && Reduce(TickInput(l.now.world, x)) == Ok(output) && m == Absorbed(l, x, id, output, keeping)
    ensures Counted(m)
  {
    var offered := output.changed && l.accepting;
    if offered && keeping.Stored? {
      KeptCounts(l, x, id, output, m);
    } else {
      NotKeptCounts(l, x, id, output, offered && keeping.Visible?, m);
    }
  }

  lemma {:induction false} PublishCounts(l: Life, fs: seq<Fact>, domain: Domain)
    requires 0 <= Folded(l.now.world) && Counted(l)
    ensures Counted(Published(l, fs, domain))
  {
    if l.drift.None? { PublishFolds(l.now.world, fs, domain); }
  }

  /** A start that goes through shows a checkpoint's snapshot and lineage, or nothing. */
  lemma {:induction false} RestartShows(
    l: Life, boot: string, from: Option<nat>, accepts: bool, rs: seq<Record>, ps: seq<Place>, m: Life)
    requires m == Restarted(l, boot, from, accepts, rs, ps) && m != l && m.now.world.lineage != []
    ensures from.Some? && from.value < |l.shelf| && m.lineal
    ensures m.now.world.lineage == l.shelf[from.value].world.lineage
    ensures m.now.world.snapshot == l.shelf[from.value].world.snapshot
  {
  }

  lemma {:induction false} RestartCounts(
    l: Life, boot: string, from: Option<nat>, accepts: bool, rs: seq<Record>, ps: seq<Place>, m: Life)
    requires Counted(l) && m == Restarted(l, boot, from, accepts, rs, ps)
    requires forall i :: 0 <= i < |l.shelf| ==> AtSeal(l.shelf[i])
    ensures Counted(m)
  {
    if m != l && m.now.world.lineage != [] {
      RestartShows(l, boot, from, accepts, rs, ps, m);
      assert AtSeal(l.shelf[from.value]);
    }
  }

  lemma {:induction false} ShelfAtSeal(l: Life)
    requires Sound(l)
    ensures forall i :: 0 <= i < |l.shelf| ==> AtSeal(l.shelf[i])
    ensures 0 <= Folded(l.now.world)
  {
    forall i | 0 <= i < |l.shelf| ensures AtSeal(l.shelf[i]) { assert Shelved(l.shelf[i], l.all); }
  }

  lemma {:induction false} LiveCounts(l: Life, act: Act)
    requires Counted(l) && 0 <= Folded(l.now.world)
    requires forall i :: 0 <= i < |l.shelf| ==> AtSeal(l.shelf[i])
    ensures Counted(Live(l, act))
  {
    match act {
      case PublishAct(fs, domain) => PublishCounts(l, fs, domain);
      case LoseAppend(f, domain) =>
      case TickAct(x, id, keeping) =>
        if !Adrift(l) && Reduce(TickInput(l.now.world, x)).Ok? {
          AbsorbedCounts(l, x, id, Reduce(TickInput(l.now.world, x)).output, keeping, Ticked(l, x, id, keeping));
        }
      case StartAgain(boot, from, accepts, rs, ps) =>
        RestartCounts(l, boot, from, accepts, rs, ps, Restarted(l, boot, from, accepts, rs, ps));
    }
  }

  lemma {:induction false} EveryLifeCounts(boot: string, acts: seq<Act>)
    ensures Counted(Lived(boot, acts))
    decreases |acts|
  {
    if acts != [] {
      var l := Lived(boot, acts[..|acts| - 1]);
      EveryLifeCounts(boot, acts[..|acts| - 1]);
      EveryLifeIsSound(boot, acts[..|acts| - 1]);
      ShelfAtSeal(l);
      LiveCounts(l, acts[|acts| - 1]);
    }
  }

  /** One reduction moves the generation by one at most, so a link further from its parent is not derived. */
  lemma {:induction false} TooFarToDerive(
    c: Checkpoint, parent: Checkpoint, facts: seq<Record>, policies: seq<ComponentPolicy>)
    requires c.snapshot.generation > parent.snapshot.generation + 1
    ensures !Reproduce(c, parent, facts, policies).Reproduced?
  {
    var kept := Within(facts, parent.consumedTo, c.consumedTo);
    var p := ReAccept(RestoredState(parent.snapshot), parent.consumedTo, kept);
    if p.Progress? {
      var input := Input(Some(parent.snapshot), 0, 0, p.events, RecordedContext(c, policies));
      if Reduce(input).Ok? { GenerationCounts(input); }
    }
  }

  /** Replay fidelity across restarts: while the journals still hold the decisions of the link's range,
      verification reproduces it exactly if every change since its parent was stored and the link is
      covered; and where every change was stored it finds that the others diverged. */
  lemma {:induction false} ReplayFidelity(boot: string, acts: seq<Act>, x: Context, id: nat, facts: seq<Record>)
    requires var l := Lived(boot, acts); var w := l.now.world; var after := Tick(w, x, id);
      |after.lineage| > |w.lineage| && RangeHeld(w, l.now.start.fold, facts, LastSealed(after).consumedTo)
    ensures var l := Lived(boot, acts); var w := l.now.world; var after := Tick(w, x, id);
      var verdict := Reproduce(LastSealed(after), LastSealed(w), facts, x.policies);
      && (verdict.Reproduced? <==> l.lineal && LinkCovered(w, l.now.start.fold, x))
      && (l.lineal ==> verdict == VerdictIf(LinkCovered(w, l.now.start.fold, x)))
  {
    var l := Lived(boot, acts);
    EveryLifeIsSound(boot, acts);
    SealedReach(l.now.world, l.now.start, x, id);
    if l.lineal {
      FidelityAt(l.now.world, l.now.start, x, id, facts, LastSealed(Tick(l.now.world, x, id)));
    } else {
      EveryLifeCounts(boot, acts);
      GenerationCounts(TickInput(l.now.world, x));
      TooFarToDerive(LastSealed(Tick(l.now.world, x, id)), LastSealed(l.now.world), facts, x.policies);
    }
  }

  /** Without a wake or a reboot since the sealed parent, and with no refusal evicted there, a link of
      any life is covered. */
  lemma {:induction false} QuietLinksAreCovered(boot: string, acts: seq<Act>, x: Context)
    requires Lived(boot, acts).lineal
    requires var w := Lived(boot, acts).now.world;
      && w.lineage != [] && x.wake.None?
      && LastSealed(w).snapshot.boot == w.boot && !LastSealed(w).snapshot.summary.conflictOverflow
    ensures LinkCovered(Lived(boot, acts).now.world, Lived(boot, acts).now.start.fold, x)
  {
    EveryLifeIsSound(boot, acts);
    QuietAt(Lived(boot, acts).now.world, Lived(boot, acts).now.start, x);
  }

  lemma {:induction false} RisingSuffix(rs: seq<Record>, k: nat)
    requires Rising(rs) && k <= |rs|
    ensures Rising(rs[k..])
    decreases |rs|
  {
    if |rs| - k >= 2 {
      RisingSuffix(rs[..|rs| - 1], k);
      assert rs[k..][..|rs[k..]| - 1] == rs[..|rs| - 1][k..];
    }
  }

  lemma {:induction false} BeyondSuffix(rs: seq<Record>, k: nat, from: nat)
    requires k <= |rs| && forall i :: 0 <= i < k ==> rs[i].fold <= from
    ensures Beyond(rs, from) == Beyond(rs[k..], from)
    decreases |rs|
  {
    if k == |rs| {
      NothingBeyond(rs, from);
    } else {
      BeyondSuffix(rs[..|rs| - 1], k, from);
      assert rs[k..][..|rs[k..]| - 1] == rs[..|rs| - 1][k..];
    }
  }

  /** What a restart reads: while no append is lost, both journals of any life rise, so as long as every
      entry decodes and nothing past the checkpoint was evicted, the backwards scan returns exactly the
      records past it. */
  lemma {:induction false} FastReadServesRestart(
    boot: string, acts: seq<Act>, journal: seq<Record>, slots: seq<Slot>, k: nat, from: nat)
    requires var l := Lived(boot, acts); l.intact && (journal == l.now.world.root || journal == l.now.world.user)
    requires Corrupt !in slots && k <= |journal| && JournalModel.Held(slots) == journal[k..]
    requires forall i :: 0 <= i < k ==> journal[i].fold <= from
    ensures Rising(journal) && Tail(slots, from) == Some(Beyond(journal, from))
  {
    EveryLifeIsSound(boot, acts);
    RisingSuffix(journal, k);
    RisingReads(slots);
    var rs := journal[k..];
    MergeSorts(ByFold, rs);
    OneOrder(ByFold, rs, Merge(ByFold, rs));
    FastReadIsSimpleRead(slots, from);
    BeyondSuffix(journal, k, from);
  }
}

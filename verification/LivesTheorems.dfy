/** What every life of the runtime keeps. */
module LivesTheorems {
  import opened Facts
  import opened Acceptance
  import opened History
  import opened AcceptorTheorems
  import opened AcceptorResults
  import opened Reducer
  import opened Comparison
  import opened Reduction
  import opened ReductionTheorems
  import opened ReductionResults
  import opened RuntimeModel
  import opened RuntimeTheorems
  import opened RuntimeResults
  import opened Readiness
  import opened ReplayModel
  import opened ReplayTheorems
  import opened ReplayResults
  import opened JournalModel
  import opened Restart
  import opened Issued
  import opened Lives

  // ----- The invariant -----

  predicate Numbered(ks: seq<nat>) {
    forall a, b :: 0 <= a < b < |ks| ==> ks[a] < ks[b]
  }

  /** Each reduction of the chapter is the reduction of the life it is listed as. */
  predicate Told(ch: Chapter, all: seq<Pass>) {
    var w := ch.world;
    && |ch.places| == |w.events| && |ch.passes| == |w.ticks| && Numbered(ch.passes)
    && forall k :: 0 <= k < |ch.passes| ==>
      ch.passes[k] < |all|
      && all[ch.passes[k]] == PassOf(w.events, ch.places, w.ticks[k].before, Withdrew(w.ticks[k]))
  }

  predicate Faithful(ch: Chapter, all: seq<Pass>) {
    Inv(ch.world, ch.start) && Honest(ch.world) && Told(ch, all)
  }

  /** A chapter as the checkpoint that ends it leaves it. */
  ghost predicate AtSeal(s: Chapter) {
    var w := s.world;
    && w.lineage != [] && w.pending == [] && w.snapshot == Some(LastSealed(w).snapshot)
    && LastSealed(w).consumedTo == LastSealed(w).snapshot.fold && WellObserved(LastSealed(w).snapshot)
  }

  ghost predicate Shelved(s: Chapter, all: seq<Pass>) {
    Faithful(s, all) && AtSeal(s)
  }

  ghost predicate AllShelved(shelf: seq<Chapter>, all: seq<Pass>) {
    forall i :: 0 <= i < |shelf| ==> Shelved(shelf[i], all)
  }

  /** `ch` continues the checkpoint's chapter, and everything it reduced since began from that. */
  predicate Continuing(ch: Chapter, s: Chapter) {
    var w, v := ch.world, s.world;
    && ch.start == s.start && w.lineage == v.lineage && w.snapshot.Some?
    && |v.events| <= Folded(w) <= |w.events| && w.events[..|v.events|] == v.events
    && |s.places| <= |ch.places| && ch.places[..|s.places|] == s.places
    && |s.passes| <= |ch.passes| && ch.passes[..|s.passes|] == s.passes
    && |ch.passes| == |w.ticks|
    && forall k :: |s.passes| <= k < |w.ticks| ==> w.ticks[k].before >= |v.events|
  }

  predicate Anchored(now: Chapter, anchor: Option<Chapter>, shelf: seq<Chapter>) {
    match anchor
    case None => now.world.lineage == []
    case Some(s) => s in shelf && Continuing(now, s)
  }

  /** A journal's positions rise and none is above the acceptor's. */
  predicate JournalFit(rs: seq<Record>, fold: nat) {
    Rising(rs) && forall i :: 0 <= i < |rs| ==> rs[i].fold <= fold
  }

  /** The two journals together hold one record per position. */
  ghost predicate Tally(root: seq<Record>, user: seq<Record>, to: nat) {
    forall k :: 0 <= k <= to ==> |Beyond(root, k)| + |Beyond(user, k)| == to - k
  }

  ghost predicate JournalsFit(root: seq<Record>, user: seq<Record>, fold: nat) {
    JournalFit(root, fold) && JournalFit(user, fold) && Tally(root, user, fold)
  }

  predicate ShelfUpTo(shelf: seq<Chapter>, fold: nat) {
    forall i :: 0 <= i < |shelf| ==> shelf[i].world.acceptor.fold <= fold
  }

  /** Every fact can be decided again. */
  predicate Decidable(rs: seq<Record>) {
    forall i :: 0 <= i < |rs| ==> Admissible(rs[i].fact)
  }

  /** What drifted lies past a position that nothing pending fills. */
  predicate Ahead(d: Drift, fold: nat) {
    && d.acceptor.fold > fold
    && (d.pending != [] ==> d.pending[0].decision.Decided? && d.pending[0].decision.fold > fold + 1)
  }

  ghost predicate Intact(l: Life) {
    var w := l.now.world;
    l.drift.None? && JournalsFit(w.root, w.user, w.acceptor.fold) && ShelfUpTo(l.shelf, w.acceptor.fold)
  }

  ghost predicate Sound(l: Life) {
    && Faithful(l.now, l.all) && AllShelved(l.shelf, l.all) && Anchored(l.now, l.anchor, l.shelf)
    && (l.lineal ==> Lineal(l.now.world, l.now.start))
    && Decidable(l.now.world.root) && Decidable(l.now.world.user)
    && (l.drift.Some? ==> Ahead(l.drift.value, l.now.world.acceptor.fold))
    && (l.intact ==> Intact(l))
  }

  // ----- Journals -----

  lemma {:induction false} FitSnoc(rs: seq<Record>, r: Record, fold: nat)
    requires JournalFit(rs, fold) && r.fold == fold + 1
    ensures JournalFit(rs + [r], fold + 1)
  {
    var all := rs + [r];
    assert all[..|all| - 1] == rs;
    if rs != [] { assert all[|all| - 2] == rs[|rs| - 1]; }
  }

  lemma {:induction false} FitStays(rs: seq<Record>, fold: nat)
    requires JournalFit(rs, fold)
    ensures JournalFit(rs, fold + 1) && Beyond(rs, fold + 1) == []
  {
    NothingBeyond(rs, fold + 1);
  }

  /** One more record, in either journal, at the next position. */
  lemma {:induction false} TallySnoc(a: seq<Record>, b: seq<Record>, r: Record, to: nat)
    requires Tally(a, b, to) && r.fold == to + 1 && JournalFit(a, to) && JournalFit(b, to)
    ensures Tally(a + [r], b, to + 1)
  {
    forall k | 0 <= k <= to + 1 ensures |Beyond(a + [r], k)| + |Beyond(b, k)| == to + 1 - k {
      BeyondSnoc(a, r, k);
      if k == to + 1 { FitStays(a, to); FitStays(b, to); }
    }
  }

  lemma {:induction false} TallySwap(a: seq<Record>, b: seq<Record>, to: nat)
    requires Tally(a, b, to)
    ensures Tally(b, a, to)
  {
  }

  lemma {:induction false} JournalsFitSnoc(a: seq<Record>, b: seq<Record>, r: Record, fold: nat)
    requires JournalsFit(a, b, fold) && r.fold == fold + 1
    ensures JournalsFit(a + [r], b, fold + 1)
  {
    FitSnoc(a, r, fold);
    FitStays(b, fold);
    TallySnoc(a, b, r, fold);
  }

  lemma {:induction false} DecisionCounts(st: State, f: Fact)
    requires Admissible(f)
    ensures var (after, d) := Step(st, f, f.domain); d.Decided? && d.fold == st.fold + 1 == after.fold
  {
  }

  lemma {:induction false} OfferKeepsFit(w: World, f: Fact, domain: Domain)
    requires JournalsFit(w.root, w.user, w.acceptor.fold)
    ensures var v := Offer(w, f, domain); JournalsFit(v.root, v.user, v.acceptor.fold)
  {
    RejectedChangesNothing(w.acceptor, f, domain);
    var (st, d) := Step(w.acceptor, f, domain);
    if !d.Rejected? {
      var fold, r := w.acceptor.fold, RecordOf(Event(f, d));
      DecisionCounts(w.acceptor, f);
      if f.domain.Root? {
        JournalsFitSnoc(w.root, w.user, r, fold);
      } else {
        TallySwap(w.root, w.user, fold);
        JournalsFitSnoc(w.user, w.root, r, fold);
        TallySwap(w.user + [r], w.root, fold + 1);
      }
    }
  }

  lemma {:induction false} PublishKeepsFit(w: World, fs: seq<Fact>, domain: Domain)
    requires JournalsFit(w.root, w.user, w.acceptor.fold)
    ensures var v := Publish(w, fs, domain); JournalsFit(v.root, v.user, v.acceptor.fold)
    decreases |fs|
  {
    if fs != [] {
      PublishKeepsFit(w, fs[..|fs| - 1], domain);
      OfferKeepsFit(Publish(w, fs[..|fs| - 1], domain), fs[|fs| - 1], domain);
    }
  }

  lemma {:induction false} PublishKeepsDecidable(w: World, fs: seq<Fact>, domain: Domain)
    requires Decidable(w.root) && Decidable(w.user)
    ensures var v := Publish(w, fs, domain);
      Decidable(v.root) && Decidable(v.user) && v.acceptor.fold >= w.acceptor.fold
    decreases |fs|
  {
    if fs != [] {
      PublishKeepsDecidable(w, fs[..|fs| - 1], domain);
      OfferKeepsDecidable(Publish(w, fs[..|fs| - 1], domain), fs[|fs| - 1], domain);
    }
  }

  lemma {:induction false} OfferKeepsDecidable(w: World, f: Fact, domain: Domain)
    requires Decidable(w.root) && Decidable(w.user)
    ensures var v := Offer(w, f, domain);
      Decidable(v.root) && Decidable(v.user) && v.acceptor.fold >= w.acceptor.fold
  {
    RejectedChangesNothing(w.acceptor, f, domain);
    if !Step(w.acceptor, f, domain).1.Rejected? { DecisionCounts(w.acceptor, f); }
  }

  /** Nothing is decided at a position the acceptor has passed. */
  lemma {:induction false} PublishKeepsAhead(w: World, fs: seq<Fact>, domain: Domain, fold: nat)
    requires Ahead(Drift(w.acceptor, w.pending), fold)
    ensures var v := Publish(w, fs, domain); Ahead(Drift(v.acceptor, v.pending), fold)
    decreases |fs|
  {
    if fs != [] {
      PublishKeepsAhead(w, fs[..|fs| - 1], domain, fold);
      OfferKeepsAhead(Publish(w, fs[..|fs| - 1], domain), fs[|fs| - 1], domain, fold);
    }
  }

  lemma {:induction false} OfferKeepsAhead(w: World, f: Fact, domain: Domain, fold: nat)
    requires Ahead(Drift(w.acceptor, w.pending), fold)
    ensures var v := Offer(w, f, domain); Ahead(Drift(v.acceptor, v.pending), fold)
  {
    RejectedChangesNothing(w.acceptor, f, domain);
    if !Step(w.acceptor, f, domain).1.Rejected? { DecisionCounts(w.acceptor, f); }
  }

  // ----- Chapters -----

  lemma {:induction false} FrontStays<T>(a: seq<T>, b: seq<T>, n: nat, k: int)
    requires 0 <= k <= n <= |a| && n <= |b| && a[..n] == b[..n]
    ensures Front(a, k) == Front(b, k)
  {
    assert a[..k] == a[..n][..k] && b[..k] == b[..n][..k];
  }

  /** Reductions of an honest chapter began within what is folded. */
  lemma {:induction false} BeganFolded(w: World, k: nat)
    requires Honest(w) && k < |w.ticks|
    ensures 0 <= w.ticks[k].before <= Folded(w)
  {
  }

  /** A chapter that goes on - events decided, nothing reduced - tells its reductions as before. */
  lemma {:induction false} ToldStays(ch: Chapter, next: Chapter, all: seq<Pass>)
    requires Told(ch, all) && Honest(ch.world) && next.passes == ch.passes && next.world.ticks == ch.world.ticks
    requires |next.places| == |next.world.events|
    requires 0 <= Folded(ch.world) <= |ch.world.events| && Folded(ch.world) <= |next.world.events|
    requires next.world.events[..Folded(ch.world)] == ch.world.events[..Folded(ch.world)]
    requires next.places[..Folded(ch.world)] == ch.places[..Folded(ch.world)]
    ensures Told(next, all)
  {
    var w, v, n := ch.world, next.world, Folded(ch.world);
    forall k | 0 <= k < |next.passes|
      ensures all[next.passes[k]] == PassOf(v.events, next.places, v.ticks[k].before, Withdrew(v.ticks[k]))
    {
      BeganFolded(w, k);
      FrontStays(w.events, v.events, n, w.ticks[k].before);
      FrontStays(ch.places, next.places, n, w.ticks[k].before);
    }
  }

  lemma {:induction false} ToldGrows(ch: Chapter, all: seq<Pass>, more: seq<Pass>)
    requires Told(ch, all)
    ensures Told(ch, all + more)
  {
  }

  lemma {:induction false} ShelfGrows(shelf: seq<Chapter>, all: seq<Pass>, more: seq<Pass>)
    requires AllShelved(shelf, all)
    ensures AllShelved(shelf, all + more)
  {
    forall i | 0 <= i < |shelf| ensures Shelved(shelf[i], all + more) {
      assert Shelved(shelf[i], all);
      ToldGrows(shelf[i], all, more);
    }
  }

  lemma {:induction false} ShelfSnoc(shelf: seq<Chapter>, s: Chapter, all: seq<Pass>)
    requires AllShelved(shelf, all) && Shelved(s, all)
    ensures AllShelved(shelf + [s], all)
  {
  }

  // ----- Publications -----

  lemma {:induction false} PublishKeepsSound(l: Life, fs: seq<Fact>, domain: Domain)
    requires Sound(l)
    ensures Sound(Published(l, fs, domain))
  {
    if l.drift.None? { PublishInPlace(l, fs, domain); } else { PublishAdrift(l, fs, domain); }
  }

  lemma {:induction false} PublishedChapter(ch: Chapter, next: Chapter, all: seq<Pass>, fs: seq<Fact>, domain: Domain)
    requires Faithful(ch, all)
    requires var v := Publish(ch.world, fs, domain);
      next == ch.(world := v, places := ch.places + NewPlaces(ch.world, v, domain))
    ensures Faithful(next, all)
  {
    var w := ch.world;
    PublishKeepsInv(w, ch.start, fs, domain);
    PublishFolds(w, fs, domain);
    ToldStays(ch, next, all);
  }

  lemma {:induction false} ContinuingStays(ch: Chapter, next: Chapter, s: Chapter)
    requires Continuing(ch, s) && next.start == ch.start && next.passes == ch.passes
    requires next.world.lineage == ch.world.lineage && next.world.ticks == ch.world.ticks
    requires next.world.snapshot == ch.world.snapshot
    requires Folded(next.world) == Folded(ch.world) <= |next.world.events|
    requires next.world.events[..Folded(ch.world)] == ch.world.events[..Folded(ch.world)]
    requires |ch.places| <= |next.places| && next.places[..|ch.places|] == ch.places
    ensures Continuing(next, s)
  {
    var n := |s.world.events|;
    FrontStays(ch.world.events, next.world.events, Folded(ch.world), n);
    assert next.places[..|s.places|] == next.places[..|ch.places|][..|s.places|];
  }

  lemma {:induction false} PublishInPlace(l: Life, fs: seq<Fact>, domain: Domain)
    requires Sound(l) && l.drift.None?
    ensures Sound(Published(l, fs, domain))
  {
    var w, next := l.now.world, Published(l, fs, domain).now;
    PublishedChapter(l.now, next, l.all, fs, domain);
    PublishKeepsInv(w, l.now.start, fs, domain);
    PublishFolds(w, fs, domain);
    PublishKeepsDecidable(w, fs, domain);
    if l.anchor.Some? { ContinuingStays(l.now, next, l.anchor.value); }
    if l.lineal { PublishKeepsLineal(w, l.now.start, fs, domain); }
    if l.intact { PublishKeepsFit(w, fs, domain); }
  }

  lemma {:induction false} JournalsDoNotMatter(w: World, start: State, root: seq<Record>, user: seq<Record>)
    requires Inv(w, start)
    ensures Inv(w.(root := root, user := user), start)
  {
    var v := w.(root := root, user := user);
    assert Folded(v) == Folded(w) && BoundaryState(v, start) == BoundaryState(w, start);
  }

  lemma {:induction false} FaithfulWithoutJournals(ch: Chapter, all: seq<Pass>, root: seq<Record>, user: seq<Record>)
    requires Faithful(ch, all)
    ensures Faithful(ch.(world := ch.world.(root := root, user := user)), all)
  {
    JournalsDoNotMatter(ch.world, ch.start, root, user);
  }

  lemma {:induction false} LinealWithoutJournals(w: World, start: State, root: seq<Record>, user: seq<Record>)
    requires Lineal(w, start)
    ensures Lineal(w.(root := root, user := user), start)
  {
  }

  lemma {:induction false} PublishAdrift(l: Life, fs: seq<Fact>, domain: Domain)
    requires Sound(l) && l.drift.Some?
    ensures Sound(Published(l, fs, domain))
  {
    var w := l.now.world.(acceptor := l.drift.value.acceptor, pending := l.drift.value.pending);
    var v := Publish(w, fs, domain);
    PublishKeepsDecidable(w, fs, domain);
    PublishKeepsAhead(w, fs, domain, l.now.world.acceptor.fold);
    FaithfulWithoutJournals(l.now, l.all, v.root, v.user);
    if l.lineal { LinealWithoutJournals(l.now.world, l.now.start, v.root, v.user); }
  }

  lemma {:induction false} LostKeepsSound(l: Life, f: Fact, domain: Domain)
    requires Sound(l)
    ensures Sound(Lost(l, f, domain))
  {
    var st := Running(l).acceptor;
    RejectedChangesNothing(st, f, domain);
    if !Step(st, f, domain).1.Rejected? { DecisionCounts(st, f); }
  }

  // ----- Reductions -----

  lemma {:induction false} NextTold(l: Life, x: Context, id: nat, output: Output, sealed: bool, all: seq<Pass>)
    requires Told(l.now, l.all) && all == l.all + [PassNow(l.now, x)]
    ensures Told(Next(l, x, id, output, sealed), all)
  {
    var next := Next(l, x, id, output, sealed);
    var w, v := l.now.world, next.world;
    forall k | 0 <= k < |next.passes|
      ensures next.passes[k] < |all|
      ensures all[next.passes[k]] == PassOf(v.events, next.places, v.ticks[k].before, Withdrew(v.ticks[k]))
    {
      if k < |l.now.passes| { assert v.ticks[k] == w.ticks[k]; }
    }
  }

  /** What a successful reduction leaves behind, sealed or not. */
  lemma {:induction false} NextFaithful(l: Life, x: Context, id: nat, output: Output, sealed: bool, all: seq<Pass>)
    requires Faithful(l.now, l.all) && Reduce(TickInput(l.now.world, x)) == Ok(output) && (sealed ==> output.changed)
    requires all == l.all + [PassNow(l.now, x)]
    ensures Faithful(Next(l, x, id, output, sealed), all)
  {
    var w, start := l.now.world, l.now.start;
    TickReachesAcceptor(w, start, x);
    AbsorbKeepsInv(w, start, x, id, output.(changed := sealed));
    ReductionReduced(TickInput(w, x));
    StartWitnessed(w, start, x);
    AbsorbKeepsHonest(w, x, id, output.(changed := sealed), w.events[..Folded(w)]);
    NextTold(l, x, id, output, sealed, all);
  }

  lemma {:induction false} NextAtSeal(l: Life, x: Context, id: nat, output: Output)
    requires Faithful(l.now, l.all) && Reduce(TickInput(l.now.world, x)) == Ok(output) && output.changed
    ensures AtSeal(Next(l, x, id, output, true))
  {
    var w, next := l.now.world, Next(l, x, id, output, true);
    TickWellObserved(w, l.now.start, x);
    assert output.(changed := true) == output;
    assert LastSealed(next.world) == Seal(w, id, x, output);
  }

  lemma {:induction false} NextContinues(l: Life, x: Context, id: nat, output: Output, s: Chapter)
    requires Continuing(l.now, s)
    ensures Continuing(Next(l, x, id, output, false), s)
  {
    var w, next := l.now.world, Next(l, x, id, output, false);
    assert next.world.lineage == w.lineage;
    forall k | |s.passes| <= k < |next.world.ticks| ensures next.world.ticks[k].before >= |s.world.events| {
      if k < |w.ticks| { assert next.world.ticks[k] == w.ticks[k]; }
    }
    assert next.passes[..|s.passes|] == l.now.passes[..|s.passes|];
  }

  lemma {:induction false} SealContinues(next: Chapter, all: seq<Pass>)
    requires Faithful(next, all) && AtSeal(next)
    ensures Continuing(next, next)
  {
    assert next.world.events[..|next.world.events|] == next.world.events;
    assert next.places[..|next.places|] == next.places && next.passes[..|next.passes|] == next.passes;
  }

  lemma {:induction false} NextLineal(l: Life, x: Context, id: nat, output: Output)
    requires Sound(l) && Reduce(TickInput(l.now.world, x)) == Ok(output)
    ensures output.changed ==> Lineal(Next(l, x, id, output, true).world, l.now.start)
    ensures l.lineal && !output.changed ==> Lineal(Next(l, x, id, output, false).world, l.now.start)
  {
    var w, start := l.now.world, l.now.start;
    if output.changed {
      assert output.(changed := true) == output;
      TickReachesAcceptor(w, start, x);
      TickWellObserved(w, start, x);
      AcceptorAt(w, start, output.snapshot);
      SealKeepsLineal(w, start, x, id, output);
    } else if l.lineal {
      assert output.(changed := false) == output;
      TickKeepsLineal(w, start, x, id);
    }
  }

  /** A reduction touches neither the journals nor the acceptor. */
  predicate Beside(m: Life, l: Life) {
    var v, w := m.now.world, l.now.world;
    && m.drift == l.drift && m.intact == l.intact
    && v.root == w.root && v.user == w.user && v.acceptor == w.acceptor
  }

  lemma {:induction false} Assembled(l: Life, m: Life)
    requires Sound(l) && Beside(m, l)
    requires Faithful(m.now, m.all) && AllShelved(m.shelf, m.all) && Anchored(m.now, m.anchor, m.shelf)
    requires m.lineal ==> Lineal(m.now.world, m.now.start)
    requires l.intact ==> ShelfUpTo(m.shelf, m.now.world.acceptor.fold)
    ensures Sound(m)
  {
  }

  lemma {:induction false} UpToSnoc(shelf: seq<Chapter>, s: Chapter, fold: nat)
    requires ShelfUpTo(shelf, fold) && s.world.acceptor.fold == fold
    ensures ShelfUpTo(shelf + [s], fold)
  {
  }

  /** The shelf with one more sealed chapter. */
  lemma {:induction false} SealShelves(
    l: Life, x: Context, id: nat, output: Output, all: seq<Pass>, shelf: seq<Chapter>)
    requires Sound(l) && Reduce(TickInput(l.now.world, x)) == Ok(output) && output.changed
    requires all == l.all + [PassNow(l.now, x)] && shelf == l.shelf + [Next(l, x, id, output, true)]
    ensures AllShelved(shelf, all) && (l.intact ==> ShelfUpTo(shelf, l.now.world.acceptor.fold))
  {
    var next := Next(l, x, id, output, true);
    NextFaithful(l, x, id, output, true, all);
    NextAtSeal(l, x, id, output);
    ShelfGrows(l.shelf, l.all, [PassNow(l.now, x)]);
    ShelfSnoc(l.shelf, next, all);
    if l.intact { UpToSnoc(l.shelf, next, l.now.world.acceptor.fold); }
  }

  lemma {:induction false} KeptIsSound(l: Life, x: Context, id: nat, output: Output, m: Life)
    requires Sound(l) && Reduce(TickInput(l.now.world, x)) == Ok(output)
    requires output.changed && m == Kept(l, x, id, output)
    ensures Sound(m)
  {
    SealShelves(l, x, id, output, m.all, m.shelf);
    assert m.now == m.shelf[|l.shelf|];
    assert Shelved(m.shelf[|l.shelf|], m.all);
    SealContinues(m.now, m.all);
    NextLineal(l, x, id, output);
    Assembled(l, m);
  }

  lemma {:induction false} NotKeptShelves(
    l: Life, x: Context, id: nat, output: Output, visible: bool, all: seq<Pass>, shelf: seq<Chapter>)
    requires Sound(l) && Reduce(TickInput(l.now.world, x)) == Ok(output) && (visible ==> output.changed)
    requires all == l.all + [PassNow(l.now, x)]
    requires shelf == if visible then l.shelf + [Next(l, x, id, output, true)] else l.shelf
    ensures AllShelved(shelf, all) && (l.intact ==> ShelfUpTo(shelf, l.now.world.acceptor.fold))
  {
    if visible { SealShelves(l, x, id, output, all, shelf); } else { ShelfGrows(l.shelf, l.all, [PassNow(l.now, x)]); }
  }

  lemma {:induction false} NotKeptNow(l: Life, x: Context, id: nat, output: Output, next: Chapter, all: seq<Pass>)
    requires Sound(l) && Reduce(TickInput(l.now.world, x)) == Ok(output)
    requires next == Next(l, x, id, output, false) && all == l.all + [PassNow(l.now, x)]
    ensures Faithful(next, all) && Anchored(next, l.anchor, l.shelf)
    ensures l.lineal && !output.changed ==> Lineal(next.world, next.start)
  {
    NextFaithful(l, x, id, output, false, all);
    NextLineal(l, x, id, output);
    if l.anchor.Some? { NextContinues(l, x, id, output, l.anchor.value); }
  }

  lemma {:induction false} AnchorStays(now: Chapter, anchor: Option<Chapter>, shelf: seq<Chapter>, more: seq<Chapter>)
    requires Anchored(now, anchor, shelf) && forall s :: s in shelf ==> s in more
    ensures Anchored(now, anchor, more)
  {
  }

  lemma {:induction false} NotKeptIsSound(l: Life, x: Context, id: nat, output: Output, visible: bool, m: Life)
    requires Sound(l) && Reduce(TickInput(l.now.world, x)) == Ok(output)
    requires (visible ==> output.changed) && m == NotKept(l, x, id, output, visible)
    ensures Sound(m)
  {
    NotKeptNow(l, x, id, output, m.now, m.all);
    NotKeptShelves(l, x, id, output, visible, m.all, m.shelf);
    AnchorStays(m.now, l.anchor, l.shelf, m.shelf);
    Assembled(l, m);
  }

  lemma {:induction false} TickKeepsSound(l: Life, x: Context, id: nat, keeping: Keeping)
    requires Sound(l)
    ensures Sound(Ticked(l, x, id, keeping))
  {
    if !Adrift(l) && Reduce(TickInput(l.now.world, x)).Ok? {
      var output := Reduce(TickInput(l.now.world, x)).output;
      AbsorbedIsSound(l, x, id, output, keeping, Absorbed(l, x, id, output, keeping));
    }
  }

  lemma {:induction false} AbsorbedIsSound(l: Life, x: Context, id: nat, output: Output, keeping: Keeping, m: Life)
    requires Sound(l) && Reduce(TickInput(l.now.world, x)) == Ok(output) && m == Absorbed(l, x, id, output, keeping)
    ensures Sound(m)
  {
    var offered := output.changed && l.accepting;
    if offered && keeping.Stored? {
      KeptIsSound(l, x, id, output, m);
    } else {
      NotKeptIsSound(l, x, id, output, offered && keeping.Visible?, m);
    }
  }

  // ----- Starting again -----

  lemma {:induction false} BeyondMeans(rs: seq<Record>, from: nat, r: Record)
    ensures r in Beyond(rs, from) ==> r in rs
  {
    if rs != [] { BeyondMeans(rs[..|rs| - 1], from, r); }
  }

  /** Whatever order the sort chose, every retained fact can be decided again. */
  lemma {:induction false} RetainedAdmissible(rs: seq<Record>, w: World, from: nat)
    requires Decidable(w.root) && Decidable(w.user) && HostSorted(rs, w, from)
    ensures AllAdmissible(FactsIn(rs))
  {
    var held := Beyond(w.root, from) + Beyond(w.user, from);
    forall i | 0 <= i < |rs| ensures Admissible(FactsIn(rs)[i]) {
      assert rs[i] in multiset(rs);
      assert rs[i] in multiset(held);
      assert rs[i] in held;
      BeyondMeans(w.root, from, rs[i]);
      BeyondMeans(w.user, from, rs[i]);
    }
  }

  lemma {:induction false} DecidedConcat(start: State, a: seq<Event>, mid: State, fs: seq<Fact>)
    requires RuntimeTheorems.Decided(start, a, mid) && AllAdmissible(fs)
    ensures RuntimeTheorems.Decided(start, a + Run(mid, fs).1, Run(mid, fs).0)
  {
    FactsOfRun(mid, fs);
    FactsOfConcat(a, Run(mid, fs).1);
    RunConcat(start, FactsOf(a), fs);
    AdmissibleConcat(FactsOf(a), fs);
  }

  lemma {:induction false} FactsOfConcat(a: seq<Event>, b: seq<Event>)
    ensures FactsOf(a + b) == FactsOf(a) + FactsOf(b)
  {
  }

  lemma {:induction false} AdmissibleConcat(a: seq<Fact>, b: seq<Fact>)
    requires AllAdmissible(a) && AllAdmissible(b)
    ensures AllAdmissible(a + b)
  {
  }

  /** A checkpoint restores the acceptor that sealed it. */
  lemma {:induction false} SealRestores(s: Chapter, all: seq<Pass>)
    requires Shelved(s, all)
    ensures RestoredState(LastSealed(s.world).snapshot) == s.world.acceptor && ValidState(s.world.acceptor)
    ensures s.world.acceptor.fold == LastSealed(s.world).consumedTo == s.start.fold + |s.world.events|
  {
    RestoredIsLive(s.world, s.start, []);
    OrdersAreGapFree(s.world, s.start);
  }

  /** Everything a start from a checkpoint finds: it validates, and nothing past it is rejected. */
  predicate Startable(s: Chapter, w: World, rs: seq<Record>) {
    && s.world.lineage != [] && HostSorted(rs, w, LastSealed(s.world).consumedTo)
    && RestoredState(LastSealed(s.world).snapshot) == s.world.acceptor && ValidState(s.world.acceptor)
    && AllAdmissible(FactsIn(rs)) && Resumed(s.world.acceptor, rs) == Some(Run(s.world.acceptor, FactsIn(rs)))
  }

  lemma {:induction false} StartIsNeverRefused(l: Life, s: Chapter, rs: seq<Record>)
    requires Sound(l) && s in l.shelf && HostSorted(rs, l.now.world, LastSealed(s.world).consumedTo)
    ensures Startable(s, l.now.world, rs) && Shelved(s, l.all)
  {
    assert Shelved(s, l.all);
    SealRestores(s, l.all);
    RetainedAdmissible(rs, l.now.world, LastSealed(s.world).consumedTo);
    ResumedIsRun(s.world.acceptor, rs);
  }

  /** The chapter right after a start from a checkpoint. */
  function Started(s: Chapter, w: World, boot: string, rs: seq<Record>, ps: seq<Place>): Chapter {
    var (st, again) := Run(s.world.acceptor, FactsIn(rs));
    Resume(s, w, boot, st, again, ps)
  }

  /** `v` shows what `w` showed when it was sealed, with more to fold. */
  predicate ShowsAgain(v: World, w: World) {
    && w.pending == [] && |w.events| <= |v.events|
    && v.events[..|w.events|] == w.events && v.pending == v.events[|w.events|..]
    && v.snapshot == w.snapshot && v.accepted == w.accepted && v.consumed == w.consumed
    && v.ticks == w.ticks && v.lineage == w.lineage
  }

  lemma {:induction false} InvAgain(v: World, w: World, start: State)
    requires Inv(w, start) && ShowsAgain(v, w) && RuntimeTheorems.Decided(start, v.events, v.acceptor)
    ensures Inv(v, start)
  {
    assert Folded(v) == |w.events| == Folded(w) && w.events[..|w.events|] == w.events;
    assert BoundaryState(v, start) == BoundaryState(w, start);
  }

  lemma {:induction false} HonestAgain(v: World, w: World)
    requires Honest(w) && ShowsAgain(v, w)
    ensures Honest(v)
  {
    assert Folded(v) == |w.events| == Folded(w) && w.events[..|w.events|] == w.events;
  }

  lemma {:induction false} LinealAgain(v: World, w: World, start: State)
    requires Inv(w, start) && ShowsAgain(v, w) && w.lineage != [] && w.snapshot == Some(LastSealed(w).snapshot)
    requires LastSealed(w).consumedTo == LastSealed(w).snapshot.fold && WellObserved(LastSealed(w).snapshot)
    ensures Lineal(v, start)
  {
    var p, n := LastSealed(w).snapshot, |w.events|;
    assert LastSealed(v) == LastSealed(w);
    assert v.events[..n] == w.events == w.events[..n];
    OrdersAreGapFree(w, start);
    RestoredIsLive(w, start, []);
    assert RestoredState(p) == w.acceptor;
    assert At(p, start) == n;
    assert TakenAt(p, v, start, n);
    CoalescedAlready(p);
    assert v.events[n..Folded(v)] == [];
  }

  lemma {:induction false} StartedShowsAgain(s: Chapter, w: World, boot: string, rs: seq<Record>, ps: seq<Place>)
    requires s.world.pending == []
    ensures ShowsAgain(Started(s, w, boot, rs, ps).world, s.world)
  {
  }

  lemma {:induction false} StartedDecided(
    s: Chapter, all: seq<Pass>, w: World, boot: string, rs: seq<Record>, ps: seq<Place>)
    requires Shelved(s, all) && AllAdmissible(FactsIn(rs))
    ensures var v := Started(s, w, boot, rs, ps).world; RuntimeTheorems.Decided(s.start, v.events, v.acceptor)
    ensures |Started(s, w, boot, rs, ps).world.pending| == |rs|
  {
    DecidedConcat(s.start, s.world.events, s.world.acceptor, FactsIn(rs));
    FactsOfRun(s.world.acceptor, FactsIn(rs));
  }

  lemma {:induction false} StartedFaithful(
    s: Chapter, all: seq<Pass>, next: Chapter, w: World, boot: string, rs: seq<Record>, ps: seq<Place>)
    requires Shelved(s, all) && AllAdmissible(FactsIn(rs)) && |ps| == |rs| && next == Started(s, w, boot, rs, ps)
    ensures Faithful(next, all) && Lineal(next.world, next.start)
  {
    StartedShowsAgain(s, w, boot, rs, ps);
    StartedDecided(s, all, w, boot, rs, ps);
    InvAgain(next.world, s.world, s.start);
    HonestAgain(next.world, s.world);
    LinealAgain(next.world, s.world, s.start);
    StartedTold(s, all, next, w, boot, rs, ps);
  }

  lemma {:induction false} StartedTold(
    s: Chapter, all: seq<Pass>, next: Chapter, w: World, boot: string, rs: seq<Record>, ps: seq<Place>)
    requires Told(s, all) && Honest(s.world) && s.world.pending == [] && next == Started(s, w, boot, rs, ps)
    requires |next.world.pending| == |ps|
    ensures Told(next, all)
  {
    var n := |s.world.events|;
    assert next.world.events[..n] == s.world.events[..n];
    assert next.places[..n] == s.places[..n];
    ToldStays(s, next, all);
  }

  lemma {:induction false} StartedContinues(
    s: Chapter, all: seq<Pass>, next: Chapter, w: World, boot: string, rs: seq<Record>, ps: seq<Place>)
    requires Shelved(s, all) && next == Started(s, w, boot, rs, ps)
    ensures Continuing(next, s)
  {
    StartedShowsAgain(s, w, boot, rs, ps);
    assert next.places[..|s.places|] == s.places && next.passes[..|s.passes|] == s.passes;
  }

  /** Re-accepting what lies past a checkpoint reaches as far as there are records past it. */
  lemma {:induction false} StartedPosition(
    s: Chapter, all: seq<Pass>, w: World, boot: string, rs: seq<Record>, ps: seq<Place>)
    requires Shelved(s, all) && Startable(s, w, rs)
    ensures var from := LastSealed(s.world).consumedTo;
      Started(s, w, boot, rs, ps).world.acceptor.fold == from + |Beyond(w.root, from)| + |Beyond(w.user, from)|
  {
    var from := LastSealed(s.world).consumedTo;
    SealRestores(s, all);
    SameSize(rs, Beyond(w.root, from) + Beyond(w.user, from));
    TwoOrders(s.world.acceptor, FactsIn(rs));
  }

  lemma {:induction false} StartedIsSound(l: Life, m: Life, s: Chapter, boot: string, rs: seq<Record>, ps: seq<Place>)
    requires Sound(l) && s in l.shelf && Startable(s, l.now.world, rs) && |ps| == |rs|
    requires m == Life(Started(s, l.now.world, boot, rs, ps), None, Some(s), l.shelf, m.accepting, true, l.intact,
      l.all)
    ensures Sound(m)
  {
    var w := l.now.world;
    assert Shelved(s, l.all);
    StartedFaithful(s, l.all, m.now, w, boot, rs, ps);
    StartedContinues(s, l.all, m.now, w, boot, rs, ps);
    if l.intact { StartedIntact(l, s, boot, rs, ps); }
  }

  /** Unless an append was lost, the start is exactly where the last life had come to. */
  lemma {:induction false} StartedIntact(l: Life, s: Chapter, boot: string, rs: seq<Record>, ps: seq<Place>)
    requires Sound(l) && l.intact && s in l.shelf && Startable(s, l.now.world, rs)
    ensures Started(s, l.now.world, boot, rs, ps).world.acceptor.fold == l.now.world.acceptor.fold
  {
    var w, from := l.now.world, LastSealed(s.world).consumedTo;
    assert Shelved(s, l.all);
    SealRestores(s, l.all);
    assert s.world.acceptor.fold <= w.acceptor.fold;
    StartedPosition(s, l.all, w, boot, rs, ps);
    assert |Beyond(w.root, from)| + |Beyond(w.user, from)| == w.acceptor.fold - from;
  }

  lemma {:induction false} RestartedShape(
    l: Life, boot: string, from: Option<nat>, accepts: bool, rs: seq<Record>, ps: seq<Place>, s: Chapter)
    requires from.Some? && from.value < |l.shelf| && s == l.shelf[from.value]
    requires Startable(s, l.now.world, rs) && HeldAt(l.now.world, rs, ps)
    ensures Restarted(l, boot, from, accepts, rs, ps) ==
      Life(Started(s, l.now.world, boot, rs, ps), None, Some(s), l.shelf, accepts, true, l.intact, l.all)
  {
  }

  // ----- Starting from nothing -----

  lemma {:induction false} NewestIsHighest(rs: seq<Record>, i: nat)
    requires Rising(rs) && i < |rs|
    ensures rs[i].fold <= NewestFold(rs)
  {
    if i < |rs| - 1 { RisingAt(rs, i, |rs| - 1); }
  }

  lemma {:induction false} BeyondNewest(rs: seq<Record>, fold: nat)
    requires Rising(rs) && Beyond(rs, fold) != []
    ensures NewestFold(rs) > fold
  {
    var r := Beyond(rs, fold)[0];
    if NewestFold(rs) <= fold {
      forall i | 0 <= i < |rs| ensures rs[i].fold <= fold { NewestIsHighest(rs, i); }
      NothingBeyond(rs, fold);
    }
  }

  /** While no append is lost, the journals show exactly how far the acceptor has come. */
  lemma {:induction false} IssuedIsReached(root: seq<Record>, user: seq<Record>, fold: nat)
    requires JournalsFit(root, user, fold)
    ensures HighestIssued(root, user).1 == fold
  {
    if fold > 0 {
      assert |Beyond(root, fold - 1)| + |Beyond(user, fold - 1)| == 1;
      if Beyond(root, fold - 1) != [] { BeyondNewest(root, fold - 1); } else { BeyondNewest(user, fold - 1); }
    }
  }

  lemma {:induction false} FreshIsFaithful(ch: Chapter, all: seq<Pass>)
    requires var w, start := ch.world, ch.start;
      && start == State(start.host, start.fold, map[]) && w.acceptor == start && w.snapshot.None?
      && w.pending == [] && w.events == [] && w.ticks == [] && w.lineage == []
      && w.accepted == start.host && w.consumed == start.fold && ch.places == [] && ch.passes == []
    ensures Faithful(ch, all) && Lineal(ch.world, ch.start)
  {
    assert FactsOf([]) == [];
    assert ch.world.events[..0] == [];
  }

  lemma {:induction false} FromNothingIsSound(l: Life, boot: string, accepts: bool)
    requires Sound(l)
    ensures Sound(FromNothing(l, boot, accepts))
  {
    var w, m := l.now.world, FromNothing(l, boot, accepts);
    FreshIsFaithful(m.now, m.all);
    if l.intact { IssuedIsReached(w.root, w.user, w.acceptor.fold); }
  }

  lemma {:induction false} RestartKeepsSound(
    l: Life, boot: string, from: Option<nat>, accepts: bool, rs: seq<Record>, ps: seq<Place>)
    requires Sound(l)
    ensures Sound(Restarted(l, boot, from, accepts, rs, ps))
  {
    if from.None? || from.value >= |l.shelf| {
      FromNothingIsSound(l, boot, accepts);
    } else {
      var s := l.shelf[from.value];
      assert Shelved(s, l.all);
      if HostSorted(rs, l.now.world, LastSealed(s.world).consumedTo) && HeldAt(l.now.world, rs, ps) {
        StartIsNeverRefused(l, s, rs);
        RestartedShape(l, boot, from, accepts, rs, ps, s);
        StartedIsSound(l, Restarted(l, boot, from, accepts, rs, ps), s, boot, rs, ps);
      }
    }
  }

  // ----- Every life -----

  lemma {:induction false} BegunIsSound(boot: string)
    ensures Sound(Begun(boot))
  {
    FreshIsFaithful(Begun(boot).now, []);
  }

  lemma {:induction false} LiveKeepsSound(l: Life, act: Act)
    requires Sound(l)
    ensures Sound(Live(l, act))
  {
    match act {
      case PublishAct(fs, domain) => PublishKeepsSound(l, fs, domain);
      case LoseAppend(f, domain) => LostKeepsSound(l, f, domain);
      case TickAct(x, id, keeping) => TickKeepsSound(l, x, id, keeping);
      case StartAgain(boot, from, accepts, rs, ps) => RestartKeepsSound(l, boot, from, accepts, rs, ps);
    }
  }

  /** Every life keeps it, whatever fails and however often and differently the runtime starts again:
      from any checkpoint that ever became visible, or from nothing. */
  lemma {:induction false} EveryLifeIsSound(boot: string, acts: seq<Act>)
    ensures Sound(Lived(boot, acts))
    decreases |acts|
  {
    if acts == [] {
      BegunIsSound(boot);
    } else {
      EveryLifeIsSound(boot, acts[..|acts| - 1]);
      LiveKeepsSound(Lived(boot, acts[..|acts| - 1]), acts[|acts| - 1]);
    }
  }
}

/** The history of a life tells the truth about the journals: each decision stands for the record at its
    place, and what a reduction had not folded by then is what was written or re-accepted later. */
module LivesPlaces {
  import opened Facts
  import opened Acceptance
  import opened History
  import opened AcceptorTheorems
  import opened AcceptorResults
  import opened Reducer
  import opened Reduction
  import opened RuntimeModel
  import opened RuntimeTheorems
  import opened Restart
  import opened ReplayModel
  import opened ReplayTheorems
  import opened Lives
  import opened LivesTheorems

  predicate Holds(w: World, p: Place, f: Fact) {
    p.index < |JournalOf(w, p.domain)| && JournalOf(w, p.domain)[p.index].fact == f
  }

  predicate Placed(places: seq<Place>, es: seq<Event>, w: World) {
    |places| == |es| && forall i :: 0 <= i < |es| ==> Holds(w, places[i], es[i].fact)
  }

  predicate Within(known: set<Place>, w: World) {
    forall p :: p in known ==> p.index < |JournalOf(w, p.domain)|
  }

  predicate Truthful(l: Life) {
    var w := l.now.world;
    && Placed(l.now.places, w.events, w)
    && (forall i :: 0 <= i < |l.shelf| ==> Placed(l.shelf[i].places, l.shelf[i].world.events, w))
    && (forall j :: 0 <= j < |l.all| ==> Within(l.all[j].known, w))
  }

  /** Journals are only ever appended to. */
  predicate Grew(w: World, v: World) {
    |w.root| <= |v.root| && v.root[..|w.root|] == w.root && |w.user| <= |v.user| && v.user[..|w.user|] == w.user
  }

  lemma {:induction false} GrewFurther(a: World, b: World, c: World)
    requires Grew(a, b) && Grew(b, c)
    ensures Grew(a, c)
  {
    assert c.root[..|a.root|] == c.root[..|b.root|][..|a.root|] && c.user[..|a.user|] == c.user[..|b.user|][..|a.user|];
  }

  lemma {:induction false} PlacedStays(places: seq<Place>, es: seq<Event>, w: World, v: World)
    requires Placed(places, es, w) && Grew(w, v)
    ensures Placed(places, es, v)
  {
    forall i | 0 <= i < |es| ensures Holds(v, places[i], es[i].fact) {
      assert Holds(w, places[i], es[i].fact);
      var p := places[i];
      assert JournalOf(v, p.domain)[..|JournalOf(w, p.domain)|][p.index] == JournalOf(w, p.domain)[p.index];
    }
  }

  /** Everything a life had on record stays where it was. */
  lemma {:induction false} TrueStays(l: Life, m: Life)
    requires Truthful(l) && Grew(l.now.world, m.now.world) && m.shelf == l.shelf && m.all == l.all
    requires Placed(m.now.places, m.now.world.events, m.now.world)
    ensures Truthful(m)
  {
    var w, v := l.now.world, m.now.world;
    forall i | 0 <= i < |m.shelf| ensures Placed(m.shelf[i].places, m.shelf[i].world.events, v) {
      PlacedStays(l.shelf[i].places, l.shelf[i].world.events, w, v);
    }
    forall j | 0 <= j < |m.all| ensures Within(m.all[j].known, v) { assert Within(l.all[j].known, w); }
  }

  /** `v` wrote its new decisions to one journal, in order. */
  predicate Wrote(w: World, v: World, d: Domain) {
    var n := |JournalOf(w, d)|;
    && Grew(w, v) && |w.events| <= |v.events| && v.events[..|w.events|] == w.events
    && |JournalOf(v, d)| - n == |v.events| - |w.events|
    && forall i :: |w.events| <= i < |v.events| ==> Holds(v, Place(d, n + (i - |w.events|)), v.events[i].fact)
  }

  lemma {:induction false} JournalledWrote(w: World, v: World, e: Event, d: Domain, u: World)
    requires Wrote(w, v, d) && e.decision.Decided? && e.fact.domain == d && u == Journalled(v, e)
    ensures Wrote(w, u, d)
  {
    var n := |JournalOf(w, d)|;
    assert JournalOf(u, d) == JournalOf(v, d) + [RecordOf(e)];
    assert Grew(v, u);
    GrewFurther(w, v, u);
    forall i | |w.events| <= i < |u.events| ensures Holds(u, Place(d, n + (i - |w.events|)), u.events[i].fact) {
      if i < |v.events| { assert Holds(v, Place(d, n + (i - |w.events|)), v.events[i].fact); }
    }
    assert u.events[..|w.events|] == v.events[..|w.events|];
  }

  lemma {:induction false} OfferWrote(w: World, v: World, f: Fact, d: Domain)
    requires Wrote(w, v, d)
    ensures Wrote(w, Offer(v, f, d), d)
  {
    RejectedChangesNothing(v.acceptor, f, d);
    var (st, decision) := Step(v.acceptor, f, d);
    if !decision.Rejected? {
      JournalledWrote(w, v.(acceptor := st), Event(f, decision), d, Offer(v, f, d));
    }
  }

  lemma {:induction false} PublishWrote(w: World, fs: seq<Fact>, d: Domain)
    ensures Wrote(w, Publish(w, fs, d), d)
    decreases |fs|
  {
    if fs != [] {
      PublishWrote(w, fs[..|fs| - 1], d);
      OfferWrote(w, Publish(w, fs[..|fs| - 1], d), fs[|fs| - 1], d);
    }
  }

  lemma {:induction false} PublishIsTrue(l: Life, fs: seq<Fact>, d: Domain)
    requires Truthful(l)
    ensures Truthful(Published(l, fs, d))
  {
    var m, w := Published(l, fs, d), l.now.world;
    if l.drift.None? {
      PublishWrote(w, fs, d);
      WrotePlaced(l.now.places, w, m.now.world, d);
    } else {
      PublishWrote(w.(acceptor := l.drift.value.acceptor, pending := l.drift.value.pending), fs, d);
      PlacedStays(l.now.places, w.events, w, m.now.world);
    }
    TrueStays(l, m);
  }

  lemma {:induction false} WrotePlaced(places: seq<Place>, w: World, v: World, d: Domain)
    requires Placed(places, w.events, w) && Wrote(w, v, d)
    ensures Placed(places + NewPlaces(w, v, d), v.events, v)
  {
    var all, n := places + NewPlaces(w, v, d), |w.events|;
    PlacedStays(places, w.events, w, v);
    forall i | 0 <= i < |v.events| ensures Holds(v, all[i], v.events[i].fact) {
      if i < n {
        assert v.events[..n][i] == w.events[i] && Holds(v, places[i], w.events[i].fact);
      } else {
        assert all[i] == Place(d, |JournalOf(w, d)| + (i - n));
      }
    }
  }

  lemma {:induction false} PassWithin(ch: Chapter, x: Context)
    requires Placed(ch.places, ch.world.events, ch.world)
    ensures Within(PassNow(ch, x).known, ch.world)
  {
    var front := Front(ch.places, Folded(ch.world));
    forall p | p in front ensures p.index < |JournalOf(ch.world, p.domain)| {
      var i :| 0 <= i < |front| && front[i] == p;
      assert Holds(ch.world, ch.places[i], ch.world.events[i].fact);
    }
  }

  lemma {:induction false} KeptIsTrue(l: Life, x: Context, id: nat, output: Output, m: Life)
    requires Truthful(l) && m == Kept(l, x, id, output)
    ensures Truthful(m)
  {
    PassWithin(l.now, x);
    ShelfIsTrue(l.shelf, m.now, l.now.world, m.now.world);
  }

  lemma {:induction false} NotKeptIsTrue(l: Life, x: Context, id: nat, output: Output, visible: bool, m: Life)
    requires Truthful(l) && m == NotKept(l, x, id, output, visible)
    ensures Truthful(m)
  {
    PassWithin(l.now, x);
    ShelfIsTrue(l.shelf, Next(l, x, id, output, true), l.now.world, m.now.world);
  }

  lemma {:induction false} ShelfIsTrue(shelf: seq<Chapter>, s: Chapter, w: World, v: World)
    requires forall i :: 0 <= i < |shelf| ==> Placed(shelf[i].places, shelf[i].world.events, w)
    requires Placed(s.places, s.world.events, w) && v.root == w.root && v.user == w.user
    ensures forall i :: 0 <= i < |shelf| ==> Placed(shelf[i].places, shelf[i].world.events, v)
    ensures Placed(s.places, s.world.events, v)
    ensures var more := shelf + [s]; forall i :: 0 <= i < |more| ==> Placed(more[i].places, more[i].world.events, v)
  {
    forall i | 0 <= i < |shelf| ensures Placed(shelf[i].places, shelf[i].world.events, v) {
      PlacedStays(shelf[i].places, shelf[i].world.events, w, v);
    }
    PlacedStays(s.places, s.world.events, w, v);
  }

  lemma {:induction false} TickIsTrue(l: Life, x: Context, id: nat, keeping: Keeping)
    requires Truthful(l)
    ensures Truthful(Ticked(l, x, id, keeping))
  {
    if !Adrift(l) && Reduce(TickInput(l.now.world, x)).Ok? {
      AbsorbIsTrue(l, x, id, Reduce(TickInput(l.now.world, x)).output, keeping, Ticked(l, x, id, keeping));
    }
  }

  lemma {:induction false} AbsorbIsTrue(l: Life, x: Context, id: nat, output: Output, keeping: Keeping, m: Life)
    requires Truthful(l) && m == Absorbed(l, x, id, output, keeping)
    ensures Truthful(m)
  {
    var offered := output.changed && l.accepting;
    if offered && keeping.Stored? {
      KeptIsTrue(l, x, id, output, m);
    } else {
      NotKeptIsTrue(l, x, id, output, offered && keeping.Visible?, m);
    }
  }

  lemma {:induction false} StartIsTrue(
    l: Life, s: Chapter, boot: string, st: State, again: seq<Event>, rs: seq<Record>, ps: seq<Place>)
    requires Truthful(l) && s in l.shelf && HeldAt(l.now.world, rs, ps) && FactsOf(again) == FactsIn(rs)
    ensures var ch := Resume(s, l.now.world, boot, st, again, ps); Placed(ch.places, ch.world.events, ch.world)
  {
    var ch := Resume(s, l.now.world, boot, st, again, ps);
    assert Placed(s.places, s.world.events, l.now.world);
    assert |again| == |FactsOf(again)| == |ps|;
    forall i | 0 <= i < |ch.world.events| ensures Holds(ch.world, ch.places[i], ch.world.events[i].fact) {
      var n := |s.world.events|;
      if i < n {
        assert Holds(l.now.world, s.places[i], s.world.events[i].fact);
      } else {
        assert FactsOf(again)[i - n] == FactsIn(rs)[i - n];
        assert ps[i - n].index < |JournalOf(l.now.world, ps[i - n].domain)|;
      }
    }
  }

  /** What is re-accepted is what was retained. */
  lemma {:induction false} ResumedFacts(st: State, rs: seq<Record>)
    requires Resumed(st, rs).Some?
    ensures FactsOf(Resumed(st, rs).value.1) == FactsIn(rs)
    decreases |rs|
  {
    if rs != [] {
      var most, r := rs[..|rs| - 1], rs[|rs| - 1];
      ResumedFacts(st, most);
      var p := Resumed(st, most).value;
      FactsInSnoc(rs);
      FactsOfSnoc(p.1, Event(r.fact, Step(p.0, r.fact, r.fact.domain).1));
    }
  }

  lemma {:induction false} FactsOfSnoc(es: seq<Event>, e: Event)
    ensures FactsOf(es + [e]) == FactsOf(es) + [e.fact]
  {
  }

  lemma {:induction false} RestartIsTrue(
    l: Life, boot: string, from: Option<nat>, accepts: bool, rs: seq<Record>, ps: seq<Place>)
    requires Truthful(l)
    ensures Truthful(Restarted(l, boot, from, accepts, rs, ps))
  {
    var m, w := Restarted(l, boot, from, accepts, rs, ps), l.now.world;
    if from.None? || from.value >= |l.shelf| {
      TrueStays(l, m);
    } else if m != l {
      var s := l.shelf[from.value];
      var st := RestoredState(LastSealed(s.world).snapshot);
      ResumedFacts(st, rs);
      var p := Resumed(st, rs).value;
      StartIsTrue(l, s, boot, p.0, p.1, rs, ps);
      TrueStays(l, m);
    }
  }

  lemma {:induction false} LiveIsTrue(l: Life, act: Act)
    requires Truthful(l)
    ensures Truthful(Live(l, act))
  {
    match act {
      case PublishAct(fs, domain) => PublishIsTrue(l, fs, domain);
      case LoseAppend(f, domain) =>
      case TickAct(x, id, keeping) => TickIsTrue(l, x, id, keeping);
      case StartAgain(boot, from, accepts, rs, ps) => RestartIsTrue(l, boot, from, accepts, rs, ps);
    }
  }

  /** In every life, every decision of the running history and of every checkpoint's stands for the record
      at its place, and no reduction counts a record as folded that was not written yet. */
  lemma {:induction false} EveryLifeIsTruthful(boot: string, acts: seq<Act>)
    ensures Truthful(Lived(boot, acts))
    decreases |acts|
  {
    if acts != [] {
      EveryLifeIsTruthful(boot, acts[..|acts| - 1]);
      LiveIsTrue(Lived(boot, acts[..|acts| - 1]), acts[|acts| - 1]);
    }
  }

  /** So whatever is published from now on is news to every reduction so far. */
  lemma {:induction false} PublishedIsNews(boot: string, acts: seq<Act>, fs: seq<Fact>, d: Domain, j: nat, p: Place)
    requires j < |Lived(boot, acts).all|
    requires var w := Lived(boot, acts).now.world; p in NewPlaces(w, Publish(w, fs, d), d)
    ensures p !in Lived(boot, acts).all[j].known
  {
    EveryLifeIsTruthful(boot, acts);
    assert Within(Lived(boot, acts).all[j].known, Lived(boot, acts).now.world);
  }

  // ----- No record twice -----

  predicate UpTo(ps: seq<Place>, w: World, fold: nat) {
    forall i :: 0 <= i < |ps| ==>
      ps[i].index < |JournalOf(w, ps[i].domain)| && JournalOf(w, ps[i].domain)[ps[i].index].fold <= fold
  }

  predicate ShelfUpTo(shelf: seq<Chapter>, w: World) {
    forall i :: 0 <= i < |shelf| ==> OnceEach(shelf[i].places) && UpTo(shelf[i].places, w, shelf[i].world.acceptor.fold)
  }

  /** No history holds a record twice, and a checkpoint's none from past it. */
  predicate Single(l: Life) {
    OnceEach(l.now.places) && ShelfUpTo(l.shelf, l.now.world)
  }

  lemma {:induction false} UpToStays(ps: seq<Place>, w: World, v: World, fold: nat)
    requires UpTo(ps, w, fold) && Grew(w, v)
    ensures UpTo(ps, v, fold)
  {
    forall i | 0 <= i < |ps|
      ensures ps[i].index < |JournalOf(v, ps[i].domain)| && JournalOf(v, ps[i].domain)[ps[i].index].fold <= fold
    {
      var d, n := ps[i].domain, ps[i].index;
      assert JournalOf(v, d)[..|JournalOf(w, d)|][n] == JournalOf(w, d)[n];
    }
  }

  lemma {:induction false} ShelfUpToStays(shelf: seq<Chapter>, w: World, v: World)
    requires ShelfUpTo(shelf, w) && Grew(w, v)
    ensures ShelfUpTo(shelf, v)
  {
    forall i | 0 <= i < |shelf| ensures UpTo(shelf[i].places, v, shelf[i].world.acceptor.fold) {
      UpToStays(shelf[i].places, w, v, shelf[i].world.acceptor.fold);
    }
  }

  lemma {:induction false} NewOnceEach(places: seq<Place>, es: seq<Event>, w: World, v: World, d: Domain)
    requires OnceEach(places) && Placed(places, es, w)
    ensures OnceEach(places + NewPlaces(w, v, d))
  {
    forall i | 0 <= i < |places| ensures places[i].index < |JournalOf(w, places[i].domain)| {
      assert Holds(w, places[i], es[i].fact);
    }
  }

  lemma {:induction false} PublishIsSingle(l: Life, fs: seq<Fact>, d: Domain)
    requires Placed(l.now.places, l.now.world.events, l.now.world) && Single(l) && l.drift.None?
    ensures Single(Published(l, fs, d))
  {
    var w, v := l.now.world, Publish(l.now.world, fs, d);
    PublishWrote(w, fs, d);
    NewOnceEach(l.now.places, w.events, w, v, d);
    ShelfUpToStays(l.shelf, w, v);
  }

  /** While no append is lost, everything on record is at or below the acceptor's position. */
  lemma {:induction false} NowUpTo(l: Life)
    requires Truthful(l) && JournalsFit(l.now.world.root, l.now.world.user, l.now.world.acceptor.fold)
    ensures UpTo(l.now.places, l.now.world, l.now.world.acceptor.fold)
  {
    var w := l.now.world;
    forall i | 0 <= i < |l.now.places| ensures l.now.places[i].index < |JournalOf(w, l.now.places[i].domain)| {
      assert Holds(w, l.now.places[i], w.events[i].fact);
    }
  }

  lemma {:induction false} ShelfUpToSnoc(shelf: seq<Chapter>, s: Chapter, w: World, v: World)
    requires ShelfUpTo(shelf, w) && OnceEach(s.places) && UpTo(s.places, w, s.world.acceptor.fold)
    requires v.root == w.root && v.user == w.user
    ensures ShelfUpTo(shelf + [s], v) && ShelfUpTo(shelf, v)
  {
    ShelfUpToStays(shelf, w, v);
    UpToStays(s.places, w, v, s.world.acceptor.fold);
  }

  lemma {:induction false} AbsorbIsSingle(l: Life, x: Context, id: nat, output: Output, keeping: Keeping, m: Life)
    requires Single(l) && UpTo(l.now.places, l.now.world, l.now.world.acceptor.fold)
    requires m == Absorbed(l, x, id, output, keeping)
    ensures Single(m)
  {
    ShelfUpToSnoc(l.shelf, Next(l, x, id, output, true), l.now.world, m.now.world);
  }

  lemma {:induction false} BeyondAbove(rs: seq<Record>, from: nat, r: Record)
    ensures r in Beyond(rs, from) ==> r.fold > from
  {
    if rs != [] { BeyondAbove(rs[..|rs| - 1], from, r); }
  }

  lemma {:induction false} SortedAbove(rs: seq<Record>, w: World, from: nat, i: nat)
    requires HostSorted(rs, w, from) && i < |rs|
    ensures rs[i].fold > from
  {
    var held := Beyond(w.root, from) + Beyond(w.user, from);
    assert rs[i] in multiset(rs);
    assert rs[i] in multiset(held);
    assert rs[i] in held;
    BeyondAbove(w.root, from, rs[i]);
    BeyondAbove(w.user, from, rs[i]);
  }

  lemma {:induction false} StartIsSingle(places: seq<Place>, w: World, from: nat, rs: seq<Record>, ps: seq<Place>)
    requires OnceEach(places) && UpTo(places, w, from) && HostSorted(rs, w, from) && HeldAt(w, rs, ps)
    ensures OnceEach(places + ps)
  {
    forall j | 0 <= j < |ps|
      ensures JournalOf(w, ps[j].domain)[ps[j].index].fold > from
    {
      SortedAbove(rs, w, from, j);
    }
  }

  lemma {:induction false} StartedIsSingle(
    l: Life, s: Chapter, boot: string, accepts: bool, rs: seq<Record>, ps: seq<Place>, c: nat, m: Life)
    requires Single(l) && s in l.shelf && s.world.acceptor.fold == c
    requires HostSorted(rs, l.now.world, c) && HeldAt(l.now.world, rs, ps)
    requires m.now == Started(s, l.now.world, boot, rs, ps) && m.shelf == l.shelf
    ensures Single(m)
  {
    StartIsSingle(s.places, l.now.world, c, rs, ps);
    ShelfUpToStays(l.shelf, l.now.world, m.now.world);
  }

  lemma {:induction false} FromNothingIsSingle(l: Life, boot: string, accepts: bool)
    requires Single(l)
    ensures Single(FromNothing(l, boot, accepts))
  {
    ShelfUpToStays(l.shelf, l.now.world, FromNothing(l, boot, accepts).now.world);
  }

  lemma {:induction false} CheckpointIsSingle(
    l: Life, boot: string, from: Option<nat>, accepts: bool, rs: seq<Record>, ps: seq<Place>, s: Chapter, m: Life)
    requires Sound(l) && Single(l) && from.Some? && from.value < |l.shelf| && s == l.shelf[from.value]
    requires m == Restarted(l, boot, from, accepts, rs, ps) && m != l
    ensures Single(m)
  {
    var c := WentThrough(l, boot, from, accepts, rs, ps, s, m);
    StartedIsSingle(l, s, boot, accepts, rs, ps, c, m);
  }

  lemma {:induction false} RestartIsSingle(
    l: Life, boot: string, from: Option<nat>, accepts: bool, rs: seq<Record>, ps: seq<Place>, m: Life)
    requires Sound(l) && Single(l) && m == Restarted(l, boot, from, accepts, rs, ps)
    ensures Single(m)
  {
    if from.None? || from.value >= |l.shelf| {
      FromNothingIsSingle(l, boot, accepts);
    } else if m != l {
      CheckpointIsSingle(l, boot, from, accepts, rs, ps, l.shelf[from.value], m);
    }
  }

  lemma {:induction false} WentThrough(
    l: Life, boot: string, from: Option<nat>, accepts: bool, rs: seq<Record>, ps: seq<Place>, s: Chapter, m: Life)
    returns (c: nat)
    requires Sound(l) && from.Some? && from.value < |l.shelf| && s == l.shelf[from.value]
    requires m == Restarted(l, boot, from, accepts, rs, ps) && m != l
    ensures s.world.acceptor.fold == c && HostSorted(rs, l.now.world, c) && HeldAt(l.now.world, rs, ps)
    ensures m.now == Started(s, l.now.world, boot, rs, ps) && m.shelf == l.shelf
  {
    SealedHere(l, s);
    c := LastSealed(s.world).consumedTo;
    StartIsNeverRefused(l, s, rs);
    RestartedShape(l, boot, from, accepts, rs, ps, s);
  }

  lemma {:induction false} SealedHere(l: Life, s: Chapter)
    requires Sound(l) && s in l.shelf
    ensures s.world.lineage != [] && s.world.acceptor.fold == LastSealed(s.world).consumedTo
  {
    assert Shelved(s, l.all);
    SealRestores(s, l.all);
  }

  lemma {:induction false} TickIsSingle(l: Life, x: Context, id: nat, keeping: Keeping)
    requires Single(l) && UpTo(l.now.places, l.now.world, l.now.world.acceptor.fold)
    ensures Single(Ticked(l, x, id, keeping))
  {
    if !Adrift(l) && Reduce(TickInput(l.now.world, x)).Ok? {
      AbsorbIsSingle(l, x, id, Reduce(TickInput(l.now.world, x)).output, keeping, Ticked(l, x, id, keeping));
    }
  }

  lemma {:induction false} IntactUpTo(l: Life)
    requires Sound(l) && Truthful(l) && l.intact
    ensures UpTo(l.now.places, l.now.world, l.now.world.acceptor.fold) && l.drift.None?
    ensures Placed(l.now.places, l.now.world.events, l.now.world)
  {
    NowUpTo(l);
  }

  lemma {:induction false} LostKeepsHistory(l: Life, f: Fact, domain: Domain)
    ensures Lost(l, f, domain).now == l.now && Lost(l, f, domain).shelf == l.shelf
  {
  }

  lemma {:induction false} LiveIsSingle(l: Life, act: Act)
    requires Sound(l) && Single(l) && l.drift.None? && Placed(l.now.places, l.now.world.events, l.now.world)
    requires UpTo(l.now.places, l.now.world, l.now.world.acceptor.fold)
    ensures Single(Live(l, act))
  {
    match act {
      case PublishAct(fs, domain) => PublishIsSingle(l, fs, domain);
      case LoseAppend(f, domain) => LostKeepsHistory(l, f, domain);
      case TickAct(x, id, keeping) => TickIsSingle(l, x, id, keeping);
      case StartAgain(boot, from, accepts, rs, ps) =>
        RestartIsSingle(l, boot, from, accepts, rs, ps, Restarted(l, boot, from, accepts, rs, ps));
    }
  }

  lemma {:induction false} IntactStays(l: Life, act: Act)
    requires !l.intact
    ensures !Live(l, act).intact
  {
  }

  /** In a life that lost no append no history folds a record twice, however it starts again. */
  lemma {:induction false} IntactLifeIsSingle(boot: string, acts: seq<Act>)
    requires Lived(boot, acts).intact
    ensures Single(Lived(boot, acts))
    decreases |acts|
  {
    if acts != [] {
      var l := Lived(boot, acts[..|acts| - 1]);
      if !l.intact { IntactStays(l, acts[|acts| - 1]); }
      IntactLifeIsSingle(boot, acts[..|acts| - 1]);
      EveryLifeIsSound(boot, acts[..|acts| - 1]);
      EveryLifeIsTruthful(boot, acts[..|acts| - 1]);
      IntactUpTo(l);
      LiveIsSingle(l, acts[|acts| - 1]);
    }
  }
}

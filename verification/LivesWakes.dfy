/** Ready across starts: every reduction of a life that withdrew earlier observations, those a start has
    forgotten included. */
module LivesWakes {
  import opened Facts
  import opened Acceptance
  import opened History
  import opened Reducer
  import opened Comparison
  import opened Reduction
  import opened ReductionTheorems
  import opened RuntimeModel
  import opened RuntimeTheorems
  import opened RuntimeResults
  import opened Readiness
  import opened ReplayModel
  import opened ReplayTheorems
  import opened Restart
  import opened Lives
  import opened LivesTheorems
  import opened LivesResults
  import opened LivesPlaces

  predicate ShowsReady(w: World) {
    w.snapshot.Some? && w.snapshot.value.summary.state.AggregateReady?
  }

  /** The reduction withdrew what an owner had said of this component. */
  predicate TakenBack(p: Pass, c: Component) {
    p.withdrew && TimeSensitive(c) && c in p.seen
  }

  /** Among these decisions the owner restated the component in a record that was not known. */
  predicate RestatedAmong(es: seq<Event>, ps: seq<Place>, known: set<Place>, c: Component) {
    exists i :: 0 <= i < |es| && i < |ps| && RestatesOwned(es[i]) && es[i].fact.component == c && ps[i] !in known
  }

  /** The chapter folded a restatement from a record the reduction had not folded. */
  predicate RestatedAnew(ch: Chapter, p: Pass, c: Component) {
    RestatedAmong(Front(ch.world.events, Folded(ch.world)), ch.places, p.known, c)
  }

  predicate RestatedFromPass(ch: Chapter, k: nat, c: Component)
    requires k < |ch.world.ticks|
  {
    0 <= ch.world.ticks[k].before &&
      OwnerRestatedFrom(Front(ch.world.events, Folded(ch.world)), ch.world.ticks[k].before, c)
  }

  /** Restated since reduction `j` of the life: later in the history, if the history still has it, and
      otherwise from a record it had not folded. */
  predicate RestatedSincePass(l: Life, j: nat, c: Component)
    requires j < |l.all| && |l.now.passes| == |l.now.world.ticks|
  {
    if j in l.now.passes
    then exists k :: 0 <= k < |l.now.passes| && l.now.passes[k] == j && RestatedFromPass(l.now, k, c)
    else RestatedAnew(l.now, l.all[j], c)
  }

  /** After every reduction of the life that withdrew them, components were restated. */
  predicate EveryWakeRestated(l: Life)
    requires |l.now.passes| == |l.now.world.ticks|
  {
    forall j, c :: 0 <= j < |l.all| && TakenBack(l.all[j], c) ==> RestatedSincePass(l, j, c)
  }

  /** The same of the reductions that are not in `kept`, by what `ch` has folded. */
  predicate OthersRestated(all: seq<Pass>, kept: seq<nat>, ch: Chapter) {
    forall j, c :: 0 <= j < |all| && j !in kept && TakenBack(all[j], c) ==> RestatedAnew(ch, all[j], c)
  }

  lemma {:induction false} KeptIsRestated(l: Life, k: nat, c: Component)
    requires Faithful(l.now, l.all) && ShowsReady(l.now.world) && k < |l.now.passes|
    requires TakenBack(l.all[l.now.passes[k]], c)
    ensures RestatedFromPass(l.now, k, c)
  {
    var w := l.now.world;
    BeganFolded(w, k);
    ReadyWakeHonoured(w, k, c);
    FrontStays(w.events, w.events, Folded(w), w.ticks[k].before);
    var es, n := w.events[..Folded(w)], w.ticks[k].before;
    assert es[..n] == w.events[..n];
    assert RestatedSince(es, w.ticks[k], c);
  }

  /** Where ready is shown, what the history still has is restated; so all is, exactly when what starts
      have forgotten is. */
  lemma {:induction false} WakesExactly(l: Life)
    requires Faithful(l.now, l.all) && ShowsReady(l.now.world)
    ensures EveryWakeRestated(l) <==> OthersRestated(l.all, l.now.passes, l.now)
  {
    forall j, c | 0 <= j < |l.all| && TakenBack(l.all[j], c) && j in l.now.passes ensures RestatedSincePass(l, j, c) {
      var k :| 0 <= k < |l.now.passes| && l.now.passes[k] == j;
      KeptIsRestated(l, k, c);
    }
  }

  /** Never guessed healthy, in any life: a snapshot that says ready is grounded in what owners said; and
      every component any reduction of the life ever withdrew was restated since, exactly when
      those withdrawn by reductions that a start has forgotten are restated by records they had not seen. */
  lemma {:induction false} NeverGuessedHealthy(boot: string, acts: seq<Act>)
    requires ShowsReady(Lived(boot, acts).now.world)
    ensures Grounded(Lived(boot, acts).now.world)
    ensures |Lived(boot, acts).now.passes| == |Lived(boot, acts).now.world.ticks|
    ensures var l := Lived(boot, acts); EveryWakeRestated(l) <==> OthersRestated(l.all, l.now.passes, l.now)
  {
    var l := Lived(boot, acts);
    EveryLifeIsSound(boot, acts);
    ReadyIsGrounded(l.now.world, l.now.start);
    WakesExactly(l);
  }

  lemma {:induction false} LaterIsNews(ps: seq<Place>, n: nat, i: nat)
    requires OnceEach(ps) && n <= i < |ps|
    ensures ps[i] !in Known(ps[..n])
  {
  }

  /** Where no record is folded twice, a restatement later in the history is one from a record the
      reduction had not folded. */
  lemma {:induction false} KeptIsNews(l: Life, k: nat, c: Component)
    requires Faithful(l.now, l.all) && OnceEach(l.now.places) && k < |l.now.passes| && RestatedFromPass(l.now, k, c)
    ensures RestatedAnew(l.now, l.all[l.now.passes[k]], c)
  {
    var w, n := l.now.world, l.now.world.ticks[k].before;
    BeganFolded(w, k);
    var es := Front(w.events, Folded(w));
    var i :| n <= i < |es| && RestatesOwned(es[i]) && es[i].fact.component == c;
    LaterIsNews(l.now.places, n, i);
    assert l.all[l.now.passes[k]].known == Known(l.now.places[..n]);
  }

  /** In a life that lost no append the same holds record by record: each component any reduction ever
      withdrew is restated by a record which that reduction had not folded, exactly when this is so
      of the reductions that starts have forgotten. */
  lemma {:induction false} RestatedByNewsExactly(boot: string, acts: seq<Act>)
    requires Lived(boot, acts).intact && ShowsReady(Lived(boot, acts).now.world)
    ensures var l := Lived(boot, acts); OthersRestated(l.all, [], l.now) <==> OthersRestated(l.all, l.now.passes, l.now)
  {
    var l := Lived(boot, acts);
    EveryLifeIsSound(boot, acts);
    IntactLifeIsSingle(boot, acts);
    NewsExactly(l);
  }

  lemma {:induction false} NewsExactly(l: Life)
    requires Faithful(l.now, l.all) && OnceEach(l.now.places) && ShowsReady(l.now.world)
    ensures OthersRestated(l.all, [], l.now) <==> OthersRestated(l.all, l.now.passes, l.now)
  {
    forall j, c | 0 <= j < |l.all| && TakenBack(l.all[j], c) && j in l.now.passes
      ensures RestatedAnew(l.now, l.all[j], c) {
      var k :| 0 <= k < |l.now.passes| && l.now.passes[k] == j;
      KeptIsRestated(l, k, c);
      KeptIsNews(l, k, c);
    }
  }

  // ----- A start -----

  /** Reductions since the checkpoint had folded everything it rests on. */
  lemma {:induction false} KnewSeal(l: Life, s: Chapter, k: nat)
    requires Faithful(l.now, l.all) && Continuing(l.now, s) && |s.places| == |s.world.events|
    requires |s.passes| <= k < |l.now.passes|
    ensures Known(s.places) <= l.all[l.now.passes[k]].known
  {
    var b := l.now.world.ticks[k].before;
    BeganFolded(l.now.world, k);
    KnownGrows(s.places, l.now.places, b);
  }

  lemma {:induction false} KnownGrows(a: seq<Place>, b: seq<Place>, n: nat)
    requires |a| <= n <= |b| && b[..|a|] == a
    ensures Known(a) <= Known(Front(b, n))
  {
    forall p | p in a ensures p in b[..n] {
      var i :| 0 <= i < |a| && a[i] == p;
      assert b[..|a|][i] == b[..n][i];
    }
  }

  lemma {:induction false} SawSeal(l: Life, s: Chapter, k: nat, c: Component)
    requires Faithful(l.now, l.all) && Continuing(l.now, s) && |s.passes| <= k < |l.now.passes|
    requires LastOwned(s.world.events, c).Some?
    ensures c in l.all[l.now.passes[k]].seen
  {
    BeganFolded(l.now.world, k);
    OwnedInFront(s.world.events, l.now.world.events, l.now.world.ticks[k].before, c);
  }

  lemma {:induction false} OwnedInFront(a: seq<Event>, b: seq<Event>, n: nat, c: Component)
    requires |a| <= n <= |b| && b[..|a|] == a && LastOwned(a, c).Some?
    ensures c in SeenBy(Front(b, n))
  {
    assert b[..n] == a + b[|a|..n];
    OwnedStays(a, b[|a|..n], c);
  }

  lemma {:induction false} OwnedStays(a: seq<Event>, b: seq<Event>, c: Component)
    requires LastOwned(a, c).Some?
    ensures LastOwned(a + b, c).Some?
    decreases |b|
  {
    if b == [] {
      assert a + b == a;
    } else {
      OwnedStays(a, b[..|b| - 1], c);
      assert a + b == (a + b[..|b| - 1]) + [b[|b| - 1]];
      LastOwnedSnoc(a + b[..|b| - 1], b[|b| - 1], c);
    }
  }

  /** No reduction since the checkpoint withdrew anything. */
  predicate NoneWithdrewSince(l: Life, s: Chapter) {
    forall k :: |s.passes| <= k < |l.now.passes| && l.now.passes[k] < |l.all| ==> !l.all[l.now.passes[k]].withdrew
  }

  /** Reduction `k` of the running chapter withdrew what an owner had said of this component. */
  predicate TakenBackAt(l: Life, k: int, c: Component) {
    0 <= k < |l.now.passes| && l.now.passes[k] < |l.all| && TakenBack(l.all[l.now.passes[k]], c)
  }

  /** Everything reductions since the checkpoint withdrew is restated among these decisions. */
  predicate RestatedSinceSeal(l: Life, s: Chapter, es: seq<Event>, ps: seq<Place>) {
    forall k, c :: |s.passes| <= k < |l.now.passes| && TakenBackAt(l, k, c) ==>
      RestatedAmong(es, ps, l.all[l.now.passes[k]].known, c)
  }

  /** Past a part that was all known, only the rest can restate. */
  lemma {:induction false} OnlyTheRest(
    a: seq<Event>, b: seq<Event>, pa: seq<Place>, pb: seq<Place>, known: set<Place>, c: Component)
    requires |a| == |pa| && |b| == |pb| && Known(pa) <= known
    ensures RestatedAmong(a + b, pa + pb, known, c) <==> RestatedAmong(b, pb, known, c)
  {
    forall i | 0 <= i < |pa| ensures pa[i] in known { assert pa[i] in Known(pa); }
    if RestatedAmong(b, pb, known, c) {
      var i :| 0 <= i < |b| && i < |pb| && RestatesOwned(b[i]) && b[i].fact.component == c && pb[i] !in known;
      assert (a + b)[|a| + i] == b[i] && (pa + pb)[|a| + i] == pb[i];
    }
    if RestatedAmong(a + b, pa + pb, known, c) {
      var i :| 0 <= i < |a + b| && RestatesOwned((a + b)[i]) && (a + b)[i].fact.component == c &&
        (pa + pb)[i] !in known;
      assert i >= |a|;
      assert b[i - |a|] == (a + b)[i] && pb[i - |a|] == (pa + pb)[i];
    }
  }

  /** Where a reduction of the life is: in the checkpoint's chapter, since, or forgotten before. */
  lemma {:induction false} WhereItIs(ks: seq<nat>, kept: seq<nat>, j: nat)
    requires Numbered(ks) && |kept| <= |ks| && ks[..|kept|] == kept
    ensures j in kept ==> j in ks
    ensures j in ks && j !in kept <==> exists k :: |kept| <= k < |ks| && ks[k] == j
  {
    forall i | 0 <= i < |kept| ensures kept[i] == ks[i] { assert ks[..|kept|][i] == ks[i]; }
    if j in ks && j !in kept {
      var k :| 0 <= k < |ks| && ks[k] == j;
      assert k >= |kept|;
    }
  }

  /** What the reductions outside the checkpoint ask of a chapter that continues it: those since, and
      those forgotten before, apart. */
  lemma {:induction false} OthersSplit(l: Life, s: Chapter, ch: Chapter, es: seq<Event>, ps: seq<Place>)
    requires Faithful(l.now, l.all) && Continuing(l.now, s) && |s.places| == |s.world.events|
    requires Front(ch.world.events, Folded(ch.world)) == s.world.events + es && |ps| == |es|
    requires ch.places == s.places + ps
    ensures OthersRestated(l.all, s.passes, ch) <==>
      RestatedSinceSeal(l, s, es, ps) && OthersRestated(l.all, l.now.passes, ch)
  {
    forall k, c | |s.passes| <= k < |l.now.passes| && TakenBackAt(l, k, c)
      ensures RestatedAnew(ch, l.all[l.now.passes[k]], c) <==> RestatedAmong(es, ps, l.all[l.now.passes[k]].known, c)
    {
      KnewSeal(l, s, k);
      OnlyTheRest(s.world.events, es, s.places, ps, l.all[l.now.passes[k]].known, c);
    }
    forall j: nat ensures j in s.passes ==> j in l.now.passes
      ensures j in l.now.passes && j !in s.passes <==>
        exists k :: |s.passes| <= k < |l.now.passes| && l.now.passes[k] == j
    {
      WhereItIs(l.now.passes, s.passes, j);
    }
  }

  // ----- Exactly when a start keeps it -----

  /** A start from the checkpoint the runtime continues. */
  predicate StartsFrom(m: Life, l: Life, s: Chapter, rs: seq<Record>, ps: seq<Place>, boot: string) {
    && l.anchor == Some(s) && |ps| == |rs| && m.all == l.all
    && m.now == Started(s, l.now.world, boot, rs, ps)
  }

  lemma {:induction false} StartFound(
    l: Life, boot: string, from: nat, accepts: bool, rs: seq<Record>, ps: seq<Place>, m: Life, s: Chapter)
    requires Sound(l) && Offered(l, from, rs, ps) && l.anchor == Some(s) && s == l.shelf[from]
    requires m == Restarted(l, boot, Some(from), accepts, rs, ps)
    ensures StartsFrom(m, l, s, rs, ps, boot) && Sound(m) && Shelved(s, l.all) && Continuing(l.now, s) && m.drift.None?
  {
    StartIsNeverRefused(l, s, rs);
    RestartedShape(l, boot, Some(from), accepts, rs, ps, s);
    StartedIsSound(l, m, s, boot, rs, ps);
  }

  lemma {:induction false} StartedParts(
    s: Chapter, w: World, boot: string, rs: seq<Record>, ps: seq<Place>, ch: Chapter)
    requires s.world.pending == [] && |ps| == |rs| && ch == Started(s, w, boot, rs, ps)
    ensures ch.places == s.places + ps && ch.passes == s.passes && |ch.world.pending| == |ps|
    ensures ch.world.snapshot == s.world.snapshot && ch.world.ticks == s.world.ticks
    ensures ch.world.events == s.world.events + ch.world.pending
    ensures Front(ch.world.events, Folded(ch.world)) == s.world.events
  {
    FactsOfRun(s.world.acceptor, FactsIn(rs));
    assert |ch.world.pending| == |rs|;
    assert ch.world.events[..|s.world.events|] == s.world.events;
  }

  lemma {:induction false} SameAnew(ch: Chapter, s: Chapter, ps: seq<Place>, p: Pass, c: Component)
    requires |s.places| == |s.world.events| && ch.places == s.places + ps && s.world.pending == []
    requires Front(ch.world.events, Folded(ch.world)) == s.world.events
    ensures RestatedAnew(ch, p, c) <==> RestatedAnew(s, p, c)
  {
    var es := s.world.events;
    assert Front(es, Folded(s.world)) == es;
    forall i | 0 <= i < |es| ensures ch.places[i] == s.places[i] {}
  }

  lemma {:induction false} TakesBackDns(l: Life, s: Chapter, k: nat)
    requires Faithful(l.now, l.all) && Continuing(l.now, s) && Shelved(s, l.all) && ShowsReady(s.world)
    requires |s.passes| <= k < |l.now.passes| && l.all[l.now.passes[k]].withdrew
    ensures TakenBackAt(l, k, Dns)
  {
    assert s.world.events[..Folded(s.world)] == s.world.events;
    ReadyIsVouched(s.world, Dns);
    SawSeal(l, s, k, Dns);
  }

  lemma {:induction false} NothingAsked(l: Life, s: Chapter)
    requires NoneWithdrewSince(l, s)
    ensures RestatedSinceSeal(l, s, [], [])
  {
  }

  lemma {:induction false} SomethingAsked(l: Life, s: Chapter, k: nat, c: Component)
    requires |s.passes| <= k && TakenBackAt(l, k, c)
    ensures !RestatedSinceSeal(l, s, [], [])
  {
    assert !RestatedAmong([], [], l.all[l.now.passes[k]].known, c);
  }

  /** A ready checkpoint leaves nothing for reductions since to withdraw without being noticed. */
  lemma {:induction false} ReadySealAsks(l: Life, s: Chapter)
    requires Faithful(l.now, l.all) && Continuing(l.now, s) && Shelved(s, l.all) && ShowsReady(s.world)
    ensures RestatedSinceSeal(l, s, [], []) <==> NoneWithdrewSince(l, s)
  {
    if NoneWithdrewSince(l, s) {
      NothingAsked(l, s);
    } else {
      var k :| |s.passes| <= k < |l.now.passes| && l.now.passes[k] < |l.all| && l.all[l.now.passes[k]].withdrew;
      TakesBackDns(l, s, k);
      SomethingAsked(l, s, k, Dns);
    }
  }

  /** A start from a ready checkpoint shows ready again, and every wake and reboot of the life is then still
      answered for exactly when no reduction since the checkpoint withdrew anything, and what
      earlier starts had forgotten is restated in what the checkpoint folded. */
  lemma {:induction false} StartKeepsWakesExactly(
    l: Life, boot: string, from: nat, accepts: bool, rs: seq<Record>, ps: seq<Place>, m: Life, s: Chapter)
    requires Sound(l) && Offered(l, from, rs, ps) && l.anchor == Some(s) && s == l.shelf[from] && ShowsReady(s.world)
    requires m == Restarted(l, boot, Some(from), accepts, rs, ps)
    ensures ShowsReady(m.now.world) && |m.now.passes| == |m.now.world.ticks|
    ensures EveryWakeRestated(m) <==> NoneWithdrewSince(l, s) && OthersRestated(l.all, l.now.passes, s)
  {
    StartFound(l, boot, from, accepts, rs, ps, m, s);
    StartedParts(s, l.now.world, boot, rs, ps, m.now);
    WakesExactly(m);
    ReadySealAsks(l, s);
    AtStart(l, s, m.now, ps);
  }

  lemma {:induction false} AtStart(l: Life, s: Chapter, ch: Chapter, ps: seq<Place>)
    requires Faithful(l.now, l.all) && Continuing(l.now, s) && |s.places| == |s.world.events| && s.world.pending == []
    requires ch.places == s.places + ps && Front(ch.world.events, Folded(ch.world)) == s.world.events
    ensures OthersRestated(l.all, s.passes, ch) <==>
      RestatedSinceSeal(l, s, [], []) && OthersRestated(l.all, l.now.passes, s)
  {
    assert s.world.events + [] == s.world.events && s.places + [] == s.places;
    assert Front(s.world.events, Folded(s.world)) == s.world.events;
    OthersSplit(l, s, s, [], []);
    forall j, c | 0 <= j < |l.all| ensures RestatedAnew(ch, l.all[j], c) <==> RestatedAnew(s, l.all[j], c) {
      SameAnew(ch, s, ps, l.all[j], c);
    }
  }

  /** One more reduction, kept, changes nothing for the others. */
  lemma {:induction false} OthersWithOne(all: seq<Pass>, p: Pass, kept: seq<nat>, ch: Chapter)
    ensures OthersRestated(all + [p], kept + [|all|], ch) <==> OthersRestated(all, kept, ch)
  {
    var more, ks := all + [p], kept + [|all|];
    forall j: nat | j < |all| ensures j in ks <==> j in kept {}
    assert ks[|kept|] == |all|;
    if OthersRestated(more, ks, ch) {
      forall j, c | 0 <= j < |all| && j !in kept && TakenBack(all[j], c) ensures RestatedAnew(ch, all[j], c) {
        assert more[j] == all[j];
      }
    }
    if OthersRestated(all, kept, ch) {
      forall j, c | 0 <= j < |more| && j !in ks && TakenBack(more[j], c) ensures RestatedAnew(ch, more[j], c) {
        assert j != |all| && more[j] == all[j];
      }
    }
  }

  lemma {:induction false} AbsorbedParts(m: Life, x: Context, id: nat, output: Output, keeping: Keeping, n: Life)
    requires n == Absorbed(m, x, id, output, keeping)
    ensures n.all == m.all + [PassNow(m.now, x)] && n.now.passes == m.now.passes + [|m.all|]
    ensures n.now.places == m.now.places
    ensures n.now.world.events == m.now.world.events == Front(n.now.world.events, Folded(n.now.world))
    ensures Beside(n, m) && (keeping.Unstored? ==> n.anchor == m.anchor && n.shelf == m.shelf)
  {
    var es := m.now.world.events;
    assert es[..|es|] == es;
  }

  lemma {:induction false} TickedParts(m: Life, x: Context, id: nat, keeping: Keeping, n: Life)
    requires !Adrift(m) && Reduce(TickInput(m.now.world, x)).Ok? && n == Ticked(m, x, id, keeping)
    ensures n.all == m.all + [PassNow(m.now, x)] && n.now.passes == m.now.passes + [|m.all|]
    ensures n.now.places == m.now.places
    ensures n.now.world.events == m.now.world.events == Front(n.now.world.events, Folded(n.now.world))
    ensures Beside(n, m) && (keeping.Unstored? ==> n.anchor == m.anchor && n.shelf == m.shelf)
  {
    AbsorbedParts(m, x, id, Reduce(TickInput(m.now.world, x)).output, keeping, n);
  }

  /** After the first reduction that follows a start, ready answers for every wake and reboot of the life
      exactly when each component withdrawn since the checkpoint is restated by a re-accepted
      record that the withdrawing reduction had not folded, and what earlier starts had forgotten is. */
  lemma {:induction false} FirstTickKeepsWakesExactly(
    l: Life, boot: string, from: nat, accepts: bool, rs: seq<Record>, ps: seq<Place>, m: Life, s: Chapter,
    x: Context, id: nat, keeping: Keeping, n: Life)
    requires Sound(l) && Offered(l, from, rs, ps) && l.anchor == Some(s) && s == l.shelf[from]
    requires m == Restarted(l, boot, Some(from), accepts, rs, ps)
    requires Reduce(TickInput(m.now.world, x)).Ok? && n == Ticked(m, x, id, keeping) && ShowsReady(n.now.world)
    ensures |n.now.passes| == |n.now.world.ticks| && FactsOf(m.now.world.pending) == FactsIn(rs)
    ensures EveryWakeRestated(n) <==>
      RestatedSinceSeal(l, s, m.now.world.pending, ps) && OthersRestated(l.all, l.now.passes, n.now)
  {
    StartFound(l, boot, from, accepts, rs, ps, m, s);
    FactsOfRun(s.world.acceptor, FactsIn(rs));
    StartedParts(s, l.now.world, boot, rs, ps, m.now);
    TickKeepsSound(m, x, id, keeping);
    WakesExactly(n);
    TickedParts(m, x, id, keeping, n);
    OthersWithOne(m.all, PassNow(m.now, x), m.now.passes, n.now);
    OthersSplit(l, s, n.now, m.now.world.pending, ps);
  }

  // ----- The run that defeats it -----

  /** Any life that has just sealed a ready snapshot: the host wakes, the reduction that hears of it cannot be
      stored, and the runtime starts again in the same boot.  It shows ready, and nothing was
      restated since the wake. */
  lemma {:induction false} WakeIsForgotten(
    l: Life, x: Context, id: nat, n: Life, from: nat, accepts: bool, rs: seq<Record>, ps: seq<Place>, m: Life)
    requires Sound(l) && !Adrift(l) && l.anchor == Some(l.now) && ShowsReady(l.now.world)
    requires x.wake.Some? && Reduce(TickInput(l.now.world, x)).Ok? && n == Ticked(l, x, id, Unstored)
    requires Offered(n, from, rs, ps) && n.shelf[from] == l.now
    requires m == Restarted(n, l.now.world.boot, Some(from), accepts, rs, ps)
    ensures m.now.world.snapshot == l.now.world.snapshot && m.now.world.boot == l.now.world.boot
    ensures ShowsReady(m.now.world)
    ensures |m.now.passes| == |m.now.world.ticks| && !EveryWakeRestated(m)
  {
    TickKeepsSound(l, x, id, Unstored);
    TickedParts(l, x, id, Unstored, n);
    StartFound(n, l.now.world.boot, from, accepts, rs, ps, m, l.now);
    StartedParts(l.now, n.now.world, l.now.world.boot, rs, ps, m.now);
    StartKeepsWakesExactly(n, l.now.world.boot, from, accepts, rs, ps, m, l.now);
    WithdrewSince(l.all, PassNow(l.now, x), l.now.passes, n, l.now);
  }

  lemma {:induction false} WithdrewSince(all: seq<Pass>, p: Pass, kept: seq<nat>, n: Life, s: Chapter)
    requires n.all == all + [p] && n.now.passes == kept + [|all|] && s.passes == kept && p.withdrew
    ensures !NoneWithdrewSince(n, s)
  {
    assert n.now.passes[|kept|] == |all| && n.all[|all|] == p;
  }
}

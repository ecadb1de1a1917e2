/** One concrete life: every owner says ready, the host sleeps and wakes, the reduction that hears of it
    cannot be stored, and the runtime starts again showing ready. */
module ForgottenRun {
  import opened Facts
  import opened Acceptance
  import opened History
  import opened AcceptorTheorems
  import opened Reducer
  import opened Comparison
  import opened Reduction
  import opened ReductionTheorems
  import opened ReductionResults
  import opened RuntimeModel
  import opened RuntimeTheorems
  import opened RuntimeResults
  import opened Readiness
  import opened ReplayModel
  import opened ReplayTheorems
  import opened JournalModel
  import opened Restart
  import opened Lives
  import opened LivesTheorems
  import opened LivesResults
  import opened LivesWakes

  const SPOKEN: seq<Component> :=
    [PhysicalNetwork, DefaultPath, Dns, ScopedRoutes, Transports, Relays, UserAccess, SessionExpiry]

  /** How many of them belong to the root domain. */
  const ROOTS: nat := 6

  function Shown(c: Component): Payload {
    match c
    case PhysicalNetwork => LinkPayload(1, 0)
    case DefaultPath => PathPayload(1, 0)
    case Dns => DnsPayload(1, 0)
    case ScopedRoutes => RoutesPayload(1, 0)
    case Transports => TransportsPayload(1, 0)
    case Relays => RelaysPayload(1, 1, 0)
    case UserAccess => AccessPayload(1, 0)
    case SessionExpiry => SessionPayload(1, 0)
  }

  /** What a component's owner says of it; one owner speaks twice. */
  function Word(c: Component): Fact {
    Fact(OwnerDomain(c), c, Owner(c), "b", if c.DefaultPath? then 2 else 1, 1, 100, Ready, "ok", true, Shown(c),
      NameRank(c))
  }

  function Words(lo: nat, hi: nat): seq<Fact>
    requires lo <= hi <= |SPOKEN|
  {
    seq(hi - lo, i requires 0 <= i < hi - lo => Word(SPOKEN[lo + i]))
  }

  function Clock(tick: int, wake: Option<int>): Context {
    Context("b", tick, wake, Policy(false, false, false, 0, 0, 0, ""), [])
  }

  // ----- Everything is accepted -----

  predicate Among(id: SourceId, n: int) {
    exists i :: 0 <= i < n && i < |SPOKEN| && Owner(SPOKEN[i]) == id
  }

  predicate CleanSources(st: State, n: nat) {
    forall id :: id in st.sources ==>
      && WholeStream(st.sources[id]) && st.sources[id].boot == "b" && Among(id, n)
      && (id.RootNetwork? ==> st.sources[id].last == if n >= 2 then 2 else 1)
  }

  predicate Spoke(e: Event, c: Component) {
    IsAccepted(e) && e.decision.role.Authoritative? && e.fact == Word(c)
  }

  predicate CleanWorld(w: World, n: nat) {
    && n <= |SPOKEN| && |w.events| == n && w.boot == "b" && w.snapshot.None?
    && CleanSources(w.acceptor, n)
    && forall i :: 0 <= i < n ==> Spoke(w.events[i], SPOKEN[i])
  }

  lemma {:induction false} OneOwnerEach(n: nat)
    requires 2 <= n < |SPOKEN|
    ensures !Among(Owner(SPOKEN[n]), n) && !Owner(SPOKEN[n]).RootNetwork?
  {
  }

  /** The next fact of a whole stream is accepted and leaves it whole. */
  lemma {:induction false} StepWhole(st: State, f: Fact, c: Component)
    requires f == Word(c) && WholeStream(Entering(st, f)) && Entering(st, f).boot == "b"
    requires f.sequence > Entering(st, f).last && !OpensGap(Entering(st, f), f)
    ensures var (after, d) := Step(st, f, f.domain);
      && Spoke(Event(f, d), c) && f.source in after.sources &&
        after.sources == st.sources[f.source := after.sources[f.source]]
      && WholeStream(after.sources[f.source]) && after.sources[f.source].boot == "b" &&
        after.sources[f.source].last == f.sequence
  {
  }

  lemma {:induction false} StepClean(st: State, n: nat, f: Fact)
    requires n < |SPOKEN| && CleanSources(st, n) && f == Word(SPOKEN[n])
    ensures var (after, d) := Step(st, f, f.domain); Spoke(Event(f, d), SPOKEN[n]) && CleanSources(after, n + 1)
  {
    if n >= 2 { OneOwnerEach(n); }
    StepWhole(st, f, SPOKEN[n]);
    var after := Step(st, f, f.domain).0;
    forall id | id in after.sources
      ensures WholeStream(after.sources[id]) && after.sources[id].boot == "b" && Among(id, n + 1)
      ensures id.RootNetwork? ==> after.sources[id].last == if n + 1 >= 2 then 2 else 1
    {
      if id == f.source {
        assert Owner(SPOKEN[n]) == id;
      } else {
        var i :| 0 <= i < n && i < |SPOKEN| && Owner(SPOKEN[i]) == id;
        assert 0 <= i < n + 1;
      }
    }
  }

  lemma {:induction false} JournalledClean(w: World, st: State, e: Event, n: nat)
    requires n < |SPOKEN| && CleanWorld(w, n) && Spoke(e, SPOKEN[n]) && CleanSources(st, n + 1)
    ensures CleanWorld(Journalled(w.(acceptor := st), e), n + 1)
  {
  }

  lemma {:induction false} OfferIs(w: World, f: Fact, domain: Domain, st: State, d: Decision)
    requires Step(w.acceptor, f, domain) == (st, d) && d.Decided?
    ensures Offer(w, f, domain) == Journalled(w.(acceptor := st), Event(f, d))
  {
  }

  lemma {:induction false} OfferClean(w: World, n: nat, f: Fact)
    requires n < |SPOKEN| && CleanWorld(w, n) && f == Word(SPOKEN[n])
    ensures CleanWorld(Offer(w, f, f.domain), n + 1)
  {
    StepClean(w.acceptor, n, f);
    var (st, d) := Step(w.acceptor, f, f.domain);
    OfferIs(w, f, f.domain, st, d);
    JournalledClean(w, st, Event(f, d), n);
  }

  predicate Belong(lo: nat, hi: nat, domain: Domain) {
    forall i :: lo <= i < hi && i < |SPOKEN| ==> OwnerDomain(SPOKEN[i]) == domain
  }

  lemma {:induction false} PublishClean(w: World, lo: nat, hi: nat, domain: Domain)
    requires lo <= hi <= |SPOKEN| && CleanWorld(w, lo)
    requires Belong(lo, hi, domain)
    ensures CleanWorld(Publish(w, Words(lo, hi), domain), hi)
    decreases hi
  {
    if lo < hi {
      PublishClean(w, lo, hi - 1, domain);
      var v, f := Publish(w, Words(lo, hi - 1), domain), Word(SPOKEN[hi - 1]);
      OfferClean(v, hi - 1, f);
      WordsSnoc(lo, hi);
      PublishMore(w, Words(lo, hi), domain, Words(lo, hi - 1), f);
    }
  }

  lemma {:induction false} WordsSnoc(lo: nat, hi: nat)
    requires lo < hi <= |SPOKEN|
    ensures Words(lo, hi) == Words(lo, hi - 1) + [Word(SPOKEN[hi - 1])]
  {
  }

  lemma {:induction false} PublishMore(w: World, fs: seq<Fact>, domain: Domain, most: seq<Fact>, f: Fact)
    requires fs == most + [f]
    ensures Publish(w, fs, domain) == Offer(Publish(w, most, domain), f, domain)
  {
    assert fs[..|fs| - 1] == most;
  }

  // ----- The first reduction says ready -----

  lemma {:induction false} OwnedByOne(es: seq<Event>, c: Component, i: nat)
    requires i < |es| && SpeaksForOwner(es[i], c)
    requires forall k :: 0 <= k < |es| && SpeaksForOwner(es[k], c) ==> es[k].fact == Word(c)
    ensures LastOwned(es, c).Some? && LastOwned(es, c).value.fact == Word(c)
    decreases |es|
  {
    var most := es[..|es| - 1];
    if !SpeaksForOwner(es[|es| - 1], c) {
      assert es[i] == most[i];
      OwnedByOne(most, c, i);
    }
  }

  function Turn(c: Component): (i: nat)
    ensures i < |SPOKEN| && SPOKEN[i] == c
  {
    match c
    case PhysicalNetwork => 0
    case DefaultPath => 1
    case Dns => 2
    case ScopedRoutes => 3
    case Transports => 4
    case Relays => 5
    case UserAccess => 6
    case SessionExpiry => 7
  }

  lemma {:induction false} EveryoneSpoke(w: World, c: Component)
    requires CleanWorld(w, |SPOKEN|)
    ensures LastOwned(w.events, c).Some? && LastOwned(w.events, c).value.fact == Word(c)
  {
    var i := Turn(c);
    assert Spoke(w.events[i], SPOKEN[i]);
    forall k | 0 <= k < |w.events| && SpeaksForOwner(w.events[k], c) ensures w.events[k].fact == Word(c) {
      assert Spoke(w.events[k], SPOKEN[k]);
    }
    OwnedByOne(w.events, c, i);
  }

  lemma {:induction false} FirstReduction(input: Input)
    requires Reduce(input).Ok? && input.prior.None?
    ensures var o := Reduce(input).output;
      o.changed && o.snapshot.boot == input.context.boot && o.snapshot.tick == input.context.tick
  {
    ReducedShape(input);
  }

  /** Nothing was withdrawn yet. */
  lemma {:induction false} NothingHeldStale(input: Input, c: Component)
    requires Reduce(input).Ok? && input.prior.None? && input.context.wake.None?
    ensures Complete(Reduce(input).output.snapshot) && !Reduce(input).output.snapshot.components[c].evidence.rebaseline
  {
    ReductionReduced(input);
    NeverStale(input, Reduce(input).output.snapshot, c);
  }

  lemma {:induction false} NeverStale(input: Input, after: Snapshot, c: Component)
    requires Readiness.Reduced(input, after) && input.prior.None? && input.context.wake.None?
    ensures !after.components[c].evidence.rebaseline
  {
    FoldRebaseline(StartTables(input), input.events, c);
    var t := Fold(StartTables(input), input.events).value;
    MarkedComponent(t, Readiness.Withdrawn(input) - Baselined(input.events), c);
  }

  /** An honest snapshot is ready when every owner said so of this boot, within the deadline, nothing is
      held stale and every source's stream is whole. */
  lemma {:induction false} ReadyWhen(w: World, start: State)
    requires Inv(w, start) && Honest(w) && w.snapshot.Some? && w.pending == []
    requires forall id :: id in w.acceptor.sources ==> WholeStream(w.acceptor.sources[id])
    requires forall c: Component :: VouchedFor(w.events, c, w.snapshot.value.boot, w.snapshot.value.tick)
    requires forall c: Component :: !w.snapshot.value.components[c].evidence.rebaseline
    ensures ShowsReady(w)
  {
    var s := w.snapshot.value;
    assert w.events[..Folded(w)] == w.events;
    RestoredIsLive(w, start, []);
    forall id | id in s.sources
      ensures WholeStream(s.sources[id].state)
    {
      assert RestoredState(s).sources[id] == s.sources[id].state;
    }
    forall c: Component ensures s.components[c].state.StateReady? || s.components[c].state.StateNotApplicable? {
      assert VouchedFor(w.events, c, s.boot, s.tick);
      SettledMeansCurrent(s.components[c].evidence, s.components[c].conflicts, s.boot, s.tick);
    }
    ReadyMeansWhole(s.components, s.sources);
  }

  lemma {:induction false} FirstTickIsReady(l: Life, x: Context, m: Life)
    requires Sound(l) && l.drift.None? && l.accepting && CleanWorld(l.now.world, |SPOKEN|)
    requires x == Clock(1, None) && m == Ticked(l, x, 1, Stored)
    ensures Sound(m) && m.anchor == Some(m.now) && m.shelf == l.shelf + [m.now] && m.drift.None? && m.intact == l.intact
    ensures ShowsReady(m.now.world) && m.now.world.boot == "b" && m.now.world.snapshot.value.tick == 1
    ensures m.now.world.snapshot.value.boot == "b"
  {
    TickKeepsSound(l, x, 1, Stored);
    TickGoes(l.now.world, l.now.start, x);
    var output := Reduce(TickInput(l.now.world, x)).output;
    assert m == Kept(l, x, 1, output) by { FirstReduction(TickInput(l.now.world, x)); }
    TickedIsReady(l.now.world, m.now.world, m.now.start, output);
  }

  lemma {:induction false} TickGoes(w: World, start: State, x: Context)
    requires Inv(w, start) && w.boot == "b" && (x == Clock(1, None) || x == Clock(2, Some(1)))
    requires w.snapshot.Some? ==> w.snapshot.value.tick <= x.tick
    ensures Reduce(TickInput(w, x)).Ok?
  {
    TickSucceeds(w, start, x);
  }

  lemma {:induction false} TickedIsReady(w: World, v: World, start: State, output: Output)
    requires CleanWorld(w, |SPOKEN|) && Reduce(TickInput(w, Clock(1, None))) == Ok(output)
    requires Inv(v, start) && Honest(v) && v.snapshot == Some(output.snapshot) && v.pending == []
    requires v.events == w.events && v.acceptor == w.acceptor
    ensures ShowsReady(v) && output.snapshot.tick == 1 && output.snapshot.boot == "b"
  {
    FirstReduction(TickInput(w, Clock(1, None)));
    forall c: Component ensures VouchedFor(v.events, c, "b", 1) && !output.snapshot.components[c].evidence.rebaseline {
      NothingHeldStale(TickInput(w, Clock(1, None)), c);
      EveryoneSpoke(w, c);
    }
    ReadyWhen(v, start);
  }

  // ----- The life -----

  ghost predicate Blank(l: Life) {
    Sound(l) && l.drift.None? && l.accepting && l.shelf == [] && l.intact
  }

  lemma {:induction false} PublishedClean(l: Life, lo: nat, hi: nat, domain: Domain, m: Life)
    requires lo <= hi <= |SPOKEN| && CleanWorld(l.now.world, lo) && Blank(l)
    requires Belong(lo, hi, domain)
    requires m == Published(l, Words(lo, hi), domain)
    ensures CleanWorld(m.now.world, hi) && Blank(m)
  {
    PublishClean(l.now.world, lo, hi, domain);
    PublishKeepsSound(l, Words(lo, hi), domain);
  }

  lemma {:induction false} NothingPast(w: World, s: Chapter, all: seq<Pass>)
    requires Shelved(s, all) && JournalsFit(w.root, w.user, w.acceptor.fold) && s.world.acceptor == w.acceptor
    ensures HostSorted([], w, LastSealed(s.world).consumedTo)
  {
    SealRestores(s, all);
    NothingBeyond(w.root, w.acceptor.fold);
    NothingBeyond(w.user, w.acceptor.fold);
  }

  lemma {:induction false} UnstoredKeeps(l: Life, x: Context, id: nat, n: Life)
    requires Sound(l) && l.intact && l.shelf == [l.now] && !Adrift(l)
    requires Reduce(TickInput(l.now.world, x)).Ok? && n == Ticked(l, x, id, Unstored)
    ensures n.shelf == [l.now] && n.intact && LivesResults.Offered(n, 0, [], [])
  {
    TickedParts(l, x, id, Unstored, n);
    assert Shelved(l.shelf[0], l.all);
    NothingPast(n.now.world, l.now, l.all);
  }

  /** Every owner speaks, and what they said is sealed. */
  lemma {:induction false} SealsReady(a: Life, b: Life, c: Life, d: Life)
    requires Blank(a) && CleanWorld(a.now.world, 0)
    requires b == Published(a, Words(0, ROOTS), Root) && c == Published(b, Words(ROOTS, |SPOKEN|), User)
    requires d == Ticked(c, Clock(1, None), 1, Stored)
    ensures Sound(d) && d.anchor == Some(d.now) && d.shelf == [d.now] && d.drift.None? && d.intact
    ensures ShowsReady(d.now.world) && d.now.world.boot == "b" && d.now.world.snapshot.value.tick == 1
  {
    SpeaksAll(a, b, c);
    FirstTickIsReady(c, Clock(1, None), d);
  }

  lemma {:induction false} DomainsBelong()
    ensures Belong(0, ROOTS, Root) && Belong(ROOTS, |SPOKEN|, User)
  {
  }

  lemma {:induction false} SpeaksAll(a: Life, b: Life, c: Life)
    requires Blank(a) && CleanWorld(a.now.world, 0)
    requires b == Published(a, Words(0, ROOTS), Root) && c == Published(b, Words(ROOTS, |SPOKEN|), User)
    ensures Blank(c) && CleanWorld(c.now.world, |SPOKEN|)
  {
    DomainsBelong();
    PublishedClean(a, 0, ROOTS, Root, b);
    PublishedClean(b, ROOTS, |SPOKEN|, User, c);
  }

  lemma {:induction false} BegunIsBlank()
    ensures Blank(Begun("b")) && CleanWorld(Begun("b").now.world, 0)
  {
    BegunIsSound("b");
  }

  lemma {:induction false} Forgets(d: Life, e: Life, m: Life)
    requires Sound(d) && d.anchor == Some(d.now) && d.shelf == [d.now] && d.drift.None? && d.intact
    requires ShowsReady(d.now.world) && d.now.world.boot == "b" && d.now.world.snapshot.value.tick == 1
    requires e == Ticked(d, Clock(2, Some(1)), 2, Unstored) && m == Restarted(e, "b", Some(0), true, [], [])
    ensures ShowsReady(m.now.world) && |m.now.passes| == |m.now.world.ticks| && !EveryWakeRestated(m)
  {
    var x := Clock(2, Some(1));
    TickGoes(d.now.world, d.now.start, x);
    UnstoredKeeps(d, x, 2, e);
    WakeIsForgotten(d, x, 2, e, 0, true, [], [], m);
  }

  lemma {:induction false} LivedSnoc(boot: string, acts: seq<Act>, act: Act)
    ensures Lived(boot, acts + [act]) == Live(Lived(boot, acts), act)
  {
    assert (acts + [act])[..|acts + [act]| - 1] == acts;
  }

  lemma {:induction false} FiveActs(boot: string, a: Act, b: Act, c: Act, d: Act, e: Act)
    ensures Lived(boot, [a, b, c, d, e]) == Live(Live(Live(Live(Live(Begun(boot), a), b), c), d), e)
  {
    assert [a] == [] + [a] && [a, b] == [a] + [b] && [a, b, c] == [a, b] + [c] && [a, b, c, d] == [a, b, c] + [d];
    assert [a, b, c, d, e] == [a, b, c, d] + [e];
    LivedSnoc(boot, [], a);
    LivedSnoc(boot, [a], b);
    LivedSnoc(boot, [a, b], c);
    LivedSnoc(boot, [a, b, c], d);
    LivedSnoc(boot, [a, b, c, d], e);
  }

  /** All owners speak, a checkpoint is sealed, the reduction that hears of a wake cannot be stored, and the
      runtime starts again: it shows ready, though nothing was restated since the wake. */
  lemma {:induction false} ForgottenWake(m: Life)
    requires m == Lived("b", [
      PublishAct(Words(0, ROOTS), Root), PublishAct(Words(ROOTS, |SPOKEN|), User), TickAct(Clock(1, None), 1, Stored),
      TickAct(Clock(2, Some(1)), 2, Unstored), StartAgain("b", Some(0), true, [], [])])
    ensures ShowsReady(m.now.world) && |m.now.passes| == |m.now.world.ticks| && !EveryWakeRestated(m)
  {
    var x, y := Clock(1, None), Clock(2, Some(1));
    FiveActs("b", PublishAct(Words(0, ROOTS), Root), PublishAct(Words(ROOTS, |SPOKEN|), User), TickAct(x, 1, Stored),
      TickAct(y, 2, Unstored), StartAgain("b", Some(0), true, [], []));
    var a := Begun("b");
    var b := Published(a, Words(0, ROOTS), Root);
    var c := Published(b, Words(ROOTS, |SPOKEN|), User);
    var d := Ticked(c, x, 1, Stored);
    BegunIsBlank();
    SealsReady(a, b, c, d);
    Forgets(d, Ticked(d, y, 2, Unstored), m);
  }
}

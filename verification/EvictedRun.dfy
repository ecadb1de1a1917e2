/** One concrete run in which an evicted refusal makes a sealed link underivable: nine reused identities,
    a restatement, and the same nine again. */
module EvictedRun {
  import opened Facts
  import opened Acceptance
  import opened History
  import opened AcceptorTheorems
  import opened AcceptorResults
  import opened Reducer
  import opened Comparison
  import opened Reduction
  import opened ReductionTheorems
  import opened ReductionResults
  import opened RuntimeModel
  import opened RuntimeTheorems
  import opened RuntimeResults
  import opened Readiness
  import opened ReplayModel
  import opened ReplayTheorems
  import opened ReplayResults
  import opened JournalOrder
  import opened SleepingRun

  /** One more refusal than a source shows. */
  const NINE: nat := MAX_CONFLICT_RECORDS + 1

  /** Another answer under a sequence already used. */
  function Forge(q: nat): Fact {
    Say(q).(payload := DnsPayload(2, 0), digest := 100 + q)
  }

  function Heads(n: nat): seq<Remembered> {
    seq(n, i requires 0 <= i < n => Remembered(i + 1, i + 1))
  }

  /** The resolver's owner after `n` answers, with `c` identities reused since the last restatement. */
  function Stream(n: nat, c: nat): SourceState {
    SourceState("b", n, Heads(n), [], false, if c > 0 then {Dns} else {}, c)
  }

  function Standing(n: nat, c: nat, fold: nat): State {
    State(n, fold, if n == 0 then map[] else map[RootDns := Stream(n, c)])
  }

  function Answered(n: nat, c: nat, fold: nat): Event {
    var reason := if c > 0 then BaselineAccepted else NoReason;
    Event(Say(n), Decided(Accepted, reason, Authoritative, n, n, fold, None, [], Stream(n, 0)))
  }

  function Forged(q: nat, n: nat, c: nat, fold: nat): Event {
    Event(Forge(q), Decided(Conflict, IdentityReused, Authoritative, 100 + q, 0, fold, None, [], Stream(n, c)))
  }

  lemma {:induction false} HeadsGrow(n: nat)
    requires n < RETRY_WINDOW
    ensures LastN(Heads(n) + [Remembered(n + 1, n + 1)], RETRY_WINDOW) == Heads(n + 1)
  {
    assert Heads(n) + [Remembered(n + 1, n + 1)] == Heads(n + 1);
  }

  lemma {:induction false} OnlyDns()
    ensures Declared(RootDns) == {Dns}
  {
  }

  lemma {:induction false} AnswerAdmits(n: nat, c: nat)
    requires 0 < n < RETRY_WINDOW
    ensures var a := Admit(Stream(n, c), Say(n + 1));
      a == Admission(Stream(n + 1, 0), if c > 0 then BaselineAccepted else NoReason, None, [])
  {
    HeadsGrow(n);
    var s, f := Stream(n, c), Say(n + 1);
    assert Held(s, f) == s;
    if c > 0 { assert s.pending - {Dns} == {}; }
  }

  lemma {:induction false} AnswerStep(n: nat, c: nat, fold: nat)
    requires n < RETRY_WINDOW && (n == 0 ==> c == 0)
    ensures Step(Standing(n, c, fold), Say(n + 1), Root) ==
      (Standing(n + 1, 0, fold + 1), Answered(n + 1, c, fold + 1).decision)
  {
    if n == 0 {
      assert [] + [Remembered(1, 1)] == Heads(1);
      assert Admit(FirstContact("b"), Say(1)) == Admission(Stream(1, 0), NoReason, None, []);
    } else {
      AnswerAdmits(n, c);
      assert map[RootDns := Stream(n, c)][RootDns := Stream(n + 1, 0)] == map[RootDns := Stream(n + 1, 0)];
    }
  }

  lemma {:induction false} ForgeStep(n: nat, c: nat, fold: nat, q: nat)
    requires 0 < q <= n && c + 1 < UINT32
    ensures Step(Standing(n, c, fold), Forge(q), Root) ==
      (Standing(n, c + 1, fold + 1), Forged(q, n, c + 1, fold + 1).decision)
  {
    RecallHits(Heads(n), q - 1);
    OnlyDns();
    assert Replay(Stream(n, c), Forge(q)) == Replayed(Stream(n, c + 1), Conflict, IdentityReused);
    assert map[RootDns := Stream(n, c)][RootDns := Stream(n, c + 1)] == map[RootDns := Stream(n, c + 1)];
  }

  // ----- Tables -----

  function Spot(q: nat): ConflictKey {
    ConflictKey(RootDns, Dns, q)
  }

  /** The first `c` sequences refused once each. */
  function Refused(c: nat): map<ConflictKey, ConflictRecord> {
    if c == 0 then map[] else Refused(c - 1)[Spot(c) := ConflictRecord(IdentityReused, 1)]
  }

  lemma {:induction false} RefusedKeys(c: nat, k: ConflictKey)
    ensures k in Refused(c) <==> 1 <= k.sequence <= c && k == Spot(k.sequence)
  {
    if c > 0 { RefusedKeys(c - 1, k); }
  }

  function Table(n: nat, c: nat, fold: nat, conflicts: map<ConflictKey, ConflictRecord>): (t: Tables)
    ensures AllKnown(t)
  {
    if n == 0 then EmptyTables(0, fold)
    else Tables(EmptyTables(0, 0).components[Dns := Evidenced(n, false)],
                map[RootDns := Watermark(Root, Authoritative, Stream(n, c))], conflicts, n, fold)
  }

  /** Every refusal of the table is one of these. */
  predicate OnlySpots(conflicts: map<ConflictKey, ConflictRecord>) {
    forall k :: k in conflicts ==> k == Spot(k.sequence)
  }

  lemma {:induction false} AnswerApplies(n: nat, c: nat, fold: nat, k: map<ConflictKey, ConflictRecord>)
    requires OnlySpots(k) && (n == 0 ==> k == map[])
    ensures var t, e := Table(n, c, fold, k), Answered(n + 1, c, fold + 1);
      NextInOrder(t, e) && Apply(t, e) == Table(n + 1, 0, fold + 1, map[])
  {
    var t, e := Table(n, c, fold, k), Answered(n + 1, c, fold + 1);
    assert Heard(t.components[Dns], e) == Evidenced(n + 1, false);
    assert Retire(t.conflicts, RootDns, Dns) == map[];
    assert t.components[Dns := Evidenced(n + 1, false)] == Table(n + 1, 0, fold + 1, map[]).components;
    assert Adopt(t.sources, e) == Table(n + 1, 0, fold + 1, map[]).sources;
  }

  lemma {:induction false} ForgeApplies(n: nat, c: nat, fold: nat)
    requires n > 0
    ensures var t, e := Table(n, c, fold, Refused(c)), Forged(c + 1, n, c + 1, fold + 1);
      NextInOrder(t, e) && Apply(t, e) == Table(n, c + 1, fold + 1, Refused(c + 1))
  {
    var t, e := Table(n, c, fold, Refused(c)), Forged(c + 1, n, c + 1, fold + 1);
    RefusedKeys(c, Spot(c + 1));
    assert Adopt(t.sources, e) == Table(n, c + 1, fold + 1, Refused(c + 1)).sources;
  }

  // ----- What a table of nine shows -----

  function Spots(from: nat, to: nat): set<ConflictKey>
    decreases to
  {
    if to < from then {} else if to == 0 then {Spot(0)} else Spots(from, to - 1) + {Spot(to)}
  }

  lemma {:induction false} SpotsCount(from: nat, to: nat)
    requires 0 < from <= to + 1
    ensures |Spots(from, to)| == to + 1 - from && forall k :: k in Spots(from, to) <==>
      k == Spot(k.sequence) && from <= k.sequence <= to
  {
    if from <= to { SpotsCount(from, to - 1); }
  }

  lemma {:induction false} NineEvict()
    ensures Evicts(Refused(NINE)) && Spot(1) in Refused(NINE) && Spot(1) !in Retain(Refused(NINE))
  {
    var keys := Refused(NINE).Keys;
    RefusedKeys(NINE, Spot(1));
    SpotsCount(2, NINE);
    forall k | k in Spots(2, NINE) ensures k in LaterThan(keys, Spot(1)) { RefusedKeys(NINE, k); }
    SubsetSize(Spots(2, NINE), LaterThan(keys, Spot(1)));
    assert !Retained(keys, Spot(1));
  }

  lemma {:induction false} KeptAreSpots()
    ensures OnlySpots(Retain(Refused(NINE)))
  {
    forall k | k in Retain(Refused(NINE)) ensures k == Spot(k.sequence) { RefusedKeys(NINE, k); }
  }

  predicate Displays(s: Snapshot, n: nat, fold: nat, x: Context) {
    s == SnapshotOf(Table(n, 9, fold, Refused(NINE)), x, Unauthorized(PolicyAbsent), s.generation)
  }

  lemma {:induction false} ReductionDisplays(input: Input, t: Tables, x: Context)
    requires Reduce(input).Ok? && ValidInput(input) && input.context == x && x.policy == Clock(1, None).policy
    requires Fold(MarkedStart(input), input.events) == Some(t)
    ensures var s := Reduce(input).output.snapshot; s == SnapshotOf(t, x, Unauthorized(PolicyAbsent), s.generation)
  {
    ReducedShape(input);
  }

  lemma {:induction false} DisplayedTables(s: Snapshot, n: nat, fold: nat, x: Context)
    requires Displays(s, n, fold, x) && n > 0
    ensures Complete(s) && TablesOf(s) == Table(n, 9, fold, Refused(NINE)).(conflicts := Retain(Refused(NINE)))
    ensures s.conflicts == Retain(Refused(NINE)) && s.summary.conflictOverflow && s.boot == x.boot && s.tick == x.tick
  {
    RenderedTables(Table(n, 9, fold, Refused(NINE)), x, Unauthorized(PolicyAbsent), s.generation);
    NineEvict();
  }

  /** The nine refusals, whichever answer was the last, look the same to a reader. */
  lemma {:induction false} ViewedAlike(n: nat, fold: nat, k: map<ConflictKey, ConflictRecord>, tick: int, c: Component)
    requires n > 0
    ensures var t := Table(n, 9, fold, k);
      ProjectComponent(RenderRecord(t.components[c], t.sources, "b", tick)) == Viewed(c)
  {
    var t := Table(n, 9, fold, k);
    assert t.components[c].corroborations == map[];
    if c.Dns? { assert t.components[c] == Evidenced(n, false); } else { assert t.components[c] == Unobserved(c); }
  }

  lemma {:induction false} DisplayedComponent(s: Snapshot, n: nat, fold: nat, x: Context, c: Component)
    requires Displays(s, n, fold, x) && n > 0 && x.boot == "b"
    ensures Complete(s) && ProjectComponent(s.components[c]) == Viewed(c)
  {
    var t := Table(n, 9, fold, Refused(NINE));
    assert s.components == RenderComponents(t, "b", x.tick);
    assert s.components[c] == RenderRecord(t.components[c], t.sources, "b", x.tick);
    ViewedAlike(n, fold, Refused(NINE), x.tick, c);
  }

  function Viewed(c: Component): SemanticComponent {
    if c.Dns? then SemanticComponent(StateConflict, Ready, "ok", Some(DnsPayload(1, 0)), true, false, 9, map[])
    else SemanticComponent(StateUnknown, Unknown, "none", None, false, false, 0, map[])
  }

  lemma {:induction false} DisplayedRest(s: Snapshot, n: nat, fold: nat, x: Context)
    requires Displays(s, n, fold, x) && n > 0
    ensures s.summary == Summarize(s.components, s.sources, Unauthorized(PolicyAbsent), true)
    ensures s.boot == x.boot && s.policy == x.policy && s.authorization == Unauthorized(PolicyAbsent)
    ensures s.sources == map[RootDns := Watermark(Root, Authoritative, Stream(n, 9))]
  {
    NineEvict();
  }

  /** What a reader sees of a snapshot with nine refusals after `n` answers. */
  ghost predicate Looks(s: Snapshot, n: nat) {
    && Complete(s) && (forall c: Component :: ProjectComponent(s.components[c]) == Viewed(c))
    && s.sources == map[RootDns := Watermark(Root, Authoritative, Stream(n, 9))]
    && s.boot == "b" && s.policy == Clock(1, None).policy && s.authorization == Unauthorized(PolicyAbsent)
    && s.conflicts == Retain(Refused(NINE)) &&
      s.summary == Summarize(s.components, s.sources, Unauthorized(PolicyAbsent), true)
  }

  lemma {:induction false} DisplayedLooks(s: Snapshot, n: nat, fold: nat, tick: int)
    requires Displays(s, n, fold, Clock(tick, None)) && n > 0
    ensures Looks(s, n)
  {
    DisplayedConflicts(s, n, fold, Clock(tick, None));
    DisplayedRest(s, n, fold, Clock(tick, None));
    forall c: Component ensures Complete(s) && ProjectComponent(s.components[c]) == Viewed(c) {
      DisplayedComponent(s, n, fold, Clock(tick, None), c);
    }
  }

  lemma {:induction false} DisplayedConflicts(s: Snapshot, n: nat, fold: nat, x: Context)
    requires Displays(s, n, fold, x) && n > 0
    ensures s.conflicts == Retain(Refused(NINE)) && s.summary.conflictOverflow
  {
    DisplayedTables(s, n, fold, x);
  }

  lemma {:induction false} SameStates(a: Snapshot, b: Snapshot, n: nat, m: nat)
    requires Looks(a, n) && Looks(b, m)
    ensures forall c: Component :: a.components[c].state == b.components[c].state
  {
    forall c: Component ensures a.components[c].state == b.components[c].state {
      assert ProjectComponent(a.components[c]).state == a.components[c].state;
      assert ProjectComponent(b.components[c]).state == b.components[c].state;
    }
  }

  lemma {:induction false} SameLook(a: Snapshot, b: Snapshot, n: nat, m: nat)
    requires Looks(a, n) && Looks(b, m)
    ensures Project(a) == Project(b)
  {
    SameSources(n, m);
    SameLookedSummary(a, b, n, m);
    SameProjection(a, b);
  }

  lemma {:induction false} SameSources(n: nat, m: nat)
    ensures var a, b := map[RootDns := Watermark(Root, Authoritative, Stream(n, 9))],
      map[RootDns := Watermark(Root, Authoritative, Stream(m, 9))];
      SameIntegrity(a, b) && forall id :: id in a ==> a[id].state.boot == b[id].state.boot
  {
  }

  lemma {:induction false} SameLookedSummary(a: Snapshot, b: Snapshot, n: nat, m: nat)
    requires Looks(a, n) && Looks(b, m)
    ensures a.summary == b.summary
  {
    SameSources(n, m);
    SameStates(a, b, n, m);
    SameSummary(a.components, b.components, a.sources, b.sources, Unauthorized(PolicyAbsent), true);
  }

  lemma {:induction false} SameDisplay(a: Snapshot, b: Snapshot)
    requires Displays(a, 9, 18, Clock(1, None)) && Displays(b, 10, 28, Clock(2, None))
    ensures Project(a) == Project(b)
  {
    DisplayedLooks(a, 9, 18, 1);
    DisplayedLooks(b, 10, 28, 2);
    SameLook(a, b, 9, 10);
  }

  // ----- The run -----

  /** What a publication leaves alone. */
  predicate Still(later: World, w: World) {
    && later.boot == w.boot && later.snapshot == w.snapshot && later.lineage == w.lineage
    && later.accepted == w.accepted && later.consumed == w.consumed
  }

  /** Folding what is pending onto `t` reaches `u`, and the acceptor stands where that ends. */
  predicate Midway(w: World, t: Tables, st: State, u: Tables) {
    w.acceptor == st && AllKnown(t) && Fold(t, w.pending) == Some(u)
  }

  lemma {:induction false} OfferOneMore(w: World, t: Tables, u: Tables, st: State, after: State, e: Event)
    requires Midway(w, t, st, u) && Step(st, e.fact, Root) == (after, e.decision) && e.decision.Decided?
    requires NextInOrder(u, e)
    ensures var v := Offer(w, e.fact, Root); Midway(v, t, after, Apply(u, e)) && Still(v, w)
  {
    var v := Offer(w, e.fact, Root);
    assert v.pending == w.pending + [e];
    assert v.pending[..|v.pending| - 1] == w.pending;
  }

  lemma {:induction false} AnswerOneMore(
    w: World, t: Tables, n: nat, c: nat, fold: nat, k: map<ConflictKey, ConflictRecord>)
    requires n < 10 && (n == 0 ==> c == 0 && k == map[]) && OnlySpots(k)
    requires Midway(w, t, Standing(n, c, fold), Table(n, c, fold, k))
    ensures var v := Offer(w, Say(n + 1), Root);
      Midway(v, t, Standing(n + 1, 0, fold + 1), Table(n + 1, 0, fold + 1, map[])) && Still(v, w)
  {
    AnswerStep(n, c, fold);
    AnswerApplies(n, c, fold, k);
    OfferOneMore(w, t, Table(n, c, fold, k), Standing(n, c, fold), Standing(n + 1, 0, fold + 1),
      Answered(n + 1, c, fold + 1));
  }

  lemma {:induction false} ForgeOneMore(w: World, t: Tables, n: nat, c: nat, d: nat, fold: nat, to: nat)
    requires d == c + 1 && to == fold + 1 && d <= n <= 10
    requires Midway(w, t, Standing(n, c, fold), Table(n, c, fold, Refused(c)))
    ensures var v := Offer(w, Forge(d), Root);
      Midway(v, t, Standing(n, d, to), Table(n, d, to, Refused(d))) && Still(v, w)
  {
    ForgeStep(n, c, fold, d);
    ForgeApplies(n, c, fold);
    OfferOneMore(w, t, Table(n, c, fold, Refused(c)), Standing(n, c, fold), Standing(n, d, to), Forged(d, n, d, to));
  }

  lemma {:induction false} PublishSnoc(w: World, fs: seq<Fact>, f: Fact)
    ensures Publish(w, fs + [f], Root) == Offer(Publish(w, fs, Root), f, Root)
  {
    assert (fs + [f])[..|fs + [f]| - 1] == fs;
  }

  function Answers(n: nat): seq<Fact> {
    seq(n, i requires 0 <= i < n => Say(i + 1))
  }

  function Forgeries(n: nat): seq<Fact> {
    seq(n, i requires 0 <= i < n => Forge(i + 1))
  }

  lemma {:induction false} PublishesAnswers(w: World, n: nat)
    requires n <= 9 && Midway(w, EmptyTables(0, 0), Standing(0, 0, 0), EmptyTables(0, 0))
    ensures var v := Publish(w, Answers(n), Root);
      Midway(v, EmptyTables(0, 0), Standing(n, 0, n), Table(n, 0, n, map[])) && Still(v, w)
  {
    if n > 0 {
      assert Answers(n)[..n - 1] == Answers(n - 1);
      PublishesAnswers(w, n - 1);
      AnswerOneMore(Publish(w, Answers(n - 1), Root), EmptyTables(0, 0), n - 1, 0, n - 1, map[]);
    }
  }

  /** After publishing some facts the resolver's owner stands at `n` answers and `c` forgeries. */
  predicate Forging(w: World, fs: seq<Fact>, t: Tables, n: nat, c: nat, fold: nat) {
    var v := Publish(w, fs, Root); Midway(v, t, Standing(n, c, fold), Table(n, c, fold, Refused(c))) && Still(v, w)
  }

  lemma {:induction false} ForgePublished(
    w: World, fs: seq<Fact>, t: Tables, n: nat, c: nat, d: nat, fold: nat, to: nat)
    requires d == c + 1 && to == fold + 1 && d <= n <= 10 && Forging(w, fs, t, n, c, fold)
    ensures Forging(w, fs + [Forge(d)], t, n, d, to)
  {
    PublishSnoc(w, fs, Forge(d));
    ForgeOneMore(Publish(w, fs, Root), t, n, c, d, fold, to);
  }

  lemma {:induction false} PublishesForgeries(w: World, t: Tables, n: nat, fold: nat, c: nat)
    requires 0 < n && c <= n <= 10 && Forging(w, [], t, n, 0, fold)
    ensures Forging(w, Forgeries(c), t, n, c, fold + c)
  {
    ForgeriesSnoc(c);
    if c > 0 {
      PublishesForgeries(w, t, n, fold, c - 1);
      ForgePublished(w, Forgeries(c - 1), t, n, c - 1, c, fold + (c - 1), fold + c);
    }
  }

  lemma {:induction false} ForgeriesSnoc(c: nat)
    ensures Forgeries(c) == if c == 0 then [] else Forgeries(c - 1) + [Forge(c)]
  {
  }

  lemma {:induction false} AfterPublish(ops: seq<Operation>, fs: seq<Fact>)
    ensures After(ops + [PublishOp(fs, Root)]) == Publish(After(ops), fs, Root)
  {
    AfterSnoc(ops, PublishOp(fs, Root));
  }

  lemma {:induction false} AfterTick(ops: seq<Operation>, x: Context, id: nat)
    ensures After(ops + [TickOp(x, id)]) == Tick(After(ops), x, id)
  {
    AfterSnoc(ops, TickOp(x, id));
  }

  /** Nine answers, nine forgeries. */
  lemma {:induction false} ThroughNine() returns (ops: seq<Operation>)
    ensures Midway(After(ops), EmptyTables(0, 0), Standing(9, 9, 18), Table(9, 9, 18, Refused(NINE)))
    ensures Still(After(ops), Fresh("b", 0, 0))
  {
    PublishesAnswers(Fresh("b", 0, 0), NINE);
    PublishesForgeries(Publish(Fresh("b", 0, 0), Answers(NINE), Root), EmptyTables(0, 0), 9, 9, NINE);
    AfterPublish([], Answers(NINE));
    AfterPublish([] + [PublishOp(Answers(NINE), Root)], Forgeries(NINE));
    ops := [] + [PublishOp(Answers(NINE), Root)] + [PublishOp(Forgeries(NINE), Root)];
  }

  /** The first reduction is sealed and shows eight of the nine. */
  predicate SealedNine(w: World) {
    && w.boot == "b" && w.lineage != [] && LastSealed(w).consumedTo == 18
    && Displays(LastSealed(w).snapshot, 9, 18, Clock(1, None))
  }

  lemma {:induction false} FirstOutput(w: World)
    requires Midway(w, EmptyTables(0, 0), Standing(9, 9, 18), Table(9, 9, 18, Refused(NINE)))
    requires Still(w, Fresh("b", 0, 0))
    requires Reduce(TickInput(w, Clock(1, None))).Ok?
    ensures var o := Reduce(TickInput(w, Clock(1, None))).output;
      Displays(o.snapshot, 9, 18, Clock(1, None)) && o.changed
  {
    var input := TickInput(w, Clock(1, None));
    ReducedShape(input);
    ReductionDisplays(input, Table(9, 9, 18, Refused(NINE)), Clock(1, None));
    ReductionChange(input);
  }

  lemma {:induction false} AbsorbsFirst(w: World, output: Output)
    requires w.boot == "b" && w.acceptor == Standing(9, 9, 18) && output.changed
    requires Displays(output.snapshot, 9, 18, Clock(1, None))
    ensures var v := Absorb(w, Clock(1, None), 1, output);
      AllSealed(v)
  {
    DisplayedTables(output.snapshot, 9, 18, Clock(1, None));
    assert output.snapshot.fold == TablesOf(output.snapshot).fold;
  }

  lemma {:induction false} ThroughSealing() returns (ops: seq<Operation>)
    ensures AllSealed(After(ops))
  {
    var before := ThroughNine();
    var x := Clock(1, None);
    TickGoes(before, x);
    FirstOutput(After(before));
    AbsorbsFirst(After(before), Reduce(TickInput(After(before), x)).output);
    AfterTick(before, x, 1);
    ops := before + [TickOp(x, 1)];
  }

  /** Everything so far is sealed. */
  predicate AllSealed(w: World) {
    SealedNine(w) && w.snapshot == Some(LastSealed(w).snapshot) && w.acceptor == Standing(9, 9, 18) && w.pending == []
  }

  /** One more answer retired the nine, and the nine were forged again. */
  predicate NineAgain(w: World) {
    && SealedNine(w) && w.snapshot == Some(LastSealed(w).snapshot)
    && Complete(LastSealed(w).snapshot)
    && Midway(w, TablesOf(LastSealed(w).snapshot), Standing(10, 9, 28), Table(10, 9, 28, Refused(NINE)))
  }

  lemma {:induction false} FromSealToNine(w: World)
    requires AllSealed(w)
    ensures NineAgain(Publish(Publish(w, [Say(10)], Root), Forgeries(NINE), Root))
  {
    var p, t := LastSealed(w).snapshot, Table(9, 9, 18, Retain(Refused(NINE)));
    DisplayedTables(p, 9, 18, Clock(1, None));
    KeptAreSpots();
    assert TablesOf(p) == t && Fold(t, []) == Some(t);
    FromNineToNine(w, t);
    IsNineAgain(w, Publish(Publish(w, [Say(10)], Root), Forgeries(NINE), Root), t);
  }

  lemma {:induction false} IsNineAgain(w: World, v: World, t: Tables)
    requires AllSealed(w) && Still(v, w) && Complete(LastSealed(w).snapshot) && TablesOf(LastSealed(w).snapshot) == t
    requires Midway(v, t, Standing(10, 9, 28), Table(10, 9, 28, Refused(NINE)))
    ensures NineAgain(v)
  {
  }

  lemma {:induction false} ThroughNineAgain() returns (ops: seq<Operation>)
    ensures NineAgain(After(ops))
  {
    var before := ThroughSealing();
    FromSealToNine(After(before));
    var more := before + [PublishOp([Say(10)], Root)];
    AfterPublish(before, [Say(10)]);
    AfterPublish(more, Forgeries(NINE));
    ops := more + [PublishOp(Forgeries(NINE), Root)];
  }

  lemma {:induction false} FromNineToNine(w: World, t: Tables)
    requires OnlySpots(Retain(Refused(NINE))) && t == Table(9, 9, 18, Retain(Refused(NINE)))
    requires Midway(w, t, Standing(9, 9, 18), t)
    ensures var v := Publish(Publish(w, [Say(10)], Root), Forgeries(NINE), Root);
      Midway(v, t, Standing(10, 9, 28), Table(10, 9, 28, Refused(NINE))) && Still(v, w)
  {
    PublishOne(w, Say(10), Root);
    AnswerOneMore(w, t, 9, 9, 18, Retain(Refused(NINE)));
    PublishesForgeries(Publish(w, [Say(10)], Root), t, 10, 19, NINE);
  }

  lemma {:induction false} SecondOutput(w: World)
    requires NineAgain(w) && Reduce(TickInput(w, Clock(2, None))).Ok?
    ensures var o := Reduce(TickInput(w, Clock(2, None))).output;
      Displays(o.snapshot, 10, 28, Clock(2, None)) && !o.changed
  {
    var input := TickInput(w, Clock(2, None));
    ReducedShape(input);
    DisplayedTables(w.snapshot.value, 9, 18, Clock(1, None));
    ReductionDisplays(input, Table(10, 9, 28, Refused(NINE)), Clock(2, None));
    ReductionChange(input);
    SameDisplay(w.snapshot.value, Reduce(input).output.snapshot);
  }

  /** The second reduction changed nothing; it folded `evs` onto the sealed snapshot. */
  predicate Unnoticed(w: World, evs: seq<Event>) {
    && SealedNine(w) && w.pending == [] && w.snapshot.Some? && Displays(w.snapshot.value, 10, 28, Clock(2, None))
    && Complete(LastSealed(w).snapshot) &&
      Fold(TablesOf(LastSealed(w).snapshot), evs) == Some(Table(10, 9, 28, Refused(NINE)))
  }

  lemma {:induction false} AbsorbsSecond(w: World, output: Output)
    requires NineAgain(w) && !output.changed && Displays(output.snapshot, 10, 28, Clock(2, None))
    ensures Unnoticed(Absorb(w, Clock(2, None), 2, output), w.pending)
  {
    assert w.lineage + [] == w.lineage;
  }

  lemma {:induction false} LaterTickIsGood(w: World, n: nat, fold: nat, tick: int, next: int)
    requires n > 0 && 0 < tick <= next && w.snapshot.Some? && w.boot == "b"
    requires Displays(w.snapshot.value, n, fold, Clock(tick, None))
    ensures GoodTick(w, Clock(next, None))
  {
    DisplayedTables(w.snapshot.value, n, fold, Clock(tick, None));
  }

  /** The tick goes through: the sealed snapshot is of this boot and an earlier tick. */
  lemma {:induction false} SecondTickGoes(ops: seq<Operation>)
    requires NineAgain(After(ops))
    ensures Reduce(TickInput(After(ops), Clock(2, None))).Ok?
  {
    LaterTickIsGood(After(ops), 9, 18, 1, 2);
    TickGoes(ops, Clock(2, None));
  }

  /** The stretch since the seal, in a run that has folded it. */
  function Since(w: World): seq<Event>
    requires 18 <= Folded(w) <= |w.events|
  {
    w.events[18..Folded(w)]
  }

  lemma {:induction false} SecondStretch(ops: seq<Operation>)
    requires NineAgain(After(ops))
    ensures var w := After(ops); Folded(w) == 18 && w.pending == w.events[18..]
  {
    var w := After(ops);
    RunKeepsInv("b", 0, 0, ops);
    DisplayedTables(w.snapshot.value, 9, 18, Clock(1, None));
    assert w.snapshot.value.fold == TablesOf(w.snapshot.value).fold;
    BoundaryFold(w, State(0, 0, map[]));
  }

  lemma {:induction false} BoundaryFold(w: World, start: State)
    requires Inv(w, start) && w.snapshot.Some?
    ensures Folded(w) == w.snapshot.value.fold - start.fold
  {
    PendingIsRun(w, start);
    AdmissibleSlices(w.events, Folded(w));
    TwoOrders(start, FactsOf(w.events[..Folded(w)]));
  }

  lemma {:induction false} ThroughUnnoticed() returns (ops: seq<Operation>)
    ensures var w := After(ops); 18 <= Folded(w) <= |w.events| && Unnoticed(w, Since(w))
  {
    var before := ThroughNineAgain();
    SecondTickGoes(before);
    SecondOutput(After(before));
    SecondStretch(before);
    var o := Reduce(TickInput(After(before), Clock(2, None))).output;
    AbsorbsSecond(After(before), o);
    AfterTick(before, Clock(2, None), 2);
    ops := before + [TickOp(Clock(2, None), 2)];
    FoldedAll(After(before), o);
  }

  lemma {:induction false} FoldedAll(w: World, output: Output)
    requires Folded(w) == 18 && w.pending == w.events[18..]
    ensures var v := Absorb(w, Clock(2, None), 2, output); 18 <= Folded(v) <= |v.events| && Since(v) == w.pending
  {
  }

  /** Nothing arrives, and the next reduction no longer sees that refusals were evicted. */
  lemma {:induction false} ThirdOutput(w: World, evs: seq<Event>)
    requires Unnoticed(w, evs) && Reduce(TickInput(w, Clock(3, None))).Ok?
    ensures Reduce(TickInput(w, Clock(3, None))).output.changed
  {
    var input, s := TickInput(w, Clock(3, None)), w.snapshot.value;
    ReducedShape(input);
    DisplayedTables(s, 10, 28, Clock(2, None));
    RetainedEvictsNothing(Refused(NINE));
    assert !Reduce(input).output.snapshot.summary.conflictOverflow;
    ReductionChange(input);
    if Project(s) == Project(Reduce(input).output.snapshot) { SameOutline(s, Reduce(input).output.snapshot); }
  }

  lemma {:induction false} EvictionUncovered(w: World, start: State)
    requires 18 <= Folded(w) <= |w.events| && Unnoticed(w, Since(w)) && Lineal(w, start) && start.fold == 0
    ensures !LinkCovered(w, 0, Clock(3, None))
  {
    var p, evs := LastSealed(w).snapshot, Since(w);
    DisplayedTables(p, 9, 18, Clock(1, None));
    NineEvict();
    FoldedRefusals(TablesOf(p), evs);
    assert Spot(1) in Refusals(p.conflicts, evs);
    assert Includes(Refusals(p.conflicts, evs), p.conflicts);
    QuietAfterEvictionIsUncovered(Refused(NINE), evs, Spot(1));
  }

  lemma {:induction false} ThirdTickGoes(ops: seq<Operation>, evs: seq<Event>)
    requires Unnoticed(After(ops), evs)
    ensures Reduce(TickInput(After(ops), Clock(3, None))).Ok?
  {
    LaterTickIsGood(After(ops), 10, 28, 2, 3);
    TickGoes(ops, Clock(3, None));
  }

  lemma {:induction false} EvictionSeals(ops: seq<Operation>, w: World, evs: seq<Event>)
    requires w == After(ops) && Unnoticed(w, evs)
    ensures |Tick(w, Clock(3, None), 3).lineage| > |w.lineage|
  {
    ThirdTickGoes(ops, evs);
    ThirdOutput(w, evs);
    SealedShape(w, Clock(3, None), 3);
  }

  /** Nine reused identities are sealed, of which eight show; the owner restates, the nine are reused
      again, and a reader sees no change; then nothing happens, and what is sealed cannot be derived. */
  lemma {:induction false} EvictionDefeatsReplay() returns (ops: seq<Operation>, x: Context, id: nat)
    ensures Underivable(ops, x, id)
  {
    ops := ThroughUnnoticed();
    x, id := Clock(3, None), 3;
    var w := After(ops);
    RunKeepsLineal("b", 0, 0, ops);
    EvictionUncovered(w, State(0, 0, map[]));
    EvictionSeals(ops, w, Since(w));
    JournalsDeriveEveryLink("b", 0, 0, ops, x, id, []);
    assert Execute(Tick(w, x, id), []) == Tick(w, x, id);
  }
}

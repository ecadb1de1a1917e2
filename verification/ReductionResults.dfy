/** Results about one reduction: exact coalescing, storable output, and what "ready" implies. */
module ReductionResults {
  import opened Facts
  import opened Acceptance
  import opened Reducer
  import opened Comparison
  import opened Reduction
  import opened ReductionTheorems

  // ----- Coalescing is exact -----

  lemma {:induction false} ConclusionShowsTables(t: Tables, u: Tables, x: Context, a: Option<Before>, b: Option<Before>)
    requires AllKnown(t) && AllKnown(u) && t.components != u.components
    requires Conclude(t, x, a).Ok?
    ensures Conclude(u, x, b) != Conclude(t, x, a)
  {
    SameEvidence(t, u);
    var c: Component :| t.components[c] != u.components[c];
    ConclusionEvidence(t, x, a, c);
    if Conclude(u, x, b).Ok? { ConclusionEvidence(u, x, b, c); }
  }

  lemma {:induction false} SameEvidence(t: Tables, u: Tables)
    requires AllKnown(t) && AllKnown(u)
    ensures (forall c: Component :: t.components[c] == u.components[c]) ==> t.components == u.components
  {
    if forall c: Component :: t.components[c] == u.components[c] { assert t.components == u.components; }
  }

  lemma {:induction false} ConclusionEvidence(t: Tables, x: Context, before: Option<Before>, c: Component)
    requires AllKnown(t) && Conclude(t, x, before).Ok?
    ensures Complete(Conclude(t, x, before).output.snapshot)
    ensures Conclude(t, x, before).output.snapshot.components[c].evidence == t.components[c]
  {
  }

  /** Refusals evicted between the reductions make no difference to what the last one shows. */
  predicate SameRefusals(k: map<ConflictKey, ConflictRecord>, evs: seq<Event>, es: seq<Event>) {
    var live, replay := Refusals(k, es), Refusals(k, evs + es);
    Retain(live) == Retain(replay) && (Evicts(live) <==> Evicts(replay))
  }

  /** Refusals that the stretch made again after the sealed parent had evicted them, or evicted anew, and
      that the last batch did not retire: the reduction of the whole stretch still counts them. */
  function LeftOver(k: map<ConflictKey, ConflictRecord>, evs: seq<Event>, es: seq<Event>): set<ConflictKey> {
    var live, replay := Refusals(k, es), Refusals(k, evs + es);
    set key | key in replay && (key !in live || live[key] != replay[key])
  }

  /** Nothing is left over; or the last batch evicts refusals of its own, and eight later ones hide each
      that is left over. */
  predicate RefusalsCovered(k: map<ConflictKey, ConflictRecord>, evs: seq<Event>, es: seq<Event>) {
    var left, live := LeftOver(k, evs, es), Refusals(k, es);
    left == {} || (Evicts(live) && forall key :: key in left ==> !Retained(live.Keys, key))
  }

  lemma {:induction false} ConclusionIgnoresEvicted(t: Tables, u: Tables, x: Context, before: Option<Before>)
    requires AllKnown(t) && AllKnown(u) && u == t.(conflicts := u.conflicts)
    requires Retain(t.conflicts) == Retain(u.conflicts) && (Evicts(t.conflicts) <==> Evicts(u.conflicts))
    ensures Conclude(t, x, before) == Conclude(u, x, before)
  {
    assert RenderComponents(t, x.boot, x.tick) == RenderComponents(u, x.boot, x.tick);
    var a := Authorize(x.policy, if before.Some? then Some(before.value.seen.policy) else None);
    assert SnapshotOf(t, x, a, 0) == SnapshotOf(u, x, a, 0);
  }

  lemma {:induction false} ConclusionShowsRefusals(t: Tables, x: Context, before: Option<Before>)
    requires AllKnown(t) && Conclude(t, x, before).Ok?
    ensures var s := Conclude(t, x, before).output.snapshot;
      s.conflicts == Retain(t.conflicts) && s.summary.conflictOverflow == Evicts(t.conflicts)
  {
  }

  /** Conclusions differ when what they fold differs in anything a snapshot shows. */
  lemma {:induction false} ConclusionsAgreeExactly(t: Tables, u: Tables, x: Context, before: Option<Before>)
    requires AllKnown(t) && AllKnown(u) && Conclude(t, x, before).Ok?
    requires u.(components := t.components, conflicts := t.conflicts) == t
    ensures Conclude(u, x, before) == Conclude(t, x, before) <==>
      u.components == t.components && Retain(t.conflicts) == Retain(u.conflicts) &&
        (Evicts(t.conflicts) <==> Evicts(u.conflicts))
  {
    if u.components != t.components {
      ConclusionShowsTables(t, u, x, before, before);
    } else if Retain(t.conflicts) == Retain(u.conflicts) && (Evicts(t.conflicts) <==> Evicts(u.conflicts)) {
      ConclusionIgnoresEvicted(t, u, x, before);
    } else {
      ConclusionShowsRefusals(t, x, before);
      if Conclude(u, x, before).Ok? { ConclusionShowsRefusals(u, x, before); }
    }
  }

  /** Several reductions that change nothing followed by one more give, output for output, what a
      single reduction of the whole stretch gives, exactly when a wake carried by the last one is
      covered and the refusals it left over are.  With no wake the first always holds, and with no
      eviction the second does. */
  lemma {:induction false} CoalescedReductionExact(
    p: Snapshot, evs: seq<Event>, s: Snapshot, live: Input, replay: Input)
    requires Coalesced(p, evs, s) && WellObserved(p) && WellObserved(s)
    requires live.prior == Some(s) && Reduce(live).Ok?
    requires replay == Input(Some(p), 0, 0, evs + live.events, live.context)
    ensures Reduce(replay) == Reduce(live) <==>
      WakeCovered(p, evs, live) && RefusalsCovered(p.conflicts, evs, live.events)
  {
    SameRefusalsExactly(p.conflicts, evs, live.events);
    ReducedShape(live);
    ReplayIsValid(p, evs, s, live, replay);
    CoalescedFold(p, evs, s, live, replay);
    ReductionsAgree(live, replay, Fold(MarkedStart(live), live.events).value,
      Fold(MarkedStart(replay), replay.events).value);
  }

  lemma {:induction false} ReplayIsValid(p: Snapshot, evs: seq<Event>, s: Snapshot, live: Input, replay: Input)
    requires Coalesced(p, evs, s) && live.prior == Some(s) && ValidInput(live)
    requires replay == Input(Some(p), 0, 0, evs + live.events, live.context)
    ensures ValidInput(replay) && View(live.prior) == View(replay.prior)
  {
    SameOutline(p, s);
  }

  lemma {:induction false} ReductionsAgree(live: Input, replay: Input, t: Tables, u: Tables)
    requires ValidInput(live) && ValidInput(replay) && live.context == replay.context
    requires View(live.prior) == View(replay.prior)
    requires Fold(MarkedStart(live), live.events) == Some(t) && Fold(MarkedStart(replay), replay.events) == Some(u)
    requires Reduce(live).Ok? && u.(components := t.components, conflicts := t.conflicts) == t
    ensures Reduce(replay) == Reduce(live) <==>
      u.components == t.components && Retain(t.conflicts) == Retain(u.conflicts) &&
        (Evicts(t.conflicts) <==> Evicts(u.conflicts))
  {
    ConclusionsAgreeExactly(t, u, live.context, View(live.prior));
  }

  // ----- Exactly when evicted refusals do not show again -----

  predicate Doubles(
    live: map<ConflictKey, ConflictRecord>, replay: map<ConflictKey, ConflictRecord>, key: ConflictKey) {
    key in replay && (key !in live || live[key] != replay[key])
  }

  lemma {:induction false} LaterIsTransitive(a: ConflictKey, b: ConflictKey, c: ConflictKey)
    requires Later(a, b) && Later(b, c)
    ensures Later(a, c)
  {
  }

  /** Of the keys later than one that is not retained, at least the bound are. */
  lemma {:induction false} BoundRetained(keys: set<ConflictKey>, x: ConflictKey) returns (kept: set<ConflictKey>)
    requires !Retained(keys, x)
    ensures |kept| >= MAX_CONFLICT_RECORDS && kept <= LaterThan(keys, x) && forall k :: k in kept ==> Retained(keys, k)
    decreases |LaterThan(keys, x)|
  {
    var later := LaterThan(keys, x);
    if |later| == MAX_CONFLICT_RECORDS {
      kept := later;
      forall k | k in kept ensures Retained(keys, k) { LaterShrinks(keys, x, k); }
    } else {
      var oldest := OldestKey(later, x.source);
      assert LaterThan(keys, oldest) == later - {oldest} by { LaterShrinks(keys, x, oldest); }
      kept := BoundRetained(keys, oldest);
    }
  }

  lemma {:induction false} LaterShrinks(keys: set<ConflictKey>, x: ConflictKey, k: ConflictKey)
    requires k in LaterThan(keys, x)
    ensures LaterThan(keys, k) <= LaterThan(keys, x) - {k} && |LaterThan(keys, k)| < |LaterThan(keys, x)|
  {
    forall j | j in LaterThan(keys, k) ensures j in LaterThan(keys, x) - {k} { LaterIsTransitive(j, k, x); }
    SubsetSize(LaterThan(keys, k), LaterThan(keys, x) - {k});
  }

  /** Of two tables, one within the other, the same is shown exactly when they are the same, or when the
      smaller evicts too and everything that differs is hidden in it already. */
  lemma {:induction false} ShownAlikeExactly(
    live: map<ConflictKey, ConflictRecord>, replay: map<ConflictKey, ConflictRecord>)
    requires live.Keys <= replay.Keys
    ensures Retain(live) == Retain(replay) && (Evicts(live) <==> Evicts(replay)) <==>
      (forall key :: !Doubles(live, replay, key)) ||
      (Evicts(live) && forall key :: Doubles(live, replay, key) ==> !Retained(live.Keys, key))
  {
    if forall key :: !Doubles(live, replay, key) {
      forall k | k in replay ensures k in live && live[k] == replay[k] { assert !Doubles(live, replay, k); }
      assert live == replay;
    } else if Evicts(live) && forall key :: Doubles(live, replay, key) ==> !Retained(live.Keys, key) {
      HiddenAlike(live, replay);
    } else if Retain(live) == Retain(replay) && (Evicts(live) <==> Evicts(replay)) {
      ShownAlikeHides(live, replay);
    }
  }

  lemma {:induction false} FewerLater(small: set<ConflictKey>, keys: set<ConflictKey>, k: ConflictKey)
    requires small <= keys
    ensures Retained(keys, k) ==> Retained(small, k)
  {
    SubsetSize(LaterThan(small, k), LaterThan(keys, k));
  }

  lemma {:induction false} HiddenAlike(live: map<ConflictKey, ConflictRecord>, replay: map<ConflictKey, ConflictRecord>)
    requires live.Keys <= replay.Keys && Evicts(live)
    requires forall key :: Doubles(live, replay, key) ==> !Retained(live.Keys, key)
    ensures Retain(live) == Retain(replay) && Evicts(replay)
  {
    forall k ensures k in Retain(replay) <==> k in Retain(live) {
      FewerLater(live.Keys, replay.Keys, k);
      if k in live && Retained(live.Keys, k) && !Retained(replay.Keys, k) { StillRetained(live, replay, k); }
    }
    forall k | k in Retain(live) ensures Retain(live)[k] == Retain(replay)[k] { assert !Doubles(live, replay, k); }
    var y :| y in live && !Retained(live.Keys, y);
    FewerLater(live.Keys, replay.Keys, y);
    assert y in replay && !Retained(replay.Keys, y);
  }

  lemma {:induction false} StillRetained(
    live: map<ConflictKey, ConflictRecord>, replay: map<ConflictKey, ConflictRecord>, k: ConflictKey)
    requires live.Keys <= replay.Keys && Retained(live.Keys, k)
    requires forall key :: Doubles(live, replay, key) ==> !Retained(live.Keys, key)
    ensures Retained(replay.Keys, k)
  {
    if LaterThan(replay.Keys, k) <= LaterThan(live.Keys, k) {
      SubsetSize(LaterThan(replay.Keys, k), LaterThan(live.Keys, k));
    } else {
      var x :| x in LaterThan(replay.Keys, k) && x !in LaterThan(live.Keys, k);
      assert Doubles(live, replay, x);
      forall j | j in LaterThan(live.Keys, x) ensures j in LaterThan(live.Keys, k) { LaterIsTransitive(j, x, k); }
      SubsetSize(LaterThan(live.Keys, x), LaterThan(live.Keys, k));
    }
  }

  lemma {:induction false} ShownAlikeHides(
    live: map<ConflictKey, ConflictRecord>, replay: map<ConflictKey, ConflictRecord>)
    requires live.Keys <= replay.Keys && Retain(live) == Retain(replay) && (Evicts(live) <==> Evicts(replay))
    requires exists key :: Doubles(live, replay, key)
    ensures Evicts(live) && forall key :: Doubles(live, replay, key) ==> !Retained(live.Keys, key)
  {
    forall x | Doubles(live, replay, x) ensures !Retained(live.Keys, x) && Evicts(replay) {
      assert x !in Retain(replay);
      var kept := BoundRetained(replay.Keys, x);
      forall k | k in kept
        ensures k in LaterThan(live.Keys, x)
      {
        assert k in Retain(replay);
        assert k in Retain(live);
      }
      SubsetSize(kept, LaterThan(live.Keys, x));
    }
  }

  /** Refusals make no difference to a coalesced stretch exactly when they are covered. */
  lemma {:induction false} SameRefusalsExactly(k: map<ConflictKey, ConflictRecord>, evs: seq<Event>, es: seq<Event>)
    requires Includes(Refusals(k, evs), k)
    ensures SameRefusals(k, evs, es) <==> RefusalsCovered(k, evs, es)
  {
    var live, replay := Refusals(k, es), Refusals(k, evs + es);
    RefusalsConcat(k, evs, es);
    forall key | key in live ensures key in replay { RefusalsAt(k, Refusals(k, evs), es, key); }
    ShownAlikeExactly(live, replay);
    forall key ensures key in LeftOver(k, evs, es) <==> Doubles(live, replay, key) {}
  }

  lemma {:induction false} NothingEvictedNothingDiffers(p: Snapshot, evs: seq<Event>, s: Snapshot, es: seq<Event>)
    requires Coalesced(p, evs, s) && !p.summary.conflictOverflow
    ensures RefusalsCovered(p.conflicts, evs, es)
  {
    RefusalsConcat(p.conflicts, evs, es);
  }

  /** Whether a batch retires a refusal, and whether it refuses it again. */
  predicate Retires(es: seq<Event>, key: ConflictKey) {
    exists i :: 0 <= i < |es| && IsAccepted(es[i]) && es[i].fact.baseline && es[i].fact.source == key.source &&
      es[i].fact.component == key.component
  }

  predicate RefusesAgain(es: seq<Event>, key: ConflictKey) {
    exists i :: 0 <= i < |es| && es[i].decision.Decided? && es[i].decision.outcome.Conflict? &&
      ConflictKey(es[i].fact.source, es[i].fact.component, es[i].fact.sequence) == key
  }

  /** What is left over can be read off the events: refusals the sealed parent does not show, made since
      it was sealed, not retired by the last batch - all of those, save one refused again by the last
      batch whose count comes out the same. */
  lemma {:induction false} LeftOverMeans(
    k: map<ConflictKey, ConflictRecord>, evs: seq<Event>, es: seq<Event>, key: ConflictKey)
    requires Includes(Refusals(k, evs), k)
    ensures key in LeftOver(k, evs, es) ==> key !in k && key in Refusals(k, evs) && !Retires(es, key)
    ensures key !in k && key in Refusals(k, evs) && !Retires(es, key) && !RefusesAgain(es, key) ==>
      key in LeftOver(k, evs, es)
  {
    RefusalsConcat(k, evs, es);
    RefusalsAt(k, Refusals(k, evs), es, key);
    UntouchedRefusal(k, es, key);
    UntouchedRefusal(Refusals(k, evs), es, key);
    if Retires(es, key) { RetiredAlike(k, Refusals(k, evs), es, key); }
  }

  lemma {:induction false} UntouchedRefusal(k: map<ConflictKey, ConflictRecord>, es: seq<Event>, key: ConflictKey)
    ensures !Retires(es, key) && !RefusesAgain(es, key) ==>
      (key in Refusals(k, es) <==> key in k) && (key in k ==> Refusals(k, es)[key] == k[key])
  {
    if es != [] {
      var most := es[..|es| - 1];
      UntouchedRefusal(k, most, key);
      if Retires(most, key) {
        var i :| 0 <= i < |most| && IsAccepted(most[i]) && most[i].fact.baseline &&
          most[i].fact.source == key.source && most[i].fact.component == key.component;
        assert es[i] == most[i];
      }
      if RefusesAgain(most, key) {
        var i :| 0 <= i < |most| && most[i].decision.Decided? && most[i].decision.outcome.Conflict? &&
          ConflictKey(most[i].fact.source, most[i].fact.component, most[i].fact.sequence) == key;
        assert es[i] == most[i];
      }
      assert es[|es| - 1] == es[|es| - 1];
    }
  }

  /** Once retired, a refusal does not remember where the batch began. */
  lemma {:induction false} RetiredAlike(
    a: map<ConflictKey, ConflictRecord>, b: map<ConflictKey, ConflictRecord>, es: seq<Event>, key: ConflictKey)
    requires Retires(es, key)
    ensures (key in Refusals(a, es) <==> key in Refusals(b, es))
    ensures (key in Refusals(a, es) ==> Refusals(a, es)[key] == Refusals(b, es)[key])
  {
    var most := es[..|es| - 1];
    assert forall k :: 0 <= k < |most| ==> most[k] == es[k];
    if Retires(most, key) { RetiredAlike(a, b, most, key); }
  }

  // ----- The retained conflicts are the newest, and within the bound -----

  lemma {:induction false} NameRankInjective(a: Component, b: Component)
    ensures NameRank(a) == NameRank(b) ==> a == b
  {
  }

  lemma {:induction false} OldestKey(keys: set<ConflictKey>, src: SourceId) returns (oldest: ConflictKey)
    requires keys != {} && forall k :: k in keys ==> k.source == src
    ensures oldest in keys && forall k :: k in keys ==> k == oldest || Later(k, oldest)
    decreases |keys|
  {
    oldest :| oldest in keys;
    var rest := keys - {oldest};
    assert keys == rest + {oldest};
    if rest != {} {
      var other := OldestKey(rest, src);
      NameRankInjective(other.component, oldest.component);
      forall k | k in rest ensures k == other || (Later(k, other) && (Later(other, oldest) ==> Later(k, oldest))) {
      }
      if !Later(other, oldest) { oldest := other; }
    }
  }

  /** No source keeps more than the bound. */
  lemma {:induction false} RetainBounded(conflicts: map<ConflictKey, ConflictRecord>, src: SourceId)
    ensures |OfSource(Retain(conflicts).Keys, src)| <= MAX_CONFLICT_RECORDS
  {
    var kept := OfSource(Retain(conflicts).Keys, src);
    if kept != {} {
      var oldest := OldestKey(kept, src);
      var later := LaterThan(conflicts.Keys, oldest);
      SubsetSize(kept - {oldest}, later);
    }
  }

  lemma {:induction false} SubsetSize<T>(a: set<T>, b: set<T>)
    requires a <= b
    ensures |a| <= |b|
    decreases |a|
  {
    if a != {} {
      var x :| x in a;
      SubsetSize(a - {x}, b - {x});
    }
  }

  /** Eviction is by age: whatever is later than a retained refusal is retained too. */
  lemma {:induction false} RetainKeepsNewest(
    conflicts: map<ConflictKey, ConflictRecord>, k: ConflictKey, j: ConflictKey)
    requires k in Retain(conflicts) && j in conflicts && Later(j, k)
    ensures j in Retain(conflicts) && Retain(conflicts)[j] == conflicts[j]
  {
    SubsetSize(LaterThan(conflicts.Keys, j), LaterThan(conflicts.Keys, k));
  }

  lemma {:induction false} RetainedEvictsNothing(conflicts: map<ConflictKey, ConflictRecord>)
    ensures !Evicts(Retain(conflicts))
  {
    var kept := Retain(conflicts).Keys;
    forall k | k in kept ensures Retained(kept, k) {
      RetainBounded(conflicts, k.source);
      SubsetSize(LaterThan(kept, k), OfSource(kept, k.source) - {k});
    }
  }

  /** A refusal made again since it was evicted, and then a batch with nothing in it, is not covered. */
  lemma {:induction false} QuietAfterEvictionIsUncovered(
    conflicts: map<ConflictKey, ConflictRecord>, evs: seq<Event>, key: ConflictKey)
    requires var k := Retain(conflicts); Includes(Refusals(k, evs), k) && key !in k && key in Refusals(k, evs)
    ensures !RefusalsCovered(Retain(conflicts), evs, [])
  {
    RetainedEvictsNothing(conflicts);
    LeftOverMeans(Retain(conflicts), evs, [], key);
  }

  // ----- Output is always storable -----

  /** Tables whose sources respect the acceptor's bounds. */
  predicate StorableTables(t: Tables) {
    && AllKnown(t)
    && (forall id :: id in t.sources ==> StorableSource(t.sources[id], id))
    && (forall c: Component :: |t.components[c].corroborations| <= MAX_CORROBORATIONS)
  }

  predicate Bounded(es: seq<Event>) {
    forall i :: 0 <= i < |es| ==> es[i].decision.Decided? && ValidSource(es[i].decision.source, es[i].fact.source)
  }

  lemma {:induction false} ValidIsStorable(s: SourceState, src: SourceId, w: Watermark)
    requires ValidSource(s, src) && w.state == s
    ensures StorableSource(w, src)
  {
    SubsetSize(s.pending, Declared(src));
  }

  lemma {:induction false} ApplyStorable(t: Tables, e: Event)
    requires StorableTables(t) && e.decision.Decided? && ValidSource(e.decision.source, e.fact.source)
    ensures StorableTables(Apply(t, e))
  {
    var u := Apply(t, e);
    if IsAccepted(e) || e.decision.outcome.Conflict? {
      ValidIsStorable(e.decision.source, e.fact.source, u.sources[e.fact.source]);
    }
  }

  lemma {:induction false} FoldStorable(t: Tables, es: seq<Event>)
    requires StorableTables(t) && Bounded(es) && Fold(t, es).Some?
    ensures StorableTables(Fold(t, es).value)
  {
    if es != [] {
      FoldStorable(t, es[..|es| - 1]);
      ApplyStorable(Fold(t, es[..|es| - 1]).value, es[|es| - 1]);
    }
  }

  /** A conclusion is refused only for a policy that cannot be read. */
  lemma {:induction false} ConcludeSucceeds(t: Tables, x: Context, before: Option<Before>)
    requires StorableTables(t) && ValidPolicies(x.policies) && (before.Some? ==> before.value.generation > 0)
    ensures Conclude(t, x, before).Ok?
  {
    forall k | k in Retain(t.conflicts) ensures |OfSource(Retain(t.conflicts).Keys, k.source)| <= MAX_CONFLICT_RECORDS {
      RetainBounded(t.conflicts, k.source);
    }
  }

  // ----- What a ready aggregate means -----

  /** The summary cannot report better than its worst component or its worst stream. */
  lemma {:induction false} ReadyMeansWhole(records: map<Component, ComponentRecord>, sources: map<SourceId, Watermark>)
    requires forall c: Component :: c in records
    ensures AggregateOf(records, sources).AggregateReady? <==>
      && (forall c: Component :: records[c].state.StateReady? || records[c].state.StateNotApplicable?)
      && (forall id :: id in sources ==> WholeStream(sources[id].state))
  {
    NoneInStateMeans(records);
    InterruptedMeans(sources);
  }

  predicate WholeStream(s: SourceState) {
    s.gaps == [] && !s.overflow && s.pending == {} && s.conflicts == 0
  }

  lemma {:induction false} NoneInStateMeans(records: map<Component, ComponentRecord>)
    requires forall c: Component :: c in records
    ensures forall s: ComponentState :: |InState(records, s)| > 0 <==> exists c: Component :: records[c].state == s
  {
    forall s: ComponentState ensures |InState(records, s)| > 0 <==> exists c: Component :: records[c].state == s {
      if c: Component :| records[c].state == s {
        assert c in InState(records, s);
      }
      if |InState(records, s)| > 0 {
        var c :| c in InState(records, s);
      }
    }
  }

  lemma {:induction false} InterruptedMeans(sources: map<SourceId, Watermark>)
    ensures Interrupted(sources) <==> exists id :: id in sources && !WholeStream(sources[id].state)
  {
    if id :| id in sources && !WholeStream(sources[id].state) {
      if sources[id].state.gaps != [] { assert (id, 0) in OpenGaps(sources); }
      if sources[id].state.pending != {} { assert id in Awaiting(sources); }
      if sources[id].state.conflicts != 0 { assert id in Conflicted(sources); }
    }
    if Interrupted(sources) {
      if |OpenGaps(sources)| > 0 { var g :| g in OpenGaps(sources); assert !WholeStream(sources[g.0].state); }
      if |Awaiting(sources)| > 0 { var id :| id in Awaiting(sources); assert !WholeStream(sources[id].state); }
      if |Conflicted(sources)| > 0 { var id :| id in Conflicted(sources); assert !WholeStream(sources[id].state); }
    }
  }

  /** A component is concluded ready or not applicable only on a current, fresh, undisputed observation. */
  lemma {:induction false} SettledMeansCurrent(r: Evidence, conflicts: nat, boot: string, tick: int)
    ensures var s := DeriveState(r, conflicts, boot, tick);
      (s.StateReady? || s.StateNotApplicable?) <==>
      (r.observed.Ready? || r.observed.NotApplicable?) && conflicts == 0 && r.boot == boot && !r.rebaseline &&
        tick <= r.deadline
  {
  }

  // ----- Policy rollback -----

  lemma {:induction false} AuthorizedExactly(input: Input)
    requires Reduce(input).Ok?
    ensures var o := Reduce(input).output; var p := input.context.policy;
      && o.snapshot.policy == p
      && (o.snapshot.authorization.Authorized? <==>
          MayAuthorize(p) && (input.prior.Some? ==> !MovedBack(p, input.prior.value.policy)))
      && (!o.snapshot.authorization.Authorized? ==> o.proposals == map[])
  {
    ReducedShape(input);
    ReductionAuthorizes(input, Fold(MarkedStart(input), input.events).value);
    AuthorizeMeans(input.context.policy, if input.prior.Some? then Some(input.prior.value.policy) else None);
  }

  lemma {:induction false} AuthorizeMeans(p: Policy, prior: Option<Policy>)
    ensures Authorize(p, prior).Authorized? <==> MayAuthorize(p) && (prior.Some? ==> !MovedBack(p, prior.value))
  {
  }

  lemma {:induction false} ReductionAuthorizes(input: Input, t: Tables)
    requires Reduce(input).Ok? && ValidInput(input) && Fold(MarkedStart(input), input.events) == Some(t)
    ensures var o := Reduce(input).output;
      && o.snapshot.policy == input.context.policy
      && o.snapshot.authorization ==
        Authorize(input.context.policy, if input.prior.Some? then Some(input.prior.value.policy) else None)
      && (!o.snapshot.authorization.Authorized? ==> o.proposals == map[])
  {
    ConclusionAuthorizes(t, input.context, View(input.prior));
    if input.prior.Some? { assert Project(input.prior.value).policy == input.prior.value.policy; }
  }

  lemma {:induction false} ConclusionAuthorizes(t: Tables, x: Context, before: Option<Before>)
    requires AllKnown(t) && Conclude(t, x, before).Ok?
    ensures var o := Conclude(t, x, before).output;
      && o.snapshot.policy == x.policy
      && o.snapshot.authorization == Authorize(x.policy, if before.Some? then Some(before.value.seen.policy) else None)
      && (!o.snapshot.authorization.Authorized? ==> o.proposals == map[])
  {
  }

  /** A policy whose generations moved back is refused, and proposes nothing, for one reduction only:
      the refused policy becomes the prior one, so the same policy is authorized by the next. */
  lemma {:induction false} RollbackIsRefusedOnce(first: Input, second: Input)
    requires Reduce(first).Ok? && Reduce(second).Ok? && second.prior == Some(Reduce(first).output.snapshot)
    requires first.prior.Some? && second.context.policy == first.context.policy && MayAuthorize(first.context.policy)
    requires MovedBack(first.context.policy, first.prior.value.policy)
    ensures !Reduce(first).output.snapshot.authorization.Authorized? && Reduce(first).output.proposals == map[]
    ensures Reduce(second).output.snapshot.authorization.Authorized?
  {
    AuthorizedExactly(first);
    AuthorizedExactly(second);
  }
}

/** Splitting a batch across reductions that change nothing loses nothing. */
module ReductionTheorems {
  import opened Facts
  import opened Acceptance
  import opened Reducer
  import opened Comparison
  import opened Reduction

  // ----- Folding -----

  lemma {:induction false} FoldConcat(t: Tables, a: seq<Event>, b: seq<Event>)
    requires AllKnown(t)
    ensures Fold(t, a + b) == match Fold(t, a) case None => None case Some(u) => Fold(u, b)
    decreases |b|
  {
    if b == [] {
      assert a + b == a;
    } else {
      assert (a + b)[..|a + b| - 1] == a + b[..|b| - 1];
      FoldConcat(t, a, b[..|b| - 1]);
    }
  }

  predicate RestatesOwned(e: Event) {
    IsAccepted(e) && e.decision.role.Authoritative? && e.fact.baseline
  }

  /** The components some owner restated in full within a batch. */
  function Baselined(es: seq<Event>): set<Component> {
    if es == [] then {}
    else Baselined(es[..|es| - 1]) + (if RestatesOwned(es[|es| - 1]) then {es[|es| - 1].fact.component} else {})
  }

  lemma {:induction false} BaselinedConcat(a: seq<Event>, b: seq<Event>)
    ensures Baselined(a + b) == Baselined(a) + Baselined(b)
    decreases |b|
  {
    if b == [] {
      assert a + b == a;
    } else {
      assert (a + b)[..|a + b| - 1] == a + b[..|b| - 1];
      BaselinedConcat(a, b[..|b| - 1]);
    }
  }

  // ----- A mark survives the fold until its owner restates the component -----

  lemma {:induction false} HeardMarked(r: Evidence, e: Event)
    requires IsAccepted(e)
    ensures Heard(r.(rebaseline := true), e) ==
      if RestatesOwned(e) then Heard(r, e) else Heard(r, e).(rebaseline := true)
  {
  }

  lemma {:induction false} HeardRebaseline(r: Evidence, e: Event)
    requires IsAccepted(e)
    ensures Heard(r, e).rebaseline == (r.rebaseline && !RestatesOwned(e))
  {
  }

  lemma {:induction false} ApplyMarked(t: Tables, cs: set<Component>, e: Event)
    requires AllKnown(t) && e.decision.Decided?
    ensures Apply(Mark(t, cs), e) ==
      Mark(Apply(t, e), if RestatesOwned(e) then cs - {e.fact.component} else cs)
  {
    var left, right := Apply(Mark(t, cs), e),
      Mark(Apply(t, e), if RestatesOwned(e) then cs - {e.fact.component} else cs);
    forall c: Component ensures left.components[c] == right.components[c] {
      if IsAccepted(e) && c == e.fact.component { HeardMarked(t.components[c], e); }
    }
    assert left.components == right.components;
  }

  lemma {:induction false} FoldMarked(t: Tables, cs: set<Component>, es: seq<Event>)
    requires AllKnown(t)
    ensures Fold(Mark(t, cs), es) ==
      match Fold(t, es) case None => None case Some(u) => Some(Mark(u, cs - Baselined(es)))
  {
    if es == [] {
      assert cs - {} == cs;
    } else {
      var most, e := es[..|es| - 1], es[|es| - 1];
      FoldMarked(t, cs, most);
      if Fold(t, most).Some? && NextInOrder(Fold(t, most).value, e) {
        var rest := cs - Baselined(most);
        ApplyMarked(Fold(t, most).value, rest, e);
        assert cs - Baselined(es) == if RestatesOwned(e) then rest - {e.fact.component} else rest;
      }
    }
  }

  lemma {:induction false} FoldRebaseline(t: Tables, es: seq<Event>, c: Component)
    requires AllKnown(t) && Fold(t, es).Some?
    ensures Fold(t, es).value.components[c].rebaseline == (t.components[c].rebaseline && c !in Baselined(es))
  {
    if es != [] {
      var most, e := es[..|es| - 1], es[|es| - 1];
      FoldRebaseline(t, most, c);
      var u := Fold(t, most).value;
      if IsAccepted(e) && c == e.fact.component { HeardRebaseline(u.components[c], e); }
    }
  }

  // ----- Refusals travel apart from everything else -----

  /** What a batch does to the table of refusals. */
  function Refusals(k: map<ConflictKey, ConflictRecord>, es: seq<Event>): map<ConflictKey, ConflictRecord> {
    if es == [] then k
    else
      var before, e := Refusals(k, es[..|es| - 1]), es[|es| - 1];
      if !e.decision.Decided? then before
      else if e.decision.outcome.Conflict? then Refuse(before, e)
      else if e.decision.outcome.Accepted? && e.fact.baseline then Retire(before, e.fact.source, e.fact.component)
      else before
  }

  lemma {:induction false} RefusalsConcat(k: map<ConflictKey, ConflictRecord>, a: seq<Event>, b: seq<Event>)
    ensures Refusals(k, a + b) == Refusals(Refusals(k, a), b)
    decreases |b|
  {
    if b == [] {
      assert a + b == a;
    } else {
      assert (a + b)[..|a + b| - 1] == a + b[..|b| - 1];
      RefusalsConcat(k, a, b[..|b| - 1]);
    }
  }

  predicate Includes(t: map<ConflictKey, ConflictRecord>, k: map<ConflictKey, ConflictRecord>) {
    forall key :: key in k ==> key in t && t[key] == k[key]
  }

  /** What a batch does to one refusal depends on that refusal alone. */
  lemma {:induction false} RefusalsAt(
    a: map<ConflictKey, ConflictRecord>, b: map<ConflictKey, ConflictRecord>, es: seq<Event>, key: ConflictKey)
    ensures (key in a ==> key in b) && key in Refusals(a, es) ==> key in Refusals(b, es)
    ensures (key in a <==> key in b) && (key in a ==> a[key] == b[key]) ==>
      (key in Refusals(a, es) <==> key in Refusals(b, es)) &&
        (key in Refusals(a, es) ==> Refusals(a, es)[key] == Refusals(b, es)[key])
  {
    if es != [] { RefusalsAt(a, b, es[..|es| - 1], key); }
  }

  lemma {:induction false} RetainedAreIncluded(
    conflicts: map<ConflictKey, ConflictRecord>, k: map<ConflictKey, ConflictRecord>)
    requires Retain(conflicts) == k
    ensures Includes(conflicts, k)
  {
  }

  /** A further batch that shows the same refusals keeps them included. */
  lemma {:induction false} StillIncluded(
    k: map<ConflictKey, ConflictRecord>, t: map<ConflictKey, ConflictRecord>, es: seq<Event>)
    requires Includes(t, k) && Includes(Refusals(k, es), k)
    ensures Includes(Refusals(t, es), k)
  {
    forall key | key in k
      ensures key in Refusals(t, es) && Refusals(t, es)[key] == k[key]
    {
      RefusalsAt(k, t, es, key);
    }
  }

  /** Folding over another table of refusals changes nothing but the refusals. */
  lemma {:induction false} FoldRefusals(t: Tables, k: map<ConflictKey, ConflictRecord>, es: seq<Event>)
    requires AllKnown(t)
    ensures Fold(t.(conflicts := k), es) ==
      match Fold(t, es) case None => None case Some(u) => Some(u.(conflicts := Refusals(k, es)))
  {
    if es != [] { FoldRefusals(t, k, es[..|es| - 1]); }
  }

  lemma {:induction false} FoldedRefusals(t: Tables, es: seq<Event>)
    requires AllKnown(t) && Fold(t, es).Some?
    ensures Fold(t, es).value.conflicts == Refusals(t.conflicts, es)
  {
    FoldRefusals(t, t.conflicts, es);
  }

  // ----- Rendering loses nothing but evicted refusals -----

  lemma {:induction false} NothingEvicted(conflicts: map<ConflictKey, ConflictRecord>)
    requires !Evicts(conflicts)
    ensures Retain(conflicts) == conflicts
  {
  }

  lemma {:induction false} RenderedTables(t: Tables, x: Context, a: Authorization, g: nat)
    requires AllKnown(t)
    ensures TablesOf(SnapshotOf(t, x, a, g)) == t.(conflicts := Retain(t.conflicts))
    ensures !SnapshotOf(t, x, a, g).summary.conflictOverflow ==> Retain(t.conflicts) == t.conflicts
  {
    if !Evicts(t.conflicts) { NothingEvicted(t.conflicts); }
    var r := TablesOf(SnapshotOf(t, x, a, g));
    assert forall c: Component :: r.components[c] == t.components[c];
    assert r.components == t.components;
  }

  // ----- Coalescing -----

  /** A component has been observed exactly when it carries a payload. */
  predicate WellObserved(s: Snapshot) {
    forall c: Component :: c in s.components ==>
      (s.components[c].evidence.host > 0 <==> s.components[c].evidence.payload.Some?)
  }

  /** `s` was reached from `p` by reductions that changed nothing and folded exactly `evs`.  Refusals
      evicted on the way are the only thing `s` may have lost. */
  predicate Coalesced(p: Snapshot, evs: seq<Event>, s: Snapshot) {
    && Complete(p) && Complete(s)
    && ValidSnapshot(p)
    && Foldable(evs)
    && Fold(TablesOf(p), evs) == Some(TablesOf(s).(conflicts := Refusals(p.conflicts, evs)))
    && Includes(Refusals(p.conflicts, evs), p.conflicts)
    && (!p.summary.conflictOverflow ==> Refusals(p.conflicts, evs) == p.conflicts)
    && Project(p) == Project(s)
    && p.generation == s.generation
    && p.tick <= s.tick
  }

  lemma {:induction false} CoalescedAlready(p: Snapshot)
    requires ValidSnapshot(p)
    ensures Coalesced(p, [], p)
  {
  }

  lemma {:induction false} ProjectedComponent(p: Snapshot, s: Snapshot, c: Component)
    requires Complete(p) && Complete(s) && Project(p) == Project(s)
    ensures p.components[c].evidence.rebaseline == s.components[c].evidence.rebaseline
    ensures p.components[c].evidence.payload == s.components[c].evidence.payload
  {
    assert Project(p).components[c] == ProjectComponent(p.components[c]);
    assert Project(s).components[c] == ProjectComponent(s.components[c]);
  }

  /** Marking what is already required changes nothing. */
  lemma {:induction false} MarkAlready(t: Tables, cs: set<Component>)
    requires AllKnown(t) && forall c :: c in cs ==> t.components[c].rebaseline
    ensures Mark(t, cs) == t
  {
    assert forall c: Component :: Mark(t, cs).components[c] == t.components[c];
    assert Mark(t, cs).components == t.components;
  }

  /** The tables one reduction folds, with its marks pushed past the batch. */
  lemma {:induction false} FoldedTables(input: Input)
    requires ValidInput(input)
    ensures var start := StartTables(input);
      var marks := if Withdraws(input.prior, input.context) then Observed(start) else {};
      Fold(MarkedStart(input), input.events) ==
      match Fold(start, input.events) case None => None case Some(u) => Some(Mark(u, marks - Baselined(input.events)))
  {
    var start := StartTables(input);
    if Withdraws(input.prior, input.context) {
      FoldMarked(start, Observed(start), input.events);
    } else if Fold(start, input.events).Some? {
      MarkAlready(Fold(start, input.events).value, {} - Baselined(input.events));
    }
  }

  /** In a reduction that changed nothing, a wake left no trace the unmarked fold would not have left. */
  lemma {:induction false} IneffectiveMarks(
    s: Snapshot, u: Tables, cs: set<Component>, es: seq<Event>, x: Context, after: Snapshot)
    requires Complete(s) && AllKnown(u) && Fold(TablesOf(s), es) == Some(u)
    requires Complete(after) && Project(after) == Project(s)
    requires forall c: Component :: after.components[c].evidence == Mark(u, cs - Baselined(es)).components[c]
    ensures Mark(u, cs - Baselined(es)) == u
  {
    forall c | c in cs - Baselined(es) ensures u.components[c].rebaseline {
      FoldRebaseline(TablesOf(s), es, c);
      ProjectedComponent(after, s, c);
    }
    MarkAlready(u, cs - Baselined(es));
  }

  /** A successful reduction is its folded tables, rendered. */
  lemma {:induction false} ReducedShape(input: Input)
    requires Reduce(input).Ok?
    ensures ValidInput(input) && Fold(MarkedStart(input), input.events).Some?
    ensures var t := Fold(MarkedStart(input), input.events).value;
      var s := Reduce(input).output.snapshot;
      && s == SnapshotOf(t, input.context, s.authorization, s.generation)
      && ValidSnapshot(s)
  {
  }

  lemma {:induction false} UnchangedShape(input: Input)
    requires Reduce(input).Ok? && !Reduce(input).output.changed
    ensures input.prior.Some?
    ensures var s := Reduce(input).output.snapshot;
      Project(s) == Project(input.prior.value) && s.generation == input.prior.value.generation
  {
  }

  /** A reduction that changes nothing, wake or no wake, can be folded into the next one. */
  lemma {:induction false} IneffectiveTickCoalesces(p: Snapshot, evs: seq<Event>, s: Snapshot, input: Input)
    requires Coalesced(p, evs, s)
    requires input.prior == Some(s) && Reduce(input).Ok? && !Reduce(input).output.changed
    ensures Coalesced(p, evs + input.events, Reduce(input).output.snapshot)
  {
    ReducedShape(input);
    UnchangedShape(input);
    IneffectiveAfter(p, evs, s, input, Fold(MarkedStart(input), input.events).value, Reduce(input).output.snapshot);
  }

  lemma {:induction false} IneffectiveAfter(
    p: Snapshot, evs: seq<Event>, s: Snapshot, input: Input, t: Tables, after: Snapshot)
    requires Coalesced(p, evs, s)
    requires input.prior == Some(s) && ValidInput(input) && Fold(MarkedStart(input), input.events) == Some(t)
    requires after == SnapshotOf(t, input.context, after.authorization, after.generation)
    requires Project(after) == Project(s) && after.generation == s.generation
    ensures Coalesced(p, evs + input.events, after)
  {
    SameOutline(p, s);
    SameOutline(after, s);
    RenderedTables(t, input.context, after.authorization, after.generation);
    IneffectiveFold(s, input, t, after);
    IneffectiveRefusals(p, evs, s, input.events, t, after);
  }

  lemma {:induction false} IneffectiveRefusals(
    p: Snapshot, evs: seq<Event>, s: Snapshot, es: seq<Event>, t: Tables, after: Snapshot)
    requires Complete(p) && Complete(s) && Complete(after)
    requires Fold(TablesOf(p), evs) == Some(TablesOf(s).(conflicts := Refusals(p.conflicts, evs)))
    requires Fold(TablesOf(s), es) == Some(t) && TablesOf(after) == t.(conflicts := Retain(t.conflicts))
    requires s.conflicts == p.conflicts && after.conflicts == p.conflicts
    requires !p.summary.conflictOverflow ==>
      Retain(t.conflicts) == t.conflicts && Refusals(p.conflicts, evs) == p.conflicts
    requires Includes(Refusals(p.conflicts, evs), p.conflicts)
    ensures Includes(Refusals(p.conflicts, evs + es), p.conflicts)
    ensures Fold(TablesOf(p), evs + es) == Some(TablesOf(after).(conflicts := Refusals(p.conflicts, evs + es)))
    ensures !p.summary.conflictOverflow ==> Refusals(p.conflicts, evs + es) == p.conflicts
  {
    FoldConcat(TablesOf(p), evs, es);
    FoldRefusals(TablesOf(s), Refusals(p.conflicts, evs), es);
    RefusalsConcat(p.conflicts, evs, es);
    FoldedRefusals(TablesOf(s), es);
    RetainedAreIncluded(t.conflicts, p.conflicts);
    StillIncluded(p.conflicts, Refusals(p.conflicts, evs), es);
  }

  lemma {:induction false} SameOutline(p: Snapshot, s: Snapshot)
    requires Project(p) == Project(s)
    ensures p.boot == s.boot && p.summary == s.summary && p.policy == s.policy && p.conflicts == s.conflicts
  {
    assert Project(p).conflicts == p.conflicts && Project(s).conflicts == s.conflicts;
    assert Project(p).boot == p.boot && Project(s).boot == s.boot;
    assert Project(p).summary == p.summary && Project(s).summary == s.summary;
    assert Project(p).policy == p.policy && Project(s).policy == s.policy;
  }

  lemma {:induction false} IneffectiveFold(s: Snapshot, input: Input, t: Tables, after: Snapshot)
    requires Complete(s) && input.prior == Some(s) && ValidInput(input)
    requires Fold(MarkedStart(input), input.events) == Some(t)
    requires Complete(after) && Project(after) == Project(s) && TablesOf(after).components == t.components
    ensures Fold(TablesOf(s), input.events) == Some(t)
  {
    FoldedTables(input);
    var u := Fold(TablesOf(s), input.events).value;
    var cs := if Withdraws(input.prior, input.context) then Observed(TablesOf(s)) else {};
    forall c: Component ensures after.components[c].evidence == Mark(u, cs - Baselined(input.events)).components[c] {
      assert TablesOf(after).components[c] == after.components[c].evidence;
    }
    IneffectiveMarks(s, u, cs, input.events, input.context, after);
  }

  /** When the last reduction withdraws assumptions, every component restated before it in the
      coalesced stretch was restated again within it. */
  predicate WakeCovered(p: Snapshot, evs: seq<Event>, input: Input)
    requires Complete(p)
  {
    Withdraws(Some(p), input.context) ==> Observed(TablesOf(p)) * Baselined(evs) <= Baselined(input.events)
  }

  lemma {:induction false} SameObserved(p: Snapshot, s: Snapshot)
    requires Complete(p) && Complete(s) && Project(p) == Project(s) && WellObserved(p) && WellObserved(s)
    ensures Observed(TablesOf(p)) == Observed(TablesOf(s))
  {
    forall c: Component ensures c in Observed(TablesOf(p)) <==> c in Observed(TablesOf(s)) {
      ProjectedComponent(p, s, c);
    }
  }

  /** Marking two sets gives the same tables exactly when they differ only where it is already required. */
  lemma {:induction false} MarksAgree(u: Tables, a: set<Component>, b: set<Component>)
    requires AllKnown(u) && b <= a
    requires forall c :: c in a - b ==> !u.components[c].rebaseline
    ensures Mark(u, a) == Mark(u, b) <==> a == b
  {
    if a != b {
      var c :| c in a && c !in b;
      assert Mark(u, a).components[c].rebaseline && !Mark(u, b).components[c].rebaseline;
    }
  }

  /** The last reduction of a coalesced stretch, done from `s`, and the same done in one piece from
      `p`, fold the same tables, refusals aside, exactly when the wake is covered. */
  lemma {:induction false} CoalescedFold(p: Snapshot, evs: seq<Event>, s: Snapshot, live: Input, replay: Input)
    requires Coalesced(p, evs, s) && WellObserved(p) && WellObserved(s)
    requires live.prior == Some(s) && replay.prior == Some(p) && replay.context == live.context
    requires replay.events == evs + live.events && ValidInput(live) && ValidInput(replay)
    requires Fold(MarkedStart(live), live.events).Some?
    ensures Fold(MarkedStart(replay), replay.events).Some?
    ensures var t, u := Fold(MarkedStart(live), live.events).value, Fold(MarkedStart(replay), replay.events).value;
      && t.conflicts == Refusals(p.conflicts, live.events) && u.conflicts == Refusals(p.conflicts, evs + live.events)
      && u.(components := t.components, conflicts := t.conflicts) == t
      && (u.components == t.components <==> WakeCovered(p, evs, live))
  {
    FoldedTables(live);
    FoldedTables(replay);
    SameObserved(p, s);
    SameOutline(p, s);
    var marks := if Withdraws(live.prior, live.context) then Observed(TablesOf(p)) else {};
    CoalescedUnmarked(p, evs, s, live.events);
    var u := Fold(TablesOf(p), evs + live.events).value;
    MarkDifference(p, evs, live.events, u, marks);
    MarksIgnoreRefusals(u, Fold(TablesOf(s), live.events).value, marks - Baselined(live.events), marks
      - Baselined(evs + live.events));
  }

  lemma {:induction false} CoalescedUnmarked(p: Snapshot, evs: seq<Event>, s: Snapshot, es: seq<Event>)
    requires Coalesced(p, evs, s) && s.conflicts == p.conflicts && Fold(TablesOf(s), es).Some?
    ensures Fold(TablesOf(p), evs + es) ==
      Some(Fold(TablesOf(s), es).value.(conflicts := Refusals(p.conflicts, evs + es)))
    ensures Fold(TablesOf(s), es).value.conflicts == Refusals(p.conflicts, es)
  {
    FoldConcat(TablesOf(p), evs, es);
    FoldRefusals(TablesOf(s), Refusals(p.conflicts, evs), es);
    RefusalsConcat(p.conflicts, evs, es);
    FoldedRefusals(TablesOf(s), es);
  }

  lemma {:induction false} MarksIgnoreRefusals(u: Tables, v: Tables, a: set<Component>, b: set<Component>)
    requires AllKnown(u) && AllKnown(v) && u == v.(conflicts := u.conflicts)
    ensures Mark(u, a).components == Mark(v, a).components
    ensures Mark(u, a) == Mark(u, b) <==> Mark(u, b).components == Mark(v, a).components
  {
  }

  lemma {:induction false} MarkDifference(
    p: Snapshot, evs: seq<Event>, es: seq<Event>, u: Tables, marks: set<Component>)
    requires Complete(p) && Fold(TablesOf(p), evs + es) == Some(u)
    ensures Mark(u, marks - Baselined(evs + es)) == Mark(u, marks - Baselined(es)) <==>
      marks * Baselined(evs) <= Baselined(es)
  {
    BaselinedConcat(evs, es);
    var a, b := marks - Baselined(es), marks - Baselined(evs + es);
    forall c | c in a - b ensures !u.components[c].rebaseline {
      FoldRebaseline(TablesOf(p), evs + es, c);
    }
    MarksAgree(u, a, b);
    assert a == b <==> marks * Baselined(evs) <= Baselined(es);
  }
}

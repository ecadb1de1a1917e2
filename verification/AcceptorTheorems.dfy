/** The acceptor's bounded state is an exact account of the whole decision history. */
module AcceptorTheorems {
  import opened Facts
  import opened Acceptance
  import opened History

  // ----- The linking invariant -----

  /** What the history says about one source. */
  ghost function About(es: seq<Event>, src: SourceId): Account {
    Account(LastBoot(es, src), Stream(es, src), Since(es, src), Debt(es, src), Reuses(es, src))
  }

  datatype Account = Account(
    boot: Option<string>,
    stream: seq<Fact>,
    since: seq<Fact>,
    debt: set<Component>,
    reuses: nat)

  /** The position and the retry window are those of the source's whole stream. */
  predicate PositionAgrees(s: SourceState, a: Account) {
    && a.boot == Some(s.boot)
    && a.stream != []
    && Ascending(a.stream)
    && s.last == LastSequence(a.stream)
    && s.recent == LastN(Digests(a.stream), RETRY_WINDOW)
  }

  /** The holes, the debt and the conflict count are those since the last discharge or boot. */
  predicate IntegrityAgrees(s: SourceState, a: Account) {
    && 0 < |a.since| <= |a.stream|
    && a.since == a.stream[|a.stream| - |a.since|..]
    && KeepsNewest(s, Holes(a.since))
    && s.pending == a.debt
    && s.conflicts == a.reuses % UINT32
    && (a.debt == {} ==> Holes(a.since) == [] && a.reuses == 0)
  }

  predicate Agrees(s: SourceState, a: Account) {
    PositionAgrees(s, a) && IntegrityAgrees(s, a)
  }

  /** Every source the acceptor knows agrees with the history, and it knows every source that spoke. */
  ghost predicate Linked(st: State, es: seq<Event>) {
    forall src: SourceId :: LinkedAt(st, About(es, src), src)
  }

  predicate LinkedAt(st: State, a: Account, src: SourceId) {
    if src in st.sources then a.boot.Some? && Agrees(st.sources[src], a)
    else a.boot.None? && a.debt == {}
  }

  // ----- Debt grows and shrinks one event at a time -----

  lemma {:induction false} OwesSnocOnly(es: seq<Event>, e: Event, src: SourceId, c: Component)
    requires Owes(es + [e], src, c)
    ensures (Owes(es, src, c) || Breaks(es, e, src)) && !Restates(e, src, c)
  {
    var all := es + [e];
    var k :| 0 <= k < |all| && Breaks(all[..k], all[k], src) && NotRestatedFrom(all, k, src, c);
    assert all[|es|] == e;
    assert all[..k] == es[..k];
    if k < |es| {
      assert all[k] == es[k];
      forall j | k <= j < |es| ensures !Restates(es[j], src, c) { assert all[j] == es[j]; }
    } else {
      assert es[..k] == es;
    }
  }

  lemma {:induction false} OwesSnocIf(es: seq<Event>, e: Event, src: SourceId, c: Component)
    requires (Owes(es, src, c) || Breaks(es, e, src)) && !Restates(e, src, c)
    ensures Owes(es + [e], src, c)
  {
    var all := es + [e];
    if Breaks(es, e, src) {
      assert all[..|es|] == es && all[|es|] == e;
      assert NotRestatedFrom(all, |es|, src, c);
    } else {
      var k :| 0 <= k < |es| && Breaks(es[..k], es[k], src) && NotRestatedFrom(es, k, src, c);
      assert all[..k] == es[..k] && all[k] == es[k];
      forall j | k <= j < |all| ensures !Restates(all[j], src, c) {
        if j < |es| { assert all[j] == es[j]; }
      }
      assert NotRestatedFrom(all, k, src, c);
    }
  }

  /** A break puts every declared component back on the hook; a restatement lets one off. */
  lemma {:induction false} DebtSnoc(es: seq<Event>, e: Event, src: SourceId)
    ensures Debt(es + [e], src) ==
      (if Breaks(es, e, src) then Declared(src) else Debt(es, src)) -
      (if IsAccepted(e) && e.fact.source == src && e.fact.baseline then {e.fact.component} else {})
  {
    forall c | c in Declared(src)
      ensures Owes(es + [e], src, c) <==> (Owes(es, src, c) || Breaks(es, e, src)) && !Restates(e, src, c)
    {
      if Owes(es + [e], src, c) { OwesSnocOnly(es, e, src, c); }
      if (Owes(es, src, c) || Breaks(es, e, src)) && !Restates(e, src, c) { OwesSnocIf(es, e, src, c); }
    }
  }

  // ----- How one event changes the account -----

  lemma {:induction false} SnocParts(es: seq<Event>, e: Event)
    ensures (es + [e])[|es + [e]| - 1] == e && (es + [e])[..|es + [e]| - 1] == es
  {
  }

  /** An event of another source says nothing about this one. */
  lemma {:induction false} OthersUnaffected(es: seq<Event>, e: Event, src: SourceId)
    requires e.fact.source != src
    ensures About(es + [e], src) == About(es, src)
  {
    SnocParts(es, e);
    DebtSnoc(es, e, src);
  }

  lemma {:induction false} RefusedAccount(es: seq<Event>, e: Event)
    requires e.decision.Decided? && !IsAccepted(e) && LastBoot(es, e.fact.source) == Some(e.fact.boot)
    ensures var a := About(es, e.fact.source);
      About(es + [e], e.fact.source) ==
      if e.decision.outcome.Conflict? then a.(debt := Declared(e.fact.source), reuses := a.reuses + 1) else a
  {
    SnocParts(es, e);
    DebtSnoc(es, e, e.fact.source);
  }

  lemma {:induction false} OpeningAccount(es: seq<Event>, e: Event)
    requires IsAccepted(e) && LastBoot(es, e.fact.source) != Some(e.fact.boot)
    requires LastBoot(es, e.fact.source).None? ==> Debt(es, e.fact.source) == {}
    ensures var f := e.fact;
      About(es + [e], f.source) ==
      Account(Some(f.boot), [f], [f],
              (if LastBoot(es, f.source).Some? then Declared(f.source) else {})
                - (if f.baseline then {f.component} else {}), 0)
  {
    SnocParts(es, e);
    DebtSnoc(es, e, e.fact.source);
  }

  /** The account after a fact that advances the stream within one boot. */
  function Advance(a: Account, f: Fact): Account {
    var breaks := a.stream != [] && f.sequence > LastSequence(a.stream) + 1;
    var owed := if breaks then Declared(f.source) else a.debt;
    var debt := owed - (if f.baseline then {f.component} else {});
    if f.baseline && owed != {} && debt == {} then Account(Some(f.boot), a.stream + [f], [f], debt, 0)
    else Account(Some(f.boot), a.stream + [f], a.since + [f], debt, a.reuses)
  }

  lemma {:induction false} AdvanceAccount(es: seq<Event>, e: Event)
    requires IsAccepted(e) && LastBoot(es, e.fact.source) == Some(e.fact.boot)
    requires e.fact.component in Declared(e.fact.source)
    ensures About(es + [e], e.fact.source) == Advance(About(es, e.fact.source), e.fact)
  {
    SnocParts(es, e);
    DebtSnoc(es, e, e.fact.source);
  }

  // ----- Rising streams -----

  lemma {:induction false} AscendingSnoc(fs: seq<Fact>, f: Fact)
    requires Ascending(fs) && LastSequence(fs) < f.sequence
    ensures Ascending(fs + [f])
  {
    assert (fs + [f])[..|fs + [f]| - 1] == fs;
  }

  lemma {:induction false} AscendingAt(fs: seq<Fact>, i: nat, j: nat)
    requires Ascending(fs) && i <= j < |fs|
    ensures 0 < fs[i].sequence && (i < j ==> fs[i].sequence < fs[j].sequence)
    ensures fs[j].sequence <= LastSequence(fs)
    decreases |fs|
  {
    var most := fs[..|fs| - 1];
    if j < |most| {
      AscendingAt(most, i, j);
    } else if i < j {
      AscendingAt(most, i, i);
    }
  }

  lemma {:induction false} AscendingSuffix(fs: seq<Fact>, k: nat)
    requires Ascending(fs) && k < |fs|
    ensures Ascending(fs[k..]) && LastSequence(fs[k..]) == LastSequence(fs)
    decreases |fs|
  {
    var most := fs[..|fs| - 1];
    if k < |most| {
      AscendingSuffix(most, k);
      assert most[k..] == fs[k..][..|fs[k..]| - 1];
    } else {
      assert fs[k..][..|fs[k..]| - 1] == [];
    }
  }

  lemma {:induction false} SpokeWithin(fs: seq<Fact>, q: nat)
    requires Ascending(fs) && SpokeAt(fs, q)
    ensures fs[0].sequence <= q <= LastSequence(fs)
  {
    var i :| 0 <= i < |fs| && fs[i].sequence == q;
    AscendingAt(fs, 0, i);
  }

  lemma {:induction false} LastSpoke(fs: seq<Fact>)
    requires fs != []
    ensures SpokeAt(fs, LastSequence(fs))
  {
    assert fs[|fs| - 1].sequence == LastSequence(fs);
  }

  lemma {:induction false} SpokeAtSnoc(fs: seq<Fact>, f: Fact, q: nat)
    ensures SpokeAt(fs + [f], q) <==> SpokeAt(fs, q) || f.sequence == q
  {
    var all := fs + [f];
    if SpokeAt(fs, q) {
      var i :| 0 <= i < |fs| && fs[i].sequence == q;
      assert all[i].sequence == q;
    }
    if f.sequence == q { assert all[|fs|].sequence == q; }
  }

  // ----- Holes -----

  /** The end of the last hole. */
  function LastTo(gaps: seq<Gap>): nat {
    if gaps == [] then 0 else gaps[|gaps| - 1].to
  }

  /** Holes are well formed, disjoint and ascending. */
  predicate Ordered(gaps: seq<Gap>) {
    if gaps == [] then true
    else
      var g := gaps[|gaps| - 1];
      LastTo(gaps[..|gaps| - 1]) < g.from <= g.to && Ordered(gaps[..|gaps| - 1])
  }

  lemma {:induction false} OrderedSnoc(gaps: seq<Gap>, g: Gap)
    requires Ordered(gaps) && LastTo(gaps) < g.from <= g.to
    ensures Ordered(gaps + [g])
  {
    assert (gaps + [g])[..|gaps + [g]| - 1] == gaps;
  }

  lemma {:induction false} OrderedSuffix(gaps: seq<Gap>, k: nat)
    requires Ordered(gaps) && k < |gaps|
    ensures Ordered(gaps[k..]) && LastTo(gaps[k..]) == LastTo(gaps)
    decreases |gaps|
  {
    var most := gaps[..|gaps| - 1];
    if k < |most| {
      OrderedSuffix(most, k);
      assert most[k..] == gaps[k..][..|gaps[k..]| - 1];
    } else {
      assert gaps[k..][..|gaps[k..]| - 1] == [];
    }
  }

  /** Ascending and pairwise disjoint, said with indices. */
  lemma {:induction false} OrderedAt(gaps: seq<Gap>, i: nat, j: nat)
    requires Ordered(gaps) && i <= j < |gaps|
    ensures 0 < gaps[i].from <= gaps[i].to && (i < j ==> gaps[i].to < gaps[j].from)
    ensures gaps[j].to <= LastTo(gaps)
    decreases |gaps|
  {
    var most := gaps[..|gaps| - 1];
    if j < |most| {
      OrderedAt(most, i, j);
    } else if i < j {
      OrderedAt(most, i, i);
    }
  }

  lemma {:induction false} SortedStaysSorted(gaps: seq<Gap>)
    requires Ordered(gaps)
    ensures SortGaps(gaps) == gaps
  {
    if gaps != [] {
      var most, g := gaps[..|gaps| - 1], gaps[|gaps| - 1];
      SortedStaysSorted(most);
      assert most + [g] == gaps;
      assert InsertGap(most, g) == most + [g] by {
        if most != [] { OrderedAt(gaps, |most| - 1, |most|); }
      }
    }
  }

  /** The hole a fact leaves behind it. */
  function Skipped(last: nat, sequence: nat): seq<Gap> {
    if sequence > last + 1 then [Gap(last + 1, sequence - 1)] else []
  }

  lemma {:induction false} HolesSnoc(fs: seq<Fact>, f: Fact)
    requires fs != []
    ensures Holes(fs + [f]) == Holes(fs) + Skipped(LastSequence(fs), f.sequence)
  {
    var all := fs + [f];
    assert all[..|all| - 1] == fs && all[|all| - 1] == f && all[|all| - 2] == fs[|fs| - 1];
  }

  lemma {:induction false} HolesOrdered(fs: seq<Fact>)
    requires fs != [] && Ascending(fs)
    ensures Ordered(Holes(fs)) && LastTo(Holes(fs)) < LastSequence(fs)
  {
    if |fs| >= 2 {
      var most, f := fs[..|fs| - 1], fs[|fs| - 1];
      HolesOrdered(most);
      assert most + [f] == fs;
      HolesSnoc(most, f);
      if f.sequence > LastSequence(most) + 1 {
        OrderedSnoc(Holes(most), Gap(LastSequence(most) + 1, f.sequence - 1));
      } else {
        assert Holes(most) + [] == Holes(most);
      }
    }
  }

  lemma {:induction false} InGapConcat(a: seq<Gap>, b: seq<Gap>, q: nat)
    ensures InGap(a + b, q) <==> InGap(a, q) || InGap(b, q)
  {
    var all := a + b;
    if InGap(a, q) {
      var i :| 0 <= i < |a| && a[i].from <= q <= a[i].to;
      assert all[i] == a[i];
    }
    if InGap(b, q) {
      var i :| 0 <= i < |b| && b[i].from <= q <= b[i].to;
      assert all[|a| + i] == b[i];
    }
  }

  lemma {:induction false} SkippedExact(last: nat, sequence: nat, q: nat)
    ensures InGap(Skipped(last, sequence), q) <==> last < q < sequence
  {
    if last < q < sequence { assert Skipped(last, sequence)[0] == Gap(last + 1, sequence - 1); }
  }

  /** The unbounded hole list is exactly the complement of what was spoken. */
  lemma {:induction false} HolesExact(fs: seq<Fact>, q: nat)
    requires fs != [] && Ascending(fs)
    ensures InGap(Holes(fs), q) <==> fs[0].sequence < q < LastSequence(fs) && !SpokeAt(fs, q)
  {
    if |fs| >= 2 {
      var most, f := fs[..|fs| - 1], fs[|fs| - 1];
      HolesExact(most, q);
      assert most + [f] == fs;
      HolesSnoc(most, f);
      InGapConcat(Holes(most), Skipped(LastSequence(most), f.sequence), q);
      SkippedExact(LastSequence(most), f.sequence, q);
      SpokeAtSnoc(most, f, q);
      if SpokeAt(most, q) { SpokeWithin(most, q); }
      LastSpoke(most);
      SpokeWithin(most, LastSequence(most));
    }
  }

  // ----- One decision keeps the agreement -----

  lemma {:induction false} OpeningAgrees(s: SourceState, f: Fact)
    requires f.sequence > 0 && s.last == 0 && s.recent == [] && s.gaps == [] && !s.overflow && s.conflicts == 0
    ensures Agrees(Admit(s, f).after,
      Account(Some(s.boot), [f], [f], s.pending - (if f.baseline then {f.component} else {}), 0))
  {
    var debt := s.pending - (if f.baseline then {f.component} else {});
    OpeningState(s, f, debt);
    OneFactAgrees(Admit(s, f).after, f, Account(Some(s.boot), [f], [f], debt, 0));
  }

  lemma {:induction false} OpeningState(s: SourceState, f: Fact, debt: set<Component>)
    requires s.last == 0 && s.recent == [] && s.gaps == [] && !s.overflow && s.conflicts == 0
    requires debt == s.pending - (if f.baseline then {f.component} else {})
    ensures Admit(s, f).after == SourceState(s.boot, f.sequence, [Remembered(f.sequence, f.digest)], [], false, debt, 0)
  {
    assert s.recent + [Remembered(f.sequence, f.digest)] == [Remembered(f.sequence, f.digest)];
  }

  lemma {:induction false} OneFactAgrees(s: SourceState, f: Fact, a: Account)
    requires f.sequence > 0 && a.boot == Some(s.boot) && a.stream == [f] && a.since == [f] && a.debt == s.pending
    requires a.reuses == 0
    requires s == SourceState(s.boot, f.sequence, [Remembered(f.sequence, f.digest)], [], false, s.pending, 0)
    ensures Agrees(s, a)
  {
    assert Digests([f]) == [Remembered(f.sequence, f.digest)];
    assert [f][..0] == [] && [f][0..] == [f];
  }

  /** Recording a hole beyond all the others appends it, in order. */
  lemma {:induction false} RecordAppends(s: SourceState, g: Gap, src: SourceId)
    requires Ordered(s.gaps) && LastTo(s.gaps) < g.from <= g.to
    ensures RecordGap(s, g, src).gaps == LastN(s.gaps + [g], MAX_GAP_RANGES)
    ensures RecordGap(s, g, src).overflow == (s.overflow || |s.gaps| + 1 > MAX_GAP_RANGES)
  {
    OrderedSnoc(s.gaps, g);
    SortedStaysSorted(s.gaps + [g]);
  }

  /** The retained gaps are the newest of all the holes. */
  predicate KeepsNewest(s: SourceState, holes: seq<Gap>) {
    s.gaps == LastN(holes, MAX_GAP_RANGES) && s.overflow == (|holes| > MAX_GAP_RANGES)
  }

  lemma {:induction false} NewestKept(s: SourceState, held: SourceState, holes: seq<Gap>, g: Gap)
    requires KeepsNewest(s, holes)
    requires held.gaps == LastN(s.gaps + [g], MAX_GAP_RANGES)
    requires held.overflow == (s.overflow || |s.gaps| + 1 > MAX_GAP_RANGES)
    ensures KeepsNewest(held, holes + [g])
  {
    LastNAppend(holes, g, MAX_GAP_RANGES);
  }

  lemma {:induction false} NewestOrdered(s: SourceState, holes: seq<Gap>)
    requires KeepsNewest(s, holes) && Ordered(holes)
    ensures Ordered(s.gaps) && LastTo(s.gaps) == LastTo(holes)
  {
    if |holes| > MAX_GAP_RANGES { OrderedSuffix(holes, |holes| - MAX_GAP_RANGES); }
  }

  lemma {:induction false} GapsBehind(s: SourceState, since: seq<Fact>)
    requires since != [] && Ascending(since) && KeepsNewest(s, Holes(since))
    ensures Ordered(s.gaps) && LastTo(s.gaps) < LastSequence(since)
  {
    HolesOrdered(since);
    NewestOrdered(s, Holes(since));
  }

  lemma {:induction false} OpenedKept(s: SourceState, holes: seq<Gap>, f: Fact)
    requires Ordered(s.gaps) && LastTo(s.gaps) < s.last && OpensGap(s, f) && KeepsNewest(s, holes)
    ensures KeepsNewest(Held(s, f), holes + [Gap(s.last + 1, f.sequence - 1)])
  {
    RecordAppends(s, Gap(s.last + 1, f.sequence - 1), f.source);
    NewestKept(s, Held(s, f), holes, Gap(s.last + 1, f.sequence - 1));
  }

  lemma {:induction false} OpenedHoles(since: seq<Fact>, f: Fact)
    requires since != [] && f.sequence > LastSequence(since) + 1
    ensures Holes(since + [f]) == Holes(since) + [Gap(LastSequence(since) + 1, f.sequence - 1)]
  {
    HolesSnoc(since, f);
  }

  lemma {:induction false} HeldOpens(s: SourceState, since: seq<Fact>, f: Fact)
    requires since != [] && Ascending(since) && LastSequence(since) == s.last
    requires OpensGap(s, f) && KeepsNewest(s, Holes(since))
    ensures KeepsNewest(Held(s, f), Holes(since + [f]))
  {
    GapsBehind(s, since);
    OpenedKept(s, Holes(since), f);
    OpenedHoles(since, f);
  }

  lemma {:induction false} HeldContinues(s: SourceState, since: seq<Fact>, f: Fact)
    requires since != [] && LastSequence(since) == s.last && 0 < s.last && !OpensGap(s, f)
    ensures Holes(since + [f]) == Holes(since)
  {
    HolesSnoc(since, f);
    assert Holes(since) + [] == Holes(since);
  }

  lemma {:induction false} AdvancePosition(s: SourceState, a: Account, f: Fact)
    requires PositionAgrees(s, a) && f.sequence > s.last
    ensures Ascending(a.stream + [f])
    ensures LastN(s.recent + [Remembered(f.sequence, f.digest)], RETRY_WINDOW) ==
      LastN(Digests(a.stream + [f]), RETRY_WINDOW)
  {
    AscendingSnoc(a.stream, f);
    assert Digests(a.stream + [f]) == Digests(a.stream) + [Remembered(f.sequence, f.digest)];
    LastNAppend(Digests(a.stream), Remembered(f.sequence, f.digest), RETRY_WINDOW);
  }

  lemma {:induction false} AdvanceSuffix(stream: seq<Fact>, since: seq<Fact>, f: Fact)
    requires |since| <= |stream| && since == stream[|stream| - |since|..]
    ensures var grown := stream + [f];
      since + [f] == grown[|grown| - |since + [f]|..] && [f] == grown[|grown| - 1..]
  {
  }

  lemma {:induction false} AdvanceAgrees(s: SourceState, a: Account, f: Fact)
    requires Agrees(s, a) && f.sequence > s.last && f.boot == s.boot && a.debt <= Declared(f.source)
    requires f.component in Declared(f.source)
    ensures Agrees(Admit(s, f).after, Advance(a, f))
  {
    var after, b := Admit(s, f).after, Advance(a, f);
    assert PositionAgrees(after, b) by { AdvancePosition(s, a, f); }
    assert IntegrityAgrees(after, b) by { AdvanceIntegrity(s, a, f); }
  }

  lemma {:induction false} HeldAgrees(s: SourceState, a: Account, f: Fact)
    requires Agrees(s, a) && f.sequence > s.last
    ensures KeepsNewest(Held(s, f), Holes(a.since + [f]))
    ensures !OpensGap(s, f) ==> Holes(a.since + [f]) == Holes(a.since)
  {
    AscendingSuffix(a.stream, |a.stream| - |a.since|);
    if OpensGap(s, f) { HeldOpens(s, a.since, f); } else { HeldContinues(s, a.since, f); }
  }

  lemma {:induction false} HeldPending(s: SourceState, a: Account, f: Fact)
    requires Agrees(s, a) && a.debt <= Declared(f.source)
    ensures Held(s, f).pending == if f.sequence > LastSequence(a.stream) + 1 then Declared(f.source) else a.debt
  {
    AscendingAt(a.stream, |a.stream| - 1, |a.stream| - 1);
  }

  lemma {:induction false} AdvanceIntegrity(s: SourceState, a: Account, f: Fact)
    requires Agrees(s, a) && f.sequence > s.last && a.debt <= Declared(f.source)
    requires f.component in Declared(f.source)
    ensures IntegrityAgrees(Admit(s, f).after, Advance(a, f))
  {
    HeldAgrees(s, a, f);
    HeldPending(s, a, f);
    AdvanceSuffix(a.stream, a.since, f);
    SettledIntegrity(Held(s, f), a, f);
  }

  lemma {:induction false} SettledIntegrity(held: SourceState, a: Account, f: Fact)
    requires 0 < |a.since| <= |a.stream| && (a.since + [f]) == (a.stream + [f])[|a.stream| - |a.since|..]
    requires KeepsNewest(held, Holes(a.since + [f])) && held.conflicts == a.reuses % UINT32
    requires held.pending == if f.sequence > LastSequence(a.stream) + 1 then Declared(f.source) else a.debt
    requires f.component in Declared(f.source)
    requires a.debt == {} && f.sequence <= LastSequence(a.stream) + 1 ==> Holes(a.since + [f]) == [] && a.reuses == 0
    ensures IntegrityAgrees(Advanced(Settled(held, f), f), Advance(a, f))
  {
    var debt := held.pending - (if f.baseline then {f.component} else {});
    assert Settled(held, f).pending == debt;
    if Clears(held, f) { ClearedIntegrity(held, a, f, debt); } else { KeptIntegrity(held, a, f, debt); }
  }

  lemma {:induction false} ClearedIntegrity(held: SourceState, a: Account, f: Fact, debt: set<Component>)
    requires Clears(held, f) && debt == {} && Advance(a, f) == Account(Some(f.boot), a.stream + [f], [f], debt, 0)
    ensures IntegrityAgrees(Advanced(Settled(held, f), f), Advance(a, f))
  {
    assert (a.stream + [f])[|a.stream|..] == [f];
    GrownIntegrity(Advanced(Settled(held, f), f), a.stream + [f], [f], Advance(a, f));
  }

  lemma {:induction false} KeptIntegrity(held: SourceState, a: Account, f: Fact, debt: set<Component>)
    requires !Clears(held, f) && Settled(held, f).pending == debt
    requires Advance(a, f) == Account(Some(f.boot), a.stream + [f], a.since + [f], debt, a.reuses)
    requires 0 < |a.since| <= |a.stream| && (a.since + [f]) == (a.stream + [f])[|a.stream| - |a.since|..]
    requires KeepsNewest(held, Holes(a.since + [f])) && held.conflicts == a.reuses % UINT32
    requires debt == {} ==> Holes(a.since + [f]) == [] && a.reuses == 0
    ensures IntegrityAgrees(Advanced(Settled(held, f), f), Advance(a, f))
  {
    GrownIntegrity(Advanced(Settled(held, f), f), a.stream + [f], a.since + [f], Advance(a, f));
  }

  lemma {:induction false} GrownIntegrity(s: SourceState, stream: seq<Fact>, since: seq<Fact>, b: Account)
    requires b.stream == stream && b.since == since && s.pending == b.debt && s.conflicts == b.reuses % UINT32
    requires 0 < |since| <= |stream| && since == stream[|stream| - |since|..]
    requires KeepsNewest(s, Holes(since))
    requires b.debt == {} ==> Holes(since) == [] && b.reuses == 0
    ensures IntegrityAgrees(s, b)
  {
  }

  lemma {:induction false} OpeningLinked(s: SourceState, es: seq<Event>, e: Event)
    requires IsAccepted(e) && e.fact.sequence > 0 && LastBoot(es, e.fact.source) != Some(e.fact.boot)
    requires LastBoot(es, e.fact.source).None? ==> Debt(es, e.fact.source) == {}
    requires s == if LastBoot(es, e.fact.source).Some? then NewBoot(e.fact.boot, e.fact.source)
      else FirstContact(e.fact.boot)
    ensures Agrees(Admit(s, e.fact).after, About(es + [e], e.fact.source))
  {
    OpeningAccount(es, e);
    OpeningAgrees(s, e.fact);
  }

  lemma {:induction false} AdvanceLinked(s: SourceState, es: seq<Event>, e: Event)
    requires IsAccepted(e) && e.fact.boot == s.boot && e.fact.sequence > s.last
    requires Agrees(s, About(es, e.fact.source)) && e.fact.component in Declared(e.fact.source)
    ensures Agrees(Admit(s, e.fact).after, About(es + [e], e.fact.source))
  {
    AdvanceAccount(es, e);
    AdvanceAgrees(s, About(es, e.fact.source), e.fact);
  }

  lemma {:induction false} RefusedLinked(s: SourceState, es: seq<Event>, e: Event)
    requires e.decision.Decided? && e.decision.outcome == Replay(s, e.fact).outcome && e.fact.boot == s.boot
    requires Agrees(s, About(es, e.fact.source)) && e.fact.component in Declared(e.fact.source)
    ensures Agrees(Replay(s, e.fact).after, About(es + [e], e.fact.source))
  {
    RefusedAccount(es, e);
    DebtDeclared(es, e.fact.source);
    RefusedAgrees(s, About(es, e.fact.source), About(es + [e], e.fact.source), e.fact);
  }

  lemma {:induction false} DebtDeclared(es: seq<Event>, src: SourceId)
    ensures About(es, src).debt <= Declared(src)
  {
  }

  lemma {:induction false} RefusedAgrees(s: SourceState, a: Account, b: Account, f: Fact)
    requires Agrees(s, a) && a.debt <= Declared(f.source) && f.component in Declared(f.source)
    requires b == if Replay(s, f).outcome.Conflict? then a.(debt := Declared(f.source), reuses := a.reuses + 1) else a
    ensures Agrees(Replay(s, f).after, b)
  {
    if Replay(s, f).outcome.Conflict? {
      ConflictAgrees(s, a, f.source);
    }
  }

  lemma {:induction false} ConflictAgrees(s: SourceState, a: Account, src: SourceId)
    requires Agrees(s, a) && Declared(src) != {} && a.debt <= Declared(src)
    ensures Agrees(OwesAll(s.(conflicts := (s.conflicts + 1) % UINT32), src),
      a.(debt := Declared(src), reuses := a.reuses + 1))
  {
  }

  lemma {:induction false} SpeakerLinked(st: State, es: seq<Event>, f: Fact, role: Role)
    requires LinkedAt(st, About(es, f.source), f.source) && ValidFact(f) && f.component in Declared(f.source)
    ensures var (st', d) := Decide(st, f, role);
      LinkedAt(st', About(es + [Event(f, d)], f.source), f.source)
  {
    var (st', d) := Decide(st, f, role);
    var e, s := Event(f, d), Entering(st, f);
    if s.boot != f.boot {
      OpeningLinked(NewBoot(f.boot, f.source), es, e);
    } else if f.source !in st.sources {
      OpeningLinked(s, es, e);
    } else if f.sequence > s.last {
      AdvanceLinked(s, es, e);
    } else {
      RefusedLinked(s, es, e);
    }
  }

  lemma {:induction false} StepKeepsLink(st: State, es: seq<Event>, f: Fact)
    requires Linked(st, es) && Admissible(f)
    ensures Step(st, f, f.domain).1.Decided?
    ensures Linked(Step(st, f, f.domain).0, es + [Event(f, Step(st, f, f.domain).1)])
  {
    var role := Classify(f, f.domain).role;
    var (st', d) := Decide(st, f, role);
    forall src: SourceId ensures LinkedAt(st', About(es + [Event(f, d)], src), src) {
      if src == f.source {
        SpeakerLinked(st, es, f, role);
      } else {
        OthersUnaffected(es, Event(f, d), src);
        assert LinkedAt(st, About(es, src), src);
      }
    }
  }

  /** Every run from an acceptor that knows no source is linked to its own history. */
  lemma {:induction false} RunLinked(start: State, fs: seq<Fact>)
    requires start.sources == map[] && AllAdmissible(fs)
    ensures Linked(Run(start, fs).0, Run(start, fs).1)
    decreases |fs|
  {
    if fs != [] {
      RunLinked(start, fs[..|fs| - 1]);
      var (st, es) := Run(start, fs[..|fs| - 1]);
      StepKeepsLink(st, es, fs[|fs| - 1]);
    }
  }
}

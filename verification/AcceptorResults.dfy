/** What holds of the acceptor after every run: exact gaps, exact debt, a retry window that answers
    as full memory would, a state that can always be restored, and two gap-free orders. */
module AcceptorResults {
  import opened Facts
  import opened Acceptance
  import opened History
  import opened AcceptorTheorems

  // ----- Gap exactness -----

  lemma {:induction false} SpokeInSuffix(stream: seq<Fact>, k: nat, q: nat)
    requires Ascending(stream) && k < |stream| && q > stream[k].sequence
    ensures SpokeAt(stream, q) <==> SpokeAt(stream[k..], q)
  {
    var since := stream[k..];
    if SpokeAt(stream, q) {
      var i :| 0 <= i < |stream| && stream[i].sequence == q;
      if i <= k { AscendingAt(stream, i, k); }
      assert since[i - k] == stream[i];
    }
    if SpokeAt(since, q) {
      var i :| 0 <= i < |since| && since[i].sequence == q;
      assert stream[k + i] == since[i];
    }
  }

  /** While no hole was ever dropped, a sequence lies in a recorded gap exactly when it falls after
      the last discharge (or the boot's first fact), before the watermark, and was never accepted. */
  lemma {:induction false} GapExactness(start: State, fs: seq<Fact>, src: SourceId, q: nat)
    requires start.sources == map[] && AllAdmissible(fs)
    requires src in Run(start, fs).0.sources && !Run(start, fs).0.sources[src].overflow
    ensures var (st, es) := Run(start, fs);
      && Since(es, src) != []
      && (InGap(st.sources[src].gaps, q) <==>
          Since(es, src)[0].sequence < q < st.sources[src].last && !SpokeAt(Stream(es, src), q))
  {
    RunLinked(start, fs);
    var (st, es) := Run(start, fs);
    assert LinkedAt(st, About(es, src), src);
    AgreedGapsExact(st.sources[src], About(es, src), q);
  }

  lemma {:induction false} AgreedGapsExact(s: SourceState, a: Account, q: nat)
    requires Agrees(s, a) && !s.overflow
    ensures InGap(s.gaps, q) <==> a.since[0].sequence < q < s.last && !SpokeAt(a.stream, q)
  {
    var k := |a.stream| - |a.since|;
    AscendingSuffix(a.stream, k);
    HolesExact(a.since, q);
    if q > a.stream[k].sequence { SpokeInSuffix(a.stream, k, q); }
  }

  /** Recorded gaps are disjoint and ascending, and with or without overflow they are exactly the
      newest holes the stream has had since the last discharge or boot. */
  lemma {:induction false} GapsAreNewestHoles(start: State, fs: seq<Fact>, src: SourceId)
    requires start.sources == map[] && AllAdmissible(fs) && src in Run(start, fs).0.sources
    ensures var (st, es) := Run(start, fs); var s := st.sources[src];
      && s.gaps == LastN(Holes(Since(es, src)), MAX_GAP_RANGES)
      && (s.overflow <==> |Holes(Since(es, src))| > MAX_GAP_RANGES)
      && (forall i, j :: 0 <= i < j < |s.gaps| ==> s.gaps[i].to < s.gaps[j].from)
      && (forall i :: 0 <= i < |s.gaps| ==> 0 < s.gaps[i].from <= s.gaps[i].to < s.last)
  {
    RunLinked(start, fs);
    var (st, es) := Run(start, fs);
    assert LinkedAt(st, About(es, src), src);
    AgreedGapsOrdered(st.sources[src], About(es, src));
  }

  lemma {:induction false} AgreedGapsOrdered(s: SourceState, a: Account)
    requires Agrees(s, a)
    ensures forall i, j :: 0 <= i < j < |s.gaps| ==> s.gaps[i].to < s.gaps[j].from
    ensures forall i :: 0 <= i < |s.gaps| ==> 0 < s.gaps[i].from <= s.gaps[i].to < s.last
  {
    AscendingSuffix(a.stream, |a.stream| - |a.since|);
    GapsBehind(s, a.since);
    forall i, j | 0 <= i <= j < |s.gaps|
      ensures (i < j ==> s.gaps[i].to < s.gaps[j].from) && 0 < s.gaps[i].from <= s.gaps[i].to && s.gaps[j].to < s.last
    {
      OrderedAt(s.gaps, i, j);
    }
  }

  // ----- Baseline debt -----

  /** What a source owes is exactly what some break was never followed by: its declared components
      minus those restated since the most recent hole, reused identity or boot change.  While
      anything is owed the conflict count is the number of reuses; when nothing is, the stream is
      whole: no gap, no overflow, no conflict. */
  lemma {:induction false} DebtExactness(start: State, fs: seq<Fact>, src: SourceId)
    requires start.sources == map[] && AllAdmissible(fs) && src in Run(start, fs).0.sources
    ensures var (st, es) := Run(start, fs); var s := st.sources[src];
      && s.pending == Debt(es, src)
      && s.conflicts == Reuses(es, src) % UINT32
      && (s.pending == {} ==> s.gaps == [] && !s.overflow && s.conflicts == 0 && Reuses(es, src) == 0)
  {
    RunLinked(start, fs);
    var (st, es) := Run(start, fs);
    assert LinkedAt(st, About(es, src), src);
    AgreedDebt(st.sources[src], About(es, src));
  }

  lemma {:induction false} AgreedDebt(s: SourceState, a: Account)
    requires Agrees(s, a)
    ensures s.pending == a.debt && s.conflicts == a.reuses % UINT32
    ensures s.pending == {} ==> s.gaps == [] && !s.overflow && s.conflicts == 0 && a.reuses == 0
  {
  }

  /** Within one boot the integrity record is wiped exactly by the baseline that empties the debt;
      every other accepted fact only ever adds a hole to it. */
  lemma {:induction false} ClearedExactlyOnDischarge(s: SourceState, f: Fact)
    requires f.sequence > s.last && f.component in Declared(f.source)
    requires s.pending == {} ==> s.gaps == [] && !s.overflow && s.conflicts == 0
    ensures var after := Admit(s, f).after; var owed := Held(s, f).pending;
      if owed != {} && f.baseline && owed <= {f.component}
      then after.pending == {} && after.gaps == [] && !after.overflow && after.conflicts == 0
      else after.gaps == Held(s, f).gaps && after.overflow == Held(s, f).overflow && after.conflicts == s.conflicts
           && (after.pending == {} ==> s.pending == {} && !OpensGap(s, f))
  {
    var owed := Held(s, f).pending;
    assert owed <= {f.component} <==> owed - {f.component} == {};
    if OpensGap(s, f) { assert f.component in owed; }
  }

  // ----- The bounded retry window -----

  lemma {:induction false} RecallMisses(recent: seq<Remembered>, q: nat)
    requires forall i :: 0 <= i < |recent| ==> recent[i].sequence != q
    ensures Recall(recent, q).None?
  {
    if recent != [] { RecallMisses(recent[1..], q); }
  }

  lemma {:induction false} RecallHits(recent: seq<Remembered>, i: nat)
    requires i < |recent| && forall j :: 0 <= j < i ==> recent[j].sequence != recent[i].sequence
    ensures Recall(recent, recent[i].sequence) == Some(recent[i])
  {
    if i > 0 { RecallHits(recent[1..], i - 1); }
  }

  /** The window finds a sequence exactly when one of the last RETRY_WINDOW accepted facts claimed it. */
  lemma {:induction false} WindowRecall(stream: seq<Fact>, q: nat)
    requires Ascending(stream)
    ensures var lost := if |stream| > RETRY_WINDOW then |stream| - RETRY_WINDOW else 0;
      Recall(LastN(Digests(stream), RETRY_WINDOW), q) ==
      match Find(stream, q)
      case None => None
      case Some(i) => if i < lost then None else Some(Remembered(q, stream[i].digest))
  {
    var lost := if |stream| > RETRY_WINDOW then |stream| - RETRY_WINDOW else 0;
    var recent := LastN(Digests(stream), RETRY_WINDOW);
    assert forall j :: 0 <= j < |recent| ==>
      recent[j] == Remembered(stream[lost + j].sequence, stream[lost + j].digest);
    var found := Find(stream, q);
    if found.Some? && found.value >= lost {
      var i := found.value;
      forall j | 0 <= j < i - lost ensures recent[j].sequence != q { AscendingAt(stream, lost + j, i); }
      RecallHits(recent, i - lost);
    } else {
      forall j | 0 <= j < |recent| ensures recent[j].sequence != q {
        if found.Some? { AscendingAt(stream, found.value, lost + j); }
        else { NotSpoken(stream, q, lost + j); }
      }
      RecallMisses(recent, q);
    }
  }

  lemma {:induction false} NotSpoken(fs: seq<Fact>, q: nat, i: nat)
    requires !SpokeAt(fs, q) && i < |fs|
    ensures fs[i].sequence != q
  {
  }

  /** Whether the last RETRY_WINDOW accepted facts of the boot include one that claimed this sequence. */
  predicate Remembers(stream: seq<Fact>, q: nat) {
    var found := Find(stream, q);
    found.Some? && found.value + RETRY_WINDOW >= |stream|
  }

  /** Against an acceptor that remembers everything: the same answer inside the window, otherwise
      stale, and always the same answer about what is new. */
  lemma {:induction false} BoundedWindowRefinesFullMemory(start: State, fs: seq<Fact>, f: Fact)
    requires start.sources == map[] && AllAdmissible(fs) && Admissible(f)
    ensures var (st, es) := Run(start, fs);
      var d := Step(st, f, f.domain).1;
      var full := FullMemoryOutcome(es, f);
      && d.Decided?
      && d.outcome == (if full.Accepted? || Remembers(Stream(es, f.source), f.sequence) then full else Stale)
  {
    RunLinked(start, fs);
    var (st, es) := Run(start, fs);
    assert LinkedAt(st, About(es, f.source), f.source);
    if f.source in st.sources {
      WindowRecall(Stream(es, f.source), f.sequence);
    }
  }

  /** A retry and an arrival too old to judge change nothing but the fold position. */
  lemma {:induction false} RepeatsChangeOnlyTheFold(st: State, f: Fact, domain: Domain)
    requires var d := Step(st, f, domain).1; d.Decided? && (d.outcome.Duplicate? || d.outcome.Stale?)
    requires f.source in st.sources
    ensures Step(st, f, domain).0 == st.(fold := st.fold + 1)
  {
    assert st.sources[f.source := st.sources[f.source]] == st.sources;
  }

  // ----- Restoring -----

  lemma {:induction false} AgreedIsValid(s: SourceState, a: Account, src: SourceId)
    requires Agrees(s, a) && a.debt <= Declared(src)
    ensures ValidSource(s, src)
  {
    AgreedGapsOrdered(s, a);
    var lost := |a.stream| - |s.recent|;
    assert forall j :: 0 <= j < |s.recent| ==> s.recent[j].sequence == a.stream[lost + j].sequence;
    forall i | 0 <= i < |s.recent|
      ensures s.recent[i].sequence <= s.last && (0 < i ==> s.recent[i - 1].sequence < s.recent[i].sequence)
    {
      AscendingAt(a.stream, lost + i, lost + i);
      if 0 < i { AscendingAt(a.stream, lost + i - 1, lost + i); }
    }
    if s.gaps != [] && a.debt == {} { assert false; }
  }

  /** No run can reach a state that would be refused on restart. */
  lemma {:induction false} EveryStateCanBeRestored(start: State, fs: seq<Fact>)
    requires start.sources == map[] && AllAdmissible(fs)
    ensures ValidState(Run(start, fs).0)
  {
    RunLinked(start, fs);
    var (st, es) := Run(start, fs);
    forall src | src in st.sources ensures ValidSource(st.sources[src], src) {
      assert LinkedAt(st, About(es, src), src);
      DebtDeclared(es, src);
      AgreedIsValid(st.sources[src], About(es, src), src);
    }
  }

  // ----- Two gap-free orders -----

  function AcceptedCount(es: seq<Event>): nat {
    if es == [] then 0
    else AcceptedCount(es[..|es| - 1]) + if IsAccepted(es[|es| - 1]) then 1 else 0
  }

  /** Events carry consecutive fold positions, and the accepted ones consecutive host sequences. */
  predicate InOrder(host: nat, fold: nat, es: seq<Event>) {
    forall i :: 0 <= i < |es| ==>
      && es[i].decision.Decided?
      && es[i].decision.fold == fold + i + 1
      && es[i].decision.host == (if IsAccepted(es[i]) then host + AcceptedCount(es[..i]) + 1 else 0)
  }

  lemma {:induction false} TwoOrders(start: State, fs: seq<Fact>)
    requires AllAdmissible(fs)
    ensures var (st, es) := Run(start, fs);
      && InOrder(start.host, start.fold, es)
      && st.fold == start.fold + |fs|
      && st.host == start.host + AcceptedCount(es)
    decreases |fs|
  {
    if fs != [] {
      TwoOrders(start, fs[..|fs| - 1]);
      var (st, es) := Run(start, fs[..|fs| - 1]);
      var f := fs[|fs| - 1];
      InOrderSnoc(start.host, start.fold, es, Event(f, Step(st, f, f.domain).1));
    }
  }

  lemma {:induction false} AcceptedCountSnoc(es: seq<Event>, e: Event)
    ensures AcceptedCount(es + [e]) == AcceptedCount(es) + if IsAccepted(e) then 1 else 0
  {
    assert (es + [e])[..|es + [e]| - 1] == es;
  }

  lemma {:induction false} InOrderSnoc(host: nat, fold: nat, es: seq<Event>, e: Event)
    requires InOrder(host, fold, es) && e.decision.Decided? && e.decision.fold == fold + |es| + 1
    requires e.decision.host == if IsAccepted(e) then host + AcceptedCount(es) + 1 else 0
    ensures InOrder(host, fold, es + [e])
    ensures AcceptedCount(es + [e]) == AcceptedCount(es) + if IsAccepted(e) then 1 else 0
  {
    AcceptedCountSnoc(es, e);
    var all := es + [e];
    forall i | 0 <= i < |all|
      ensures all[i].decision.Decided? && all[i].decision.fold == fold + i + 1
      ensures all[i].decision.host == if IsAccepted(all[i]) then host + AcceptedCount(all[..i]) + 1 else 0
    {
      if i < |es| { assert all[..i] == es[..i]; } else { assert all[..i] == es; }
    }
  }
}

/** Restarting from a lineage: what lies beyond the checkpoint is re-accepted, and when nothing
    could be recovered the count continues above what was issued. */
module Restart {
  import opened Facts
  import opened Acceptance
  import opened History
  import opened AcceptorTheorems
  import opened AcceptorResults
  import opened Reducer
  import opened Reduction
  import opened RuntimeModel
  import opened RuntimeTheorems
  import opened RuntimeResults
  import opened Readiness
  import opened ReplayModel
  import opened ReplayTheorems
  import opened ReplayResults
  import opened JournalOrder

  // ----- Re-accepting what was never folded -----

  function FactsIn(rs: seq<Record>): seq<Fact> {
    seq(|rs|, i requires 0 <= i < |rs| => rs[i].fact)
  }

  /** Re-accepting in the given order; None when the acceptor now refuses one. */
  function Resumed(st: State, rs: seq<Record>): Option<(State, seq<Event>)> {
    if rs == [] then Some((st, []))
    else
      match Resumed(st, rs[..|rs| - 1])
      case None => None
      case Some(p) =>
        var (st', d) := Step(p.0, rs[|rs| - 1].fact, rs[|rs| - 1].fact.domain);
        if d.Rejected? then None else Some((st', p.1 + [Event(rs[|rs| - 1].fact, d)]))
  }

  lemma {:induction false} ResumedIsRun(st: State, rs: seq<Record>)
    requires AllAdmissible(FactsIn(rs))
    ensures Resumed(st, rs) == Some(Run(st, FactsIn(rs)))
    decreases |rs|
  {
    if rs != [] {
      var most, r := rs[..|rs| - 1], rs[|rs| - 1];
      assert FactsIn(rs)[..|rs| - 1] == FactsIn(most);
      forall i | 0 <= i < |most| ensures Admissible(FactsIn(most)[i]) { assert FactsIn(most)[i] == FactsIn(rs)[i]; }
      ResumedIsRun(st, most);
      assert Admissible(FactsIn(rs)[|rs| - 1]);
      RejectedChangesNothing(Run(st, FactsIn(most)).0, r.fact, r.fact.domain);
    }
  }

  /** A sort by host sequence of everything both journals hold past the checkpoint.  Records that
      never entered the accepted order carry host sequence zero, so their order is open. */
  predicate HostSorted(rs: seq<Record>, w: World, from: nat) {
    SortedBy(ByHost, rs) && multiset(rs) == multiset(Beyond(w.root, from) + Beyond(w.user, from))
  }

  lemma {:induction false} BeyondKept(es: seq<Event>, d: Domain, fold: nat, from: nat, m: nat)
    requires AllDecided(es) && m <= |es| && Continuous(RecordsOf(es), fold) && from == fold + m
    ensures Beyond(Kept(es, d), from) == Kept(es[m..], d)
    decreases |es|
  {
    if m == |es| {
      NoneBeyond(es, d, fold, from, m);
    } else {
      var most, e := es[..|es| - 1], es[|es| - 1];
      assert RecordsOf(most) == RecordsOf(es)[..|es| - 1];
      BeyondKept(most, d, fold, from, m);
      assert es[m..][..|es[m..]| - 1] == most[m..];
      assert RecordsOf(es)[|es| - 1].fold == fold + |es|;
      assert es[m..][|es[m..]| - 1] == e;
      if e.fact.domain == d {
        BeyondSnoc(Kept(most, d), RecordOf(e), from);
      } else {
        assert Kept(es, d) == Kept(most, d) && Kept(es[m..], d) == Kept(most[m..], d);
      }
    }
  }

  lemma {:induction false} NoneBeyond(es: seq<Event>, d: Domain, fold: nat, from: nat, m: nat)
    requires AllDecided(es) && m >= |es| && Continuous(RecordsOf(es), fold) && from == fold + m
    ensures Beyond(Kept(es, d), from) == []
    decreases |es|
  {
    if es != [] {
      var most, e := es[..|es| - 1], es[|es| - 1];
      assert RecordsOf(most) == RecordsOf(es)[..|es| - 1];
      NoneBeyond(most, d, fold, from, m);
      assert RecordsOf(es)[|es| - 1].fold == fold + |es|;
      if e.fact.domain == d {
        BeyondSnoc(Kept(most, d), RecordOf(e), from);
      } else {
        assert Kept(es, d) == Kept(most, d);
      }
    }
  }

  /** What the two journals hold past a position is what the run decided after it. */
  lemma {:induction false} BeyondIsRest(w: World, fold: nat, from: nat, m: nat)
    requires Journals(w) && m <= |w.events| && Continuous(RecordsOf(w.events), fold) && from == fold + m
    ensures multiset(Beyond(w.root, from) + Beyond(w.user, from)) == multiset(RecordsOf(w.events[m..]))
  {
    BeyondKept(w.events, Root, fold, from, m);
    BeyondKept(w.events, User, fold, from, m);
    KeptPartition(w.events[m..]);
  }

  lemma {:induction false} PermutedFacts(rs: seq<Record>, es: seq<Event>)
    requires AllDecided(es) && AllAdmissible(FactsOf(es)) && multiset(rs) == multiset(RecordsOf(es))
    ensures AllAdmissible(FactsIn(rs)) && |rs| == |es|
  {
    SameSize(rs, RecordsOf(es));
    forall i | 0 <= i < |rs| ensures Admissible(FactsIn(rs)[i]) {
      assert rs[i] in multiset(rs);
      assert rs[i] in multiset(RecordsOf(es));
      var j :| 0 <= j < |es| && RecordsOf(es)[j] == rs[i];
      assert Admissible(FactsOf(es)[j]);
    }
  }

  /** From `st` the acceptor decides exactly `rest` and ends in `end`. */
  predicate Continues(st: State, rest: seq<Event>, end: State) {
    AllDecided(rest) && AllAdmissible(FactsOf(rest)) && Run(st, FactsOf(rest)) == (end, rest)
  }

  lemma {:induction false} RestContinues(w: World, start: State, p: Snapshot, m: nat)
    requires Chronicle(w, start) && TakenAt(p, w, start, m)
    ensures Continues(RestoredState(p), w.events[m..], w.acceptor)
  {
    AdmissibleSlices(w.events, m);
    FactsOfSlices(w.events, m);
    RunSplit(start, FactsOf(w.events), m);
    TwoOrders(RestoredState(p), FactsOf(w.events[m..]));
  }

  predicate Permutes(rs: seq<Record>, es: seq<Event>) {
    AllDecided(es) && multiset(rs) == multiset(RecordsOf(es))
  }

  lemma {:induction false} SortPermutesRest(w: World, host: nat, fold: nat, from: nat, m: nat, rs: seq<Record>)
    requires Journals(w) && InOrder(host, fold, w.events) && m <= |w.events| && HostSorted(rs, w, from)
    requires from == fold + m
    ensures Permutes(rs, w.events[m..])
  {
    RecordsOfRun(host, fold, w.events, 0, 0);
    BeyondIsRest(w, fold, from, m);
  }

  lemma {:induction false} ResumeExactly(st: State, rest: seq<Event>, end: State, rs: seq<Record>)
    requires Continues(st, rest, end) && Permutes(rs, rest)
    ensures Resumed(st, rs).Some?
    ensures Resumed(st, rs) == Some((end, rest)) <==> FactsIn(rs) == FactsOf(rest)
  {
    PermutedFacts(rs, rest);
    ResumedIsRun(st, rs);
    FactsOfRun(st, FactsIn(rs));
  }

  /** When everything past the checkpoint was accepted, the host order is the fold order. */
  lemma {:induction false} AcceptedAreHostOrdered(host: nat, fold: nat, es: seq<Event>)
    requires InOrder(host, fold, es) && forall i :: 0 <= i < |es| ==> IsAccepted(es[i])
    ensures StrictlyBy(ByHost, RecordsOf(es))
    decreases |es|
  {
    if |es| >= 2 {
      var most, n := es[..|es| - 1], |es|;
      forall i | 0 <= i < |most| ensures most[..i] == es[..i] {}
      AcceptedAreHostOrdered(host, fold, most);
      assert RecordsOf(es)[..n - 1] == RecordsOf(most);
      assert es[..n - 1][..|es[..n - 1]| - 1] == es[..n - 2];
    }
  }

  /** The checkpoint a restart resumes from: the last one sealed. */
  function ResumePoint(w: World, fold: nat): int
    requires w.lineage != []
  {
    LinkStart(w, fold)
  }

  lemma {:induction false} RestartContinues(boot: string, host: nat, fold: nat, ops: seq<Operation>)
    requires Execute(Fresh(boot, host, fold), ops).lineage != []
    ensures var w := Execute(Fresh(boot, host, fold), ops); var m := ResumePoint(w, fold);
      && 0 <= m <= |w.events| && LastSealed(w).consumedTo == fold + m
      && Continues(RestoredState(LastSealed(w).snapshot), w.events[m..], w.acceptor)
  {
    var w, start := Execute(Fresh(boot, host, fold), ops), State(host, fold, map[]);
    RunKeepsInv(boot, host, fold, ops);
    RunKeepsLineal(boot, host, fold, ops);
    RestContinues(w, start, LastSealed(w).snapshot, ResumePoint(w, fold));
  }

  lemma {:induction false} RestartPermutes(
    boot: string, host: nat, fold: nat, ops: seq<Operation>, from: nat, m: nat, rs: seq<Record>)
    requires var w := Execute(Fresh(boot, host, fold), ops);
      m <= |w.events| && HostSorted(rs, w, from) && from == fold + m
    ensures Permutes(rs, Execute(Fresh(boot, host, fold), ops).events[m..])
  {
    RunKeepsJournals(Fresh(boot, host, fold), ops);
    TwoGapFreeOrders(boot, host, fold, ops);
    SortPermutesRest(Execute(Fresh(boot, host, fold), ops), host, fold, from, m, rs);
  }

  /** Restarting resumes exactly where the run stopped - the same acceptor, the same decisions
      waiting to be folded - if and only if the host order of the retained records reads the same
      facts in the same order as the fold order. */
  lemma {:induction false} RestartExactly(boot: string, host: nat, fold: nat, ops: seq<Operation>, rs: seq<Record>)
    requires var w := Execute(Fresh(boot, host, fold), ops);
      w.lineage != [] && HostSorted(rs, w, LastSealed(w).consumedTo)
    ensures var w := Execute(Fresh(boot, host, fold), ops); var m := ResumePoint(w, fold);
      var resumed := Resumed(RestoredState(LastSealed(w).snapshot), rs);
      && 0 <= m <= |w.events| && resumed.Some?
      && (resumed == Some((w.acceptor, w.events[m..])) <==> FactsIn(rs) == FactsOf(w.events[m..]))
  {
    var w := Execute(Fresh(boot, host, fold), ops);
    RestartContinues(boot, host, fold, ops);
    RestartPermutes(boot, host, fold, ops, LastSealed(w).consumedTo, ResumePoint(w, fold), rs);
    ResumeExactly(RestoredState(LastSealed(w).snapshot), w.events[ResumePoint(w, fold)..], w.acceptor, rs);
  }

  /** In particular when every record past the checkpoint was an accepted one. */
  lemma {:induction false} RestartAfterAccepted(
    boot: string, host: nat, fold: nat, ops: seq<Operation>, rs: seq<Record>)
    requires var w := Execute(Fresh(boot, host, fold), ops);
      w.lineage != [] && HostSorted(rs, w, LastSealed(w).consumedTo)
    requires forall i :: 0 <= i < |rs| ==> rs[i].outcome.Accepted?
    ensures var w := Execute(Fresh(boot, host, fold), ops); var m := ResumePoint(w, fold);
      0 <= m <= |w.events| && Resumed(RestoredState(LastSealed(w).snapshot), rs) == Some((w.acceptor, w.events[m..]))
  {
    var w := Execute(Fresh(boot, host, fold), ops);
    RestartContinues(boot, host, fold, ops);
    RestartPermutes(boot, host, fold, ops, LastSealed(w).consumedTo, ResumePoint(w, fold), rs);
    var st, rest := RestoredState(LastSealed(w).snapshot), w.events[ResumePoint(w, fold)..];
    HostOrderIsFoldOrder(st, rest, w.acceptor, rs);
    ResumeExactly(st, rest, w.acceptor, rs);
  }

  lemma {:induction false} HostOrderIsFoldOrder(st: State, rest: seq<Event>, end: State, rs: seq<Record>)
    requires Continues(st, rest, end) && Permutes(rs, rest) && SortedBy(ByHost, rs)
    requires forall i :: 0 <= i < |rs| ==> rs[i].outcome.Accepted?
    ensures FactsIn(rs) == FactsOf(rest)
  {
    TwoOrders(st, FactsOf(rest));
    forall i | 0 <= i < |rest| ensures IsAccepted(rest[i]) { OnlyAccepted(rs, rest, i); }
    AcceptedAreHostOrdered(st.host, st.fold, rest);
    OneOrder(ByHost, RecordsOf(rest), rs);
  }

  lemma {:induction false} OnlyAccepted(rs: seq<Record>, es: seq<Event>, i: nat)
    requires AllDecided(es) && multiset(rs) == multiset(RecordsOf(es)) && i < |es|
    requires forall k :: 0 <= k < |rs| ==> rs[k].outcome.Accepted?
    ensures IsAccepted(es[i])
  {
    assert RecordsOf(es)[i] in multiset(RecordsOf(es));
    assert RecordsOf(es)[i] in multiset(rs);
    var k :| 0 <= k < |rs| && rs[k] == RecordsOf(es)[i];
  }

  // ----- Which journals restart exactly -----

  /** In fold order, a refused record follows only records of its own fact. */
  predicate Undisturbed(rs: seq<Record>) {
    forall i, j :: 0 <= i < j < |rs| && rs[j].host == 0 ==> rs[i].fact == rs[j].fact
  }

  /** In fold order, an accepted record has a higher host sequence than anything before it. */
  predicate HostsRise(rs: seq<Record>) {
    forall i, j :: 0 <= i < j < |rs| ==> rs[j].host == 0 || rs[i].host < rs[j].host
  }

  lemma {:induction false} RunHostsRise(host: nat, fold: nat, es: seq<Event>)
    requires AllDecided(es) && InOrder(host, fold, es)
    ensures HostsRise(RecordsOf(es)) && forall i :: 0 <= i < |es| ==> RecordsOf(es)[i].host <= host + AcceptedCount(es)
    decreases |es|
  {
    if es != [] {
      var most, n := es[..|es| - 1], |es|;
      forall i | 0 <= i < |most| ensures most[..i] == es[..i] {}
      RunHostsRise(host, fold, most);
      var all, some := RecordsOf(es), RecordsOf(most);
      forall i | 0 <= i < n - 1 ensures all[i] == some[i] {}
    }
  }

  lemma {:induction false} GreatestSortsLast(a: seq<Record>, b: seq<Record>)
    requires a != [] && HostsRise(a) && a[|a| - 1].host != 0 && SortedBy(ByHost, b) && multiset(a) == multiset(b)
    requires b != []
    ensures b[|b| - 1] == a[|a| - 1]
  {
    var x, y := a[|a| - 1], b[|b| - 1];
    assert x in multiset(b) && y in multiset(a);
    var i :| 0 <= i < |a| && a[i] == y;
    var j :| 0 <= j < |b| && b[j] == x;
    LastIsGreatest(ByHost, b, j);
  }

  lemma {:induction false} OneFactThroughout(a: seq<Record>, b: seq<Record>, f: Fact)
    requires multiset(a) == multiset(b) && forall i :: 0 <= i < |a| ==> a[i].fact == f
    ensures FactsIn(a) == FactsIn(b)
  {
    SameSize(a, b);
    forall i | 0 <= i < |b| ensures b[i].fact == f { assert b[i] in multiset(a); }
  }

  /** Undisturbed records read the same facts in whichever way they are sorted. */
  lemma {:induction false} UndisturbedSorts(a: seq<Record>, b: seq<Record>)
    requires HostsRise(a) && Undisturbed(a) && SortedBy(ByHost, b) && multiset(a) == multiset(b)
    ensures FactsIn(a) == FactsIn(b)
    decreases |a|
  {
    SameSize(a, b);
    if a != [] {
      if a[|a| - 1].host == 0 {
        OneFactThroughout(a, b, a[|a| - 1].fact);
      } else {
        GreatestSortsLast(a, b);
        WithoutLast(a);
        WithoutLast(b);
        UndisturbedSorts(a[..|a| - 1], b[..|b| - 1]);
        FactsInSnoc(a);
        FactsInSnoc(b);
      }
    }
  }

  lemma {:induction false} FactsInSnoc(rs: seq<Record>)
    requires rs != []
    ensures FactsIn(rs) == FactsIn(rs[..|rs| - 1]) + [rs[|rs| - 1].fact]
  {
  }

  lemma {:induction false} SortedFrom(rs: seq<Record>, i: nat, j: nat)
    requires SortedBy(ByHost, rs) && i <= j < |rs|
    ensures rs[i].host <= rs[j].host
    decreases |rs|
  {
    if j == |rs| - 1 { LastIsGreatest(ByHost, rs, i); } else { SortedFrom(rs[..|rs| - 1], i, j); }
  }

  lemma {:induction false} PartOf(a: seq<Record>, i: nat, j: nat)
    requires i <= j < |a|
    ensures multiset(a[..i] + [a[j]]) <= multiset(a)
  {
    var rest := a[i..];
    assert a == a[..i] + rest && rest[j - i] == a[j];
    assert multiset{a[j]} <= multiset(rest);
  }

  lemma {:induction false} NoneAbove(below: multiset<Record>, low: multiset<Record>, high: multiset<Record>, h: nat)
    requires below <= low + high && (forall r: Record :: r in below ==> r.host < h)
    requires (forall r: Record :: r in high ==> r.host >= h)
    ensures |below| <= |low|
  {
    forall r: Record ensures below[r] <= low[r] {}
    assert below <= low;
    Fewer(below, low);
  }

  lemma {:induction false} AllAbove(b: seq<Record>, i: nat)
    requires SortedBy(ByHost, b) && i < |b|
    ensures forall r: Record :: r in multiset(b[i..]) ==> r.host >= b[i].host
  {
    forall r: Record | r in multiset(b[i..]) ensures r.host >= b[i].host {
      var k :| 0 <= k < |b[i..]| && b[i..][k] == r;
      SortedFrom(b, i, i + k);
    }
  }

  lemma {:induction false} AllBelow(a: seq<Record>, i: nat, j: nat)
    requires HostsRise(a) && i < j < |a| && a[j].host == 0 && a[i].host > 0
    ensures forall r: Record :: r in multiset(a[..i] + [a[j]]) ==> r.host < a[i].host
  {
    var below := a[..i] + [a[j]];
    forall r: Record | r in multiset(below) ensures r.host < a[i].host {
      var k :| 0 <= k < |below| && below[k] == r;
    }
  }

  /** More than `i` records lie below a host sequence, so a sort has one of them at `i`. */
  lemma {:induction false} SortedBelow(a: seq<Record>, b: seq<Record>, i: nat, j: nat)
    requires SortedBy(ByHost, b) && multiset(a) == multiset(b) && i < j < |a| && a[j].host == 0 && a[i].host > 0
    requires HostsRise(a)
    ensures |b| == |a| && b[i].host < a[i].host
  {
    SameSize(a, b);
    var below, low, high := a[..i] + [a[j]], b[..i], b[i..];
    assert b == low + high;
    PartOf(a, i, j);
    AllBelow(a, i, j);
    AllAbove(b, i);
    if b[i].host >= a[i].host { NoneAbove(multiset(below), multiset(low), multiset(high), a[i].host); }
  }

  lemma {:induction false} Fewer(a: multiset<Record>, b: multiset<Record>)
    requires a <= b
    ensures |a| <= |b|
  {
    assert b == a + (b - a);
  }

  /** Where every refused record carries one fact, an accepted record of another fact before one of them
      moves in every sort. */
  lemma {:induction false} AcceptedMoves(a: seq<Record>, b: seq<Record>, i: nat, j: nat)
    requires SortedBy(ByHost, b) && multiset(a) == multiset(b) && HostsRise(a) && i < j < |a| && a[j].host == 0
    requires a[i].fact != a[j].fact && forall k :: 0 <= k < i ==> a[k].fact == a[j].fact
    requires forall k :: 0 <= k < |a| && a[k].host == 0 ==> a[k].fact == a[j].fact
    ensures FactsIn(a) != FactsIn(b)
  {
    SortedBelow(a, b, i, j);
    assert b[i] in multiset(a);
    var k :| 0 <= k < |a| && a[k] == b[i];
    assert FactsIn(b)[i] == a[j].fact && FactsIn(a)[i] == a[i].fact;
  }

  lemma {:induction false} FirstOther(rs: seq<Record>, i: nat, f: Fact) returns (first: nat)
    requires i < |rs| && rs[i].fact != f
    ensures first <= i && rs[first].fact != f && forall k :: 0 <= k < first ==> rs[k].fact == f
  {
    if k :| 0 <= k < i && rs[k].fact != f { first := FirstOther(rs, k, f); } else { first := i; }
  }

  lemma {:induction false} SameKeysSorted(a: seq<Record>, b: seq<Record>)
    requires SortedBy(ByHost, a) && |a| == |b| && forall i :: 0 <= i < |a| ==> a[i].host == b[i].host
    ensures SortedBy(ByHost, b)
  {
    if |a| >= 2 { SameKeysSorted(a[..|a| - 1], b[..|b| - 1]); }
  }

  /** Two refused records of different facts can be sorted either way round. */
  lemma {:induction false} SwapRefused(b: seq<Record>, x: Record, y: Record) returns (c: seq<Record>)
    requires SortedBy(ByHost, b) && x in b && y in b && x.host == 0 && y.host == 0 && x.fact != y.fact
    ensures SortedBy(ByHost, c) && multiset(c) == multiset(b) && FactsIn(c) != FactsIn(b)
  {
    var i :| 0 <= i < |b| && b[i] == x;
    var j :| 0 <= j < |b| && b[j] == y;
    c := b[i := y][j := x];
    SameKeysSorted(b, c);
    assert FactsIn(c)[i] != FactsIn(b)[i];
  }

  /** Disturbed records can be sorted so that the facts come in another order. */
  lemma {:induction false} DisturbedSorts(a: seq<Record>) returns (b: seq<Record>)
    requires HostsRise(a) && !Undisturbed(a)
    ensures SortedBy(ByHost, b) && multiset(b) == multiset(a) && FactsIn(b) != FactsIn(a)
  {
    var i, j :| 0 <= i < j < |a| && a[j].host == 0 && a[i].fact != a[j].fact;
    b := Merge(ByHost, a);
    MergeSorts(ByHost, a);
    if k :| 0 <= k < |a| && a[k].host == 0 && a[k].fact != a[j].fact {
      assert a[k] in multiset(b) && a[j] in multiset(b);
      var c := SwapRefused(b, a[k], a[j]);
      if FactsIn(b) == FactsIn(a) { b := c; }
    } else {
      var first := FirstOther(a, i, a[j].fact);
      AcceptedMoves(a, b, first, j);
    }
  }

  lemma {:induction false} RetainedInOrder(w: World, host: nat, fold: nat, from: nat, m: nat)
    requires Journals(w) && InOrder(host, fold, w.events) && m <= |w.events| && from == fold + m
    ensures Merge(ByFold, Beyond(w.root, from) + Beyond(w.user, from)) == RecordsOf(w.events[m..])
    ensures multiset(Beyond(w.root, from) + Beyond(w.user, from)) == multiset(RecordsOf(w.events[m..]))
  {
    var held, rest := Beyond(w.root, from) + Beyond(w.user, from), RecordsOf(w.events[m..]);
    RecordsOfRun(host, fold, w.events, m, |w.events|);
    BeyondIsRest(w, fold, from, m);
    RestIsContinuous(w.events, fold, from, m);
    ConsecutiveIsStrict(rest, from);
    MergeSorts(ByFold, held);
    OneOrder(ByFold, rest, Merge(ByFold, held));
  }

  lemma {:induction false} RestIsContinuous(es: seq<Event>, fold: nat, from: nat, m: nat)
    requires AllDecided(es) && m <= |es| && Continuous(RecordsOf(es), fold) && from == fold + m
    ensures Continuous(RecordsOf(es[m..]), from)
  {
    forall i | 0 <= i < |es| - m ensures RecordsOf(es[m..])[i].fold == from + i + 1 {
      assert RecordsOf(es[m..])[i] == RecordsOf(es)[m + i];
    }
  }

  /** Every sort of the retained records resumes exactly where `end` and `rest` stand. */
  ghost predicate AlwaysResumes(w: World, from: nat, st: State, rest: seq<Event>, end: State) {
    forall rs :: HostSorted(rs, w, from) ==> Resumed(st, rs) == Some((end, rest))
  }

  lemma {:induction false} ResumesExactly(w: World, from: nat, st: State, rest: seq<Event>, end: State)
    requires Continues(st, rest, end)
    requires multiset(Beyond(w.root, from) + Beyond(w.user, from)) == multiset(RecordsOf(rest))
    ensures AlwaysResumes(w, from, st, rest, end) <==> Undisturbed(RecordsOf(rest))
  {
    TwoOrders(st, FactsOf(rest));
    RunHostsRise(st.host, st.fold, rest);
    assert FactsIn(RecordsOf(rest)) == FactsOf(rest);
    if Undisturbed(RecordsOf(rest)) {
      forall rs | HostSorted(rs, w, from) ensures Resumed(st, rs) == Some((end, rest)) {
        UndisturbedSorts(RecordsOf(rest), rs);
        ResumeExactly(st, rest, end, rs);
      }
    } else {
      var rs := DisturbedSorts(RecordsOf(rest));
      assert HostSorted(rs, w, from);
      ResumeExactly(st, rest, end, rs);
    }
  }

  /** What can be read off the journals: restarting resumes exactly, whatever the sort makes of equal
      keys, if and only if past the checkpoint no refused record follows a record of another fact. */
  lemma {:induction false} JournalsTellRestart(boot: string, host: nat, fold: nat, ops: seq<Operation>)
    requires Execute(Fresh(boot, host, fold), ops).lineage != []
    ensures var w := Execute(Fresh(boot, host, fold), ops); var m := ResumePoint(w, fold);
      var from := LastSealed(w).consumedTo;
      && 0 <= m <= |w.events|
      && (AlwaysResumes(w, from, RestoredState(LastSealed(w).snapshot), w.events[m..], w.acceptor) <==>
          Undisturbed(Merge(ByFold, Beyond(w.root, from) + Beyond(w.user, from))))
  {
    var w := Execute(Fresh(boot, host, fold), ops);
    var m, from := ResumePoint(w, fold), LastSealed(w).consumedTo;
    RestartContinues(boot, host, fold, ops);
    RunKeepsJournals(Fresh(boot, host, fold), ops);
    TwoGapFreeOrders(boot, host, fold, ops);
    RetainedInOrder(w, host, fold, from, m);
    ResumesExactly(w, from, RestoredState(LastSealed(w).snapshot), w.events[m..], w.acceptor);
  }

  /** A late arrival, decided before what it came after, is accepted too. */
  lemma {:induction false} LateCountsTwice(st: State, ahead: Fact, late: Fact)
    requires Admissible(ahead) && Admissible(late) && ahead.source == late.source && ahead.source in st.sources
    requires ahead.boot == late.boot == st.sources[ahead.source].boot
    requires st.sources[ahead.source].last < late.sequence < ahead.sequence
    ensures var live, restarted := Step(st, ahead, ahead.domain).0, Step(st, late, late.domain).0;
      && Step(live, late, late.domain).0.host == st.host + 1
      && Step(restarted, ahead, ahead.domain).0.host == st.host + 2
  {
    LateIsNotAccepted(Step(st, ahead, ahead.domain).0, late);
  }

  lemma {:induction false} LateIsNotAccepted(st: State, late: Fact)
    requires Admissible(late) && late.source in st.sources
    requires st.sources[late.source].boot == late.boot && late.sequence <= st.sources[late.source].last
    ensures Step(st, late, late.domain).0.host == st.host
  {
  }
}

/** The two journals of a run share one order, and keep every link's evidence readable. */
module JournalOrder {
  import opened Facts
  import opened Acceptance
  import opened History
  import opened AcceptorTheorems
  import opened AcceptorResults
  import opened Reducer
  import opened Comparison
  import opened Reduction
  import opened RuntimeModel
  import opened RuntimeTheorems
  import opened RuntimeResults
  import opened Readiness
  import opened ReplayModel
  import opened ReplayTheorems
  import opened ReplayResults

  /** What one domain's journal keeps of a history. */
  function Kept(es: seq<Event>, d: Domain): seq<Record>
    requires AllDecided(es)
  {
    if es == [] then []
    else Kept(es[..|es| - 1], d) + if es[|es| - 1].fact.domain == d then [RecordOf(es[|es| - 1])] else []
  }

  predicate Journals(w: World) {
    AllDecided(w.events) && w.root == Kept(w.events, Root) && w.user == Kept(w.events, User)
  }

  lemma {:induction false} OfferKeepsJournals(w: World, f: Fact, domain: Domain)
    requires Journals(w)
    ensures Journals(Offer(w, f, domain)) && w.events <= Offer(w, f, domain).events
  {
    var (st, d) := Step(w.acceptor, f, domain);
    if !d.Rejected? { JournalledKeepsJournals(w.(acceptor := st), Event(f, d)); }
  }

  lemma {:induction false} JournalledKeepsJournals(w: World, e: Event)
    requires Journals(w) && e.decision.Decided?
    ensures Journals(Journalled(w, e)) && w.events <= Journalled(w, e).events
  {
    KeptSnoc(w.events, e, Root);
    KeptSnoc(w.events, e, User);
  }

  lemma {:induction false} PublishKeepsJournals(w: World, fs: seq<Fact>, domain: Domain)
    requires Journals(w)
    ensures Journals(Publish(w, fs, domain)) && w.events <= Publish(w, fs, domain).events
    decreases |fs|
  {
    if fs != [] {
      PublishKeepsJournals(w, fs[..|fs| - 1], domain);
      OfferKeepsJournals(Publish(w, fs[..|fs| - 1], domain), fs[|fs| - 1], domain);
    }
  }

  lemma {:induction false} RunKeepsJournals(w: World, ops: seq<Operation>)
    requires Journals(w)
    ensures Journals(Execute(w, ops)) && w.events <= Execute(w, ops).events
    decreases |ops|
  {
    if ops != [] {
      var v := Execute(w, ops[..|ops| - 1]);
      RunKeepsJournals(w, ops[..|ops| - 1]);
      match ops[|ops| - 1] {
        case PublishOp(fs, domain) => PublishKeepsJournals(v, fs, domain);
        case TickOp(x, id) => assert Tick(v, x, id).events == v.events;
      }
    }
  }

  lemma {:induction false} OneMoreLeft(a: seq<Record>, b: seq<Record>, r: Record)
    ensures multiset((a + [r]) + b) == multiset(a + b) + multiset{r}
  {
    assert multiset((a + [r]) + b) == multiset(a) + multiset{r} + multiset(b);
  }

  lemma {:induction false} OneMoreRight(a: seq<Record>, b: seq<Record>, r: Record)
    ensures multiset(a + (b + [r])) == multiset(a + b) + multiset{r}
  {
    assert multiset(a + (b + [r])) == multiset(a) + (multiset(b) + multiset{r});
  }

  lemma {:induction false} KeptSnoc(es: seq<Event>, e: Event, d: Domain)
    requires AllDecided(es) && e.decision.Decided?
    ensures Kept(es + [e], d) == if e.fact.domain == d then Kept(es, d) + [RecordOf(e)] else Kept(es, d)
  {
    assert (es + [e])[..|es + [e]| - 1] == es;
  }

  lemma {:induction false} KeptPartition(es: seq<Event>)
    requires AllDecided(es)
    ensures multiset(Kept(es, Root) + Kept(es, User)) == multiset(RecordsOf(es))
  {
    if es != [] {
      var most, e := es[..|es| - 1], es[|es| - 1];
      assert es == most + [e];
      KeptPartition(most);
      RecordsOfSnoc(most, e);
      KeptSnoc(most, e, Root);
      KeptSnoc(most, e, User);
      var root, user := Kept(most, Root), Kept(most, User);
      match e.fact.domain {
        case Root => OneMoreLeft(root, user, RecordOf(e));
        case User => OneMoreRight(root, user, RecordOf(e));
      }
    }
  }

  lemma {:induction false} ConsecutiveIsStrict(rs: seq<Record>, fold: nat)
    requires Continuous(rs, fold)
    ensures StrictlyBy(ByFold, rs)
  {
    if |rs| >= 2 { ConsecutiveIsStrict(rs[..|rs| - 1], fold); }
  }

  /** Reading both journals and sorting by fold position gives back every decision of the run, in order. */
  lemma {:induction false} MergedJournalsAreTheRun(boot: string, host: nat, fold: nat, ops: seq<Operation>)
    ensures var w := Execute(Fresh(boot, host, fold), ops);
      && AllDecided(w.events)
      && Merge(ByFold, w.root + w.user) == RecordsOf(w.events)
      && Continuous(RecordsOf(w.events), fold)
  {
    var w := Execute(Fresh(boot, host, fold), ops);
    RunKeepsJournals(Fresh(boot, host, fold), ops);
    TwoGapFreeOrders(boot, host, fold, ops);
    RecordsOfRun(host, fold, w.events, 0, 0);
    KeptPartition(w.events);
    MergeSorts(ByFold, w.root + w.user);
    ConsecutiveIsStrict(RecordsOf(w.events), fold);
    OneOrder(ByFold, RecordsOf(w.events), Merge(ByFold, w.root + w.user));
  }

  /** A longer history still holds an earlier stretch. */
  lemma {:induction false} StretchStaysHeld(rs: seq<Record>, es: seq<Event>, fold: nat, m: nat, n: nat)
    requires AllDecided(es) && rs == RecordsOf(es) && Continuous(rs, fold) && m <= n <= |es|
    ensures Within(rs, fold + m, fold + n) == RecordsOf(es[m..n])
  {
    WithinStretch(rs, fold, m, n);
    assert rs[m..n] == RecordsOf(es[m..n]);
  }

  lemma {:induction false} ExecuteConcat(w: World, a: seq<Operation>, b: seq<Operation>)
    ensures Execute(w, a + b) == Execute(Execute(w, a), b)
    decreases |b|
  {
    if b == [] {
      assert a + b == a;
    } else {
      assert (a + b)[..|a + b| - 1] == a + b[..|b| - 1];
      ExecuteConcat(w, a, b[..|b| - 1]);
    }
  }

  predicate IsRecordOf(facts: seq<Record>, w: World, fold: nat) {
    AllDecided(w.events) && facts == RecordsOf(w.events) && Continuous(facts, fold)
  }

  lemma {:induction false} LaterHeld(w: World, later: World, fold: nat, facts: seq<Record>, to: nat)
    requires w.lineage != [] && 0 <= LinkStart(w, fold) <= |w.events| && w.events <= later.events
    requires IsRecordOf(facts, later, fold) && to == fold + |w.events|
    ensures RangeHeld(w, fold, facts, to)
  {
    var m, n := LinkStart(w, fold), |w.events|;
    StretchStaysHeld(facts, later.events, fold, m, n);
    assert later.events[m..n] == w.events[m..];
  }

  lemma {:induction false} EvidenceStaysHeld(
    boot: string, host: nat, fold: nat, ops: seq<Operation>, x: Context, id: nat, more: seq<Operation>)
    requires var w := Execute(Fresh(boot, host, fold), ops);
      w.lineage != [] && |Tick(w, x, id).lineage| > |w.lineage|
    ensures var w := Execute(Fresh(boot, host, fold), ops); var w' := Tick(w, x, id);
      var later := Execute(w', more);
      RangeHeld(w, fold, Merge(ByFold, later.root + later.user), LastSealed(w').consumedTo)
  {
    var w := Execute(Fresh(boot, host, fold), ops);
    var later := Execute(Tick(w, x, id), more);
    var facts := Merge(ByFold, later.root + later.user);
    LaterIsRun(boot, host, fold, ops, x, id, more);
    SealedBounds(boot, host, fold, ops, x, id);
    LaterHeld(w, later, fold, facts, LastSealed(Tick(w, x, id)).consumedTo);
  }

  /** However long the run goes on, its own journals, merged, derive a link it sealed exactly when the
      link is covered. */
  lemma {:induction false} JournalsDeriveEveryLink(
    boot: string, host: nat, fold: nat, ops: seq<Operation>, x: Context, id: nat, more: seq<Operation>)
    requires var w := Execute(Fresh(boot, host, fold), ops);
      w.lineage != [] && |Tick(w, x, id).lineage| > |w.lineage|
    ensures var w := Execute(Fresh(boot, host, fold), ops); var w' := Tick(w, x, id);
      var later := Execute(w', more);
      var facts := Merge(ByFold, later.root + later.user);
      Reproduce(LastSealed(w'), LastSealed(w), facts, x.policies) == VerdictIf(LinkCovered(w, fold, x))
  {
    var later := Execute(Tick(Execute(Fresh(boot, host, fold), ops), x, id), more);
    EvidenceStaysHeld(boot, host, fold, ops, x, id, more);
    RunFidelity(boot, host, fold, ops, x, id, Merge(ByFold, later.root + later.user));
  }

  lemma {:induction false} LaterIsRun(
    boot: string, host: nat, fold: nat, ops: seq<Operation>, x: Context, id: nat, more: seq<Operation>)
    ensures var w := Execute(Fresh(boot, host, fold), ops); var later := Execute(Tick(w, x, id), more);
      && w.events <= later.events
      && IsRecordOf(Merge(ByFold, later.root + later.user), later, fold)
  {
    var initial, all := Fresh(boot, host, fold), ops + [TickOp(x, id)];
    assert all[..|all| - 1] == ops;
    ExecuteConcat(initial, all, more);
    RunKeepsJournals(initial, all);
    RunKeepsJournals(Execute(initial, all), more);
    assert Tick(Execute(initial, ops), x, id).events == Execute(initial, ops).events;
    MergedJournalsAreTheRun(boot, host, fold, all + more);
  }

  lemma {:induction false} SealedBounds(boot: string, host: nat, fold: nat, ops: seq<Operation>, x: Context, id: nat)
    requires var w := Execute(Fresh(boot, host, fold), ops);
      w.lineage != [] && |Tick(w, x, id).lineage| > |w.lineage|
    ensures var w := Execute(Fresh(boot, host, fold), ops);
      0 <= LinkStart(w, fold) <= |w.events| && LastSealed(Tick(w, x, id)).consumedTo == fold + |w.events|
  {
    var start := State(host, fold, map[]);
    RunKeepsInv(boot, host, fold, ops);
    RunKeepsLineal(boot, host, fold, ops);
    SealedReach(Execute(Fresh(boot, host, fold), ops), start, x, id);
  }

  // ----- Every link of a lineage -----

  /** An operation adds at most one link, and only a tick does. */
  predicate Extends(later: seq<Checkpoint>, lineage: seq<Checkpoint>, op: Operation) {
    && |lineage| <= |later| <= |lineage| + 1 && later[..|lineage|] == lineage
    && (|later| > |lineage| ==> op.TickOp?)
  }

  lemma {:induction false} LineageGrows(w: World, op: Operation)
    requires 0 <= Folded(w)
    ensures Extends(Perform(w, op).lineage, w.lineage, op)
  {
    match op {
      case PublishOp(fs, domain) => PublishFolds(w, fs, domain);
      case TickOp(x, id) =>
        if Reduce(TickInput(w, x)).Ok? { AbsorbGrows(w, x, id, Reduce(TickInput(w, x)).output, op); }
    }
  }

  lemma {:induction false} AbsorbGrows(w: World, x: Context, id: nat, output: Output, op: Operation)
    requires op.TickOp?
    ensures Extends(Absorb(w, x, id, output).lineage, w.lineage, op)
  {
  }

  lemma {:induction false} ExecuteSnoc(w: World, ops: seq<Operation>, op: Operation)
    ensures Execute(w, ops + [op]) == Perform(Execute(w, ops), op)
  {
    assert (ops + [op])[..|ops + [op]| - 1] == ops;
  }

  /** Link `i` of `all` was sealed by the tick `x` right after `pre`. */
  predicate SealedBy(all: World, i: nat, pre: World, x: Context, id: nat) {
    var after := Tick(pre, x, id);
    && 0 < i < |all.lineage| && |pre.lineage| == i && |after.lineage| == i + 1
    && LastSealed(pre) == all.lineage[i - 1] && LastSealed(after) == all.lineage[i]
  }

  lemma {:induction false} StaysSealed(all: World, later: World, i: nat, pre: World, x: Context, id: nat, op: Operation)
    requires SealedBy(all, i, pre, x, id) && Extends(later.lineage, all.lineage, op)
    ensures SealedBy(later, i, pre, x, id)
  {
    assert later.lineage[i] == later.lineage[..|all.lineage|][i] &&
      later.lineage[i - 1] == later.lineage[..|all.lineage|][i - 1];
  }

  lemma {:induction false} JustSealed(w: World, after: World, x: Context, id: nat, op: Operation)
    requires after == Tick(w, x, id) && w.lineage != [] && |after.lineage| == |w.lineage| + 1
    requires Extends(after.lineage, w.lineage, op)
    ensures SealedBy(after, |w.lineage|, w, x, id)
  {
    assert after.lineage[|w.lineage| - 1] == after.lineage[..|w.lineage|][|w.lineage| - 1];
  }

  /** Every link after the first was sealed by some tick of the run, onto the link before it. */
  lemma {:induction false} LinkArises(boot: string, host: nat, fold: nat, ops: seq<Operation>, i: nat)
    returns (pre: seq<Operation>, x: Context, id: nat, more: seq<Operation>)
    requires 0 < i < |Execute(Fresh(boot, host, fold), ops).lineage|
    ensures var start := Fresh(boot, host, fold); var w := Execute(start, pre);
      SealedBy(Execute(start, ops), i, w, x, id) && Execute(Tick(w, x, id), more) == Execute(start, ops)
    ensures TickOp(x, id) in ops
    decreases |ops|
  {
    var start := Fresh(boot, host, fold);
    var most, op := ops[..|ops| - 1], ops[|ops| - 1];
    var before := Execute(start, most);
    RunKeepsHonest(boot, host, fold, most);
    LineageGrows(before, op);
    if i < |before.lineage| {
      pre, x, id, more := LinkArises(boot, host, fold, most, i);
      ExecuteSnoc(Tick(Execute(start, pre), x, id), more, op);
      StaysSealed(before, Execute(start, ops), i, Execute(start, pre), x, id, op);
      more := more + [op];
    } else {
      pre, x, id, more := most, op.context, op.id, [];
      JustSealed(before, Execute(start, ops), x, id, op);
    }
  }

  /** Verification of a whole run: every link after the first is reported reproduced from the run's own
      merged journals exactly when it was covered at the tick that sealed it. */
  lemma {:induction false} EveryLinkIsJudged(boot: string, host: nat, fold: nat, ops: seq<Operation>, i: nat)
    returns (pre: seq<Operation>, x: Context, id: nat)
    requires 0 < i < |Execute(Fresh(boot, host, fold), ops).lineage|
    ensures var all := Execute(Fresh(boot, host, fold), ops); var w := Execute(Fresh(boot, host, fold), pre);
      && SealedBy(all, i, w, x, id) && TickOp(x, id) in ops
      && Reproduce(all.lineage[i], all.lineage[i - 1], Merge(ByFold, all.root + all.user), x.policies) ==
        VerdictIf(LinkCovered(w, fold, x))
  {
    var more;
    pre, x, id, more := LinkArises(boot, host, fold, ops, i);
    JournalsDeriveEveryLink(boot, host, fold, pre, x, id, more);
  }
}

/** Verifying a whole lineage against the journals of the run that sealed it. */
module VerifiedRun {
  import opened Facts
  import opened Acceptance
  import opened Reducer
  import opened Comparison
  import opened Reduction
  import opened RuntimeModel
  import opened RuntimeTheorems
  import opened Readiness
  import opened ReplayModel
  import opened ReplayTheorems
  import opened ReplayResults
  import opened ReplayLoops
  import opened JournalOrder

  function IndexOf(lineage: seq<Checkpoint>): seq<nat> {
    seq(|lineage|, i requires 0 <= i < |lineage| => lineage[i].id)
  }

  function HeldBy(lineage: seq<Checkpoint>): map<nat, Checkpoint> {
    if lineage == [] then map[]
    else HeldBy(lineage[..|lineage| - 1])[lineage[|lineage| - 1].id := lineage[|lineage| - 1]]
  }

  /** Identifiers are drawn at random; none comes up twice. */
  predicate Distinct(lineage: seq<Checkpoint>) {
    forall i, j :: 0 <= i < j < |lineage| ==> lineage[i].id != lineage[j].id
  }

  lemma {:induction false} HeldAt(lineage: seq<Checkpoint>, i: nat)
    requires Distinct(lineage) && i < |lineage|
    ensures lineage[i].id in HeldBy(lineage) && HeldBy(lineage)[lineage[i].id] == lineage[i]
  {
    if i < |lineage| - 1 { HeldAt(lineage[..|lineage| - 1], i); }
  }

  // ----- Links are joined -----

  /** The first link has no parent, every other names the one before it, and none abandons anything. */
  predicate Joined(lineage: seq<Checkpoint>) {
    forall i {:trigger ParentId(lineage, i)} :: 0 <= i < |lineage| ==>
      lineage[i].parent == ParentId(lineage, i) && !lineage[i].broken
  }

  function ParentId(lineage: seq<Checkpoint>, i: int): Option<nat>
    requires 0 <= i < |lineage|
  {
    if i == 0 then None else Some(lineage[i - 1].id)
  }

  lemma {:induction false} AbsorbJoins(w: World, x: Context, id: nat, output: Output)
    requires Joined(w.lineage) && !w.broken
    ensures Joined(Absorb(w, x, id, output).lineage) && !Absorb(w, x, id, output).broken
  {
    var after := Absorb(w, x, id, output).lineage;
    forall i | 0 <= i < |after| ensures after[i].parent == ParentId(after, i) && !after[i].broken {
      if i < |w.lineage| {
        assert after[i] == w.lineage[i] && w.lineage[i].parent == ParentId(w.lineage, i);
        assert i > 0 ==> after[i - 1] == w.lineage[i - 1];
      } else {
        assert after[i] == Seal(w, id, x, output);
        assert i > 0 ==> after[i - 1] == w.lineage[|w.lineage| - 1];
      }
    }
  }

  lemma {:induction false} RunIsJoined(boot: string, host: nat, fold: nat, ops: seq<Operation>)
    ensures Joined(Execute(Fresh(boot, host, fold), ops).lineage) && !Execute(Fresh(boot, host, fold), ops).broken
    decreases |ops|
  {
    if ops != [] {
      var most := ops[..|ops| - 1];
      var w := Execute(Fresh(boot, host, fold), most);
      RunIsJoined(boot, host, fold, most);
      RunKeepsHonest(boot, host, fold, most);
      match ops[|ops| - 1] {
        case PublishOp(fs, domain) => PublishFolds(w, fs, domain);
        case TickOp(x, id) => if Reduce(TickInput(w, x)).Ok? { AbsorbJoins(w, x, id, Reduce(TickInput(w, x)).output); }
      }
    }
  }

  // ----- The report -----

  lemma {:induction false} NothingUnloadable(index: seq<nat>, held: map<nat, Checkpoint>)
    requires forall i :: 0 <= i < |index| ==> index[i] in held
    ensures Unloadable(index, held) == []
  {
    if index != [] { NothingUnloadable(index[..|index| - 1], held); }
  }

  lemma {:induction false} JudgedAt(
    index: seq<nat>, held: map<nat, Checkpoint>, facts: seq<Record>, policies: seq<ComponentPolicy>, i: nat)
    requires i < |index| && forall k :: 0 <= k < |index| ==> index[k] in held
    ensures |Judged(index, held, facts, policies)| == |index|
    ensures Judged(index, held, facts, policies)[i] ==
      Link(index[i], LinkVerdict(held[index[i]], held, facts, policies))
  {
    if |index| == 1 {
      assert index[..0] == [];
    } else {
      JudgedAt(index[..|index| - 1], held, facts, policies, if i < |index| - 1 then i else 0);
    }
  }

  /** Every reduction of the run was given these component policies. */
  predicate OnePolicy(ops: seq<Operation>, policies: seq<ComponentPolicy>) {
    forall op :: op in ops && op.TickOp? ==> op.context.policies == policies
  }

  /** Link `i` was covered when it was sealed. */
  ghost predicate CoveredLink(boot: string, host: nat, fold: nat, ops: seq<Operation>, i: nat) {
    exists pre, x, id :: SealedCovered(boot, host, fold, ops, i, pre, x, id)
  }

  ghost predicate SealedCovered(
    boot: string, host: nat, fold: nat, ops: seq<Operation>, i: nat, pre: seq<Operation>, x: Context, id: nat) {
    var w := Execute(Fresh(boot, host, fold), pre);
    && TickOp(x, id) in ops && SealedBy(Execute(Fresh(boot, host, fold), ops), i, w, x, id) && LinkCovered(w, fold, x)
    && exists more :: Execute(Tick(w, x, id), more) == Execute(Fresh(boot, host, fold), ops)
  }

  /** Any account of how a link arose gives the verdict. */
  lemma {:induction false} JudgedBy(
    boot: string, host: nat, fold: nat, ops: seq<Operation>, policies: seq<ComponentPolicy>, i: nat,
    pre: seq<Operation>, x: Context, id: nat, more: seq<Operation>)
    requires var w := Execute(Fresh(boot, host, fold), pre); var all := Execute(Fresh(boot, host, fold), ops);
      SealedBy(all, i, w, x, id) && Execute(Tick(w, x, id), more) == all && x.policies == policies
    ensures var w := Execute(Fresh(boot, host, fold), pre); var all := Execute(Fresh(boot, host, fold), ops);
      Reproduce(all.lineage[i], all.lineage[i - 1], Merge(ByFold, all.root + all.user), policies) ==
        VerdictIf(LinkCovered(w, fold, x))
  {
    JournalsDeriveEveryLink(boot, host, fold, pre, x, id, more);
  }

  lemma {:induction false} LinkJudged(
    boot: string, host: nat, fold: nat, ops: seq<Operation>, policies: seq<ComponentPolicy>, i: nat)
    requires OnePolicy(ops, policies) && 0 < i < |Execute(Fresh(boot, host, fold), ops).lineage|
    ensures var all := Execute(Fresh(boot, host, fold), ops);
      Reproduce(all.lineage[i], all.lineage[i - 1], Merge(ByFold, all.root + all.user), policies) ==
      VerdictIf(CoveredLink(boot, host, fold, ops, i))
  {
    var pre, x, id, more := LinkArises(boot, host, fold, ops, i);
    JudgedBy(boot, host, fold, ops, policies, i, pre, x, id, more);
    if LinkCovered(Execute(Fresh(boot, host, fold), pre), fold, x) {
      assert SealedCovered(boot, host, fold, ops, i, pre, x, id);
    } else if CoveredLink(boot, host, fold, ops, i) {
      CoveredIsReproduced(boot, host, fold, ops, policies, i);
    }
  }

  lemma {:induction false} CoveredIsReproduced(
    boot: string, host: nat, fold: nat, ops: seq<Operation>, policies: seq<ComponentPolicy>, i: nat)
    requires OnePolicy(ops, policies) && 0 < i < |Execute(Fresh(boot, host, fold), ops).lineage|
    requires CoveredLink(boot, host, fold, ops, i)
    ensures var all := Execute(Fresh(boot, host, fold), ops);
      Reproduce(all.lineage[i], all.lineage[i - 1], Merge(ByFold, all.root + all.user), policies) == Reproduced
  {
    var pre, x, id :| SealedCovered(boot, host, fold, ops, i, pre, x, id);
    var more :| Execute(Tick(Execute(Fresh(boot, host, fold), pre), x, id), more) ==
      Execute(Fresh(boot, host, fold), ops);
    JudgedBy(boot, host, fold, ops, policies, i, pre, x, id, more);
  }

  /** What verification reports of a lineage, from its own index, records and journals. */
  function Report(w: World, policies: seq<ComponentPolicy>): seq<ReplayLoops.Link> {
    var index, held, facts := IndexOf(w.lineage), HeldBy(w.lineage), Merge(ByFold, w.root + w.user);
    Unloadable(index, held) + Judged(index, held, facts, policies)
  }

  lemma {:induction false} VerdictOn(
    c: Checkpoint, held: map<nat, Checkpoint>, key: nat, p: Checkpoint, facts: seq<Record>,
    policies: seq<ComponentPolicy>)
    requires c.parent == Some(key) && key in held && held[key] == p
    ensures LinkVerdict(c, held, facts, policies) == Reproduce(c, p, facts, policies)
  {
  }

  lemma {:induction false} ParentHeld(lineage: seq<Checkpoint>, i: nat)
    requires Distinct(lineage) && Joined(lineage) && i < |lineage|
    ensures lineage[i].parent == ParentId(lineage, i) && !lineage[i].broken
    ensures i > 0 ==> lineage[i - 1].id in HeldBy(lineage) && HeldBy(lineage)[lineage[i - 1].id] == lineage[i - 1]
  {
    if i > 0 { HeldAt(lineage, i - 1); }
  }

  lemma {:induction false} VerdictAt(
    lineage: seq<Checkpoint>, facts: seq<Record>, policies: seq<ComponentPolicy>, i: nat)
    requires Distinct(lineage) && Joined(lineage) && 0 < i < |lineage|
    ensures LinkVerdict(lineage[i], HeldBy(lineage), facts, policies) ==
      Reproduce(lineage[i], lineage[i - 1], facts, policies)
  {
    ParentHeld(lineage, i);
    VerdictOn(lineage[i], HeldBy(lineage), lineage[i - 1].id, lineage[i - 1], facts, policies);
  }

  lemma {:induction false} ReportShape(w: World, policies: seq<ComponentPolicy>, i: nat)
    requires Distinct(w.lineage) && i < |w.lineage|
    ensures |Report(w, policies)| == |w.lineage|
    ensures Report(w, policies)[i] ==
      ReplayLoops.Link(w.lineage[i].id,
        LinkVerdict(w.lineage[i], HeldBy(w.lineage), Merge(ByFold, w.root + w.user), policies))
  {
    var index, held, facts := IndexOf(w.lineage), HeldBy(w.lineage), Merge(ByFold, w.root + w.user);
    forall k | 0 <= k < |index| ensures index[k] in held { HeldAt(w.lineage, k); }
    NothingUnloadable(index, held);
    JudgedAt(index, held, facts, policies, i);
    HeldAt(w.lineage, i);
    assert [] + Judged(index, held, facts, policies) == Judged(index, held, facts, policies);
  }

  lemma {:induction false} ReportAt(w: World, policies: seq<ComponentPolicy>, i: nat)
    requires Distinct(w.lineage) && Joined(w.lineage) && i < |w.lineage|
    ensures |Report(w, policies)| == |w.lineage|
    ensures Report(w, policies)[i] == ReplayLoops.Link(w.lineage[i].id,
      if i == 0 then Genesis else Reproduce(w.lineage[i], w.lineage[i - 1], Merge(ByFold, w.root + w.user), policies))
  {
    ReportShape(w, policies, i);
    ParentHeld(w.lineage, i);
    if i > 0 { VerdictAt(w.lineage, Merge(ByFold, w.root + w.user), policies, i); }
  }

  /** The verdict on every link of a run: the first is the genesis, every other is reproduced if it was
      covered when it was sealed, and diverged if it was not. */
  lemma {:induction false} EveryLinkIsReported(
    boot: string, host: nat, fold: nat, ops: seq<Operation>, policies: seq<ComponentPolicy>, i: nat)
    requires OnePolicy(ops, policies)
    requires var w := Execute(Fresh(boot, host, fold), ops); Distinct(w.lineage) && i < |w.lineage|
    ensures var w := Execute(Fresh(boot, host, fold), ops);
      && |Report(w, policies)| == |w.lineage|
      && Report(w, policies)[i] ==
         ReplayLoops.Link(w.lineage[i].id, if i == 0 then Genesis else VerdictIf(CoveredLink(boot, host, fold, ops, i)))
  {
    RunIsJoined(boot, host, fold, ops);
    ReportAt(Execute(Fresh(boot, host, fold), ops), policies, i);
    if i > 0 { LinkJudged(boot, host, fold, ops, policies, i); }
  }

  // ----- The totals -----

  function WithStatus(links: seq<ReplayLoops.Link>, v: LinkStatus): set<int> {
    set i | 0 <= i < |links| && links[i].status == v
  }

  lemma {:induction false} CountIsSize(links: seq<ReplayLoops.Link>, v: LinkStatus)
    ensures CountOf(links, v) == |WithStatus(links, v)|
  {
    if links != [] {
      var most, n := links[..|links| - 1], |links| - 1;
      CountIsSize(most, v);
      assert WithStatus(links, v) == WithStatus(most, v) + if links[n].status == v then {n} else {};
    }
  }

  ghost function Covered(boot: string, host: nat, fold: nat, ops: seq<Operation>): set<int> {
    set i | 0 < i < |Execute(Fresh(boot, host, fold), ops).lineage| && CoveredLink(boot, host, fold, ops, i)
  }

  ghost function Uncovered(boot: string, host: nat, fold: nat, ops: seq<Operation>): set<int> {
    set i | 0 < i < |Execute(Fresh(boot, host, fold), ops).lineage| && !CoveredLink(boot, host, fold, ops, i)
  }

  lemma {:induction false} ReportedSets(
    boot: string, host: nat, fold: nat, ops: seq<Operation>, policies: seq<ComponentPolicy>,
    links: seq<ReplayLoops.Link>)
    requires OnePolicy(ops, policies) && Distinct(Execute(Fresh(boot, host, fold), ops).lineage)
    requires links == Report(Execute(Fresh(boot, host, fold), ops), policies)
    ensures WithStatus(links, Reproduced) == Covered(boot, host, fold, ops)
    ensures WithStatus(links, Diverged) == Uncovered(boot, host, fold, ops)
    ensures WithStatus(links, Unreplayable) == {}
  {
    var n := |Execute(Fresh(boot, host, fold), ops).lineage|;
    if n == 0 { EmptyReport(Execute(Fresh(boot, host, fold), ops), policies); }
    forall i | 0 <= i < n
      ensures |links| == n && links[i].status ==
        if i == 0 then Genesis else VerdictIf(CoveredLink(boot, host, fold, ops, i))
    {
      EveryLinkIsReported(boot, host, fold, ops, policies, i);
    }
    assert n > 0 ==> |links| == n by { if n > 0 { EveryLinkIsReported(boot, host, fold, ops, policies, 0); } }
  }

  lemma {:induction false} EmptyReport(w: World, policies: seq<ComponentPolicy>)
    requires w.lineage == []
    ensures Report(w, policies) == []
  {
    assert IndexOf(w.lineage) == [];
  }

  /** Whatever totals verification returns for a run's own lineage and journals: as many reproduced links
      as were covered, as many diverged as were not, and none it could not replay. */
  lemma {:induction false} TotalsOfARun(
    boot: string, host: nat, fold: nat, ops: seq<Operation>, policies: seq<ComponentPolicy>, totals: Totals)
    requires OnePolicy(ops, policies) && Distinct(Execute(Fresh(boot, host, fold), ops).lineage)
    requires Totalled(totals, Report(Execute(Fresh(boot, host, fold), ops), policies))
    ensures totals.reproduced == |Covered(boot, host, fold, ops)|
    ensures totals.diverged == |Uncovered(boot, host, fold, ops)|
    ensures totals.unreplayable == 0
  {
    var links := Report(Execute(Fresh(boot, host, fold), ops), policies);
    ReportedSets(boot, host, fold, ops, policies, links);
    CountIsSize(links, Reproduced);
    CountIsSize(links, Diverged);
    CountIsSize(links, Unreplayable);
  }
}

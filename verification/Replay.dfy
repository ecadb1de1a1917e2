/** Re-deriving a sealed link from the journals: re-acceptance, one reduction, comparison. */
module ReplayModel {
  import opened Facts
  import opened Acceptance
  import opened Reducer
  import opened Comparison
  import opened Reduction
  import opened RuntimeModel

  /** Re-accepting retained records, counted in fold positions. */
  datatype Progress = Progress(state: State, expected: nat, events: seq<Event>) | Hole | Refused

  /** A record judged one way then and another way now means the evidence disagrees with itself. */
  function ReAcceptOne(p: Progress, from: nat, r: Record): Progress {
    if !p.Progress? || r.fold <= from then p
    else if r.fold != p.expected + 1 then Hole
    else
      var (st, d) := Step(p.state, r.fact, r.fact.domain);
      if d.Rejected? then Refused
      else if d.outcome != r.outcome || d.host != r.host then Hole
      else Progress(st, p.expected + 1, p.events + [Event(r.fact, d)])
  }

  function ReAccept(start: State, from: nat, rs: seq<Record>): Progress {
    if rs == [] then Progress(start, from, [])
    else ReAcceptOne(ReAccept(start, from, rs[..|rs| - 1]), from, rs[|rs| - 1])
  }

  datatype ReplayResult = Derived(output: Output) | JournalGap | Broken

  function Concluded(r: Result): ReplayResult {
    match r case Err(_) => Broken case Ok(output) => Derived(output)
  }

  function ReplayOnto(parent: Checkpoint, records: seq<Record>, continuous: bool, x: Context): ReplayResult {
    if !continuous then JournalGap
    else if !ValidState(RestoredState(parent.snapshot)) then Broken
    else match ReAccept(RestoredState(parent.snapshot), parent.consumedTo, records)
      case Hole => JournalGap
      case Refused => Broken
      case Progress(_, _, events) => Concluded(Reduce(Input(Some(parent.snapshot), 0, 0, events, x)))
  }

  /** The retained records a link consumed. */
  function Within(facts: seq<Record>, from: nat, to: nat): seq<Record> {
    if facts == [] then []
    else
      var r := facts[|facts| - 1];
      Within(facts[..|facts| - 1], from, to) + if from < r.fold <= to then [r] else []
  }

  predicate Continuous(rs: seq<Record>, from: nat) {
    forall i :: 0 <= i < |rs| ==> rs[i].fold == from + i + 1
  }

  datatype LinkStatus = Reproduced | Diverged | Unreplayable | Genesis | BrokenOff

  /** Outputs are compared by content. */
  function Compared(c: Checkpoint, r: ReplayResult): LinkStatus {
    if !r.Derived? then Unreplayable
    else if r.output.snapshot == c.snapshot && r.output.diff == c.diff &&
      r.output.proposals == c.proposals then Reproduced
    else Diverged
  }

  /** The context a link recorded: its own policy, tick and wake rather than current ones. */
  function RecordedContext(c: Checkpoint, policies: seq<ComponentPolicy>): Context {
    Context(c.snapshot.boot, c.snapshot.tick, c.wake, c.snapshot.policy, policies)
  }

  /** What replaying one link concludes. */
  function Reproduce(
    c: Checkpoint, parent: Checkpoint, facts: seq<Record>, policies: seq<ComponentPolicy>): LinkStatus {
    var kept := Within(facts, parent.consumedTo, c.consumedTo);
    if |kept| != c.consumedTo - parent.consumedTo || !Continuous(kept, parent.consumedTo) then Unreplayable
    else Compared(c, ReplayOnto(parent, kept, true, RecordedContext(c, policies)))
  }

  /** A link's verdict against whatever the store still holds. */
  function LinkVerdict(
    c: Checkpoint, held: map<nat, Checkpoint>, facts: seq<Record>, policies: seq<ComponentPolicy>): LinkStatus {
    if c.parent.None? then (if c.broken then BrokenOff else Genesis)
    else if c.parent.value !in held then Unreplayable
    else Reproduce(c, held[c.parent.value], facts, policies)
  }

  /** The records folded after a position. */
  function Beyond(rs: seq<Record>, from: nat): seq<Record> {
    if rs == [] then []
    else Beyond(rs[..|rs| - 1], from) + if rs[|rs| - 1].fold > from then [rs[|rs| - 1]] else []
  }

  lemma {:induction false} BeyondSnoc(rs: seq<Record>, r: Record, from: nat)
    ensures Beyond(rs + [r], from) == Beyond(rs, from) + if r.fold > from then [r] else []
  {
    assert (rs + [r])[..|rs + [r]| - 1] == rs;
  }

  // ----- Merging the two journals -----

  datatype Order = ByFold | ByHost

  function Key(o: Order, r: Record): nat {
    match o case ByFold => r.fold case ByHost => r.host
  }

  predicate SortedBy(o: Order, rs: seq<Record>) {
    |rs| >= 2 ==> Key(o, rs[|rs| - 2]) <= Key(o, rs[|rs| - 1]) && SortedBy(o, rs[..|rs| - 1])
  }

  predicate StrictlyBy(o: Order, rs: seq<Record>) {
    |rs| >= 2 ==> Key(o, rs[|rs| - 2]) < Key(o, rs[|rs| - 1]) && StrictlyBy(o, rs[..|rs| - 1])
  }

  function InsertBy(o: Order, rs: seq<Record>, r: Record): seq<Record> {
    if rs == [] || Key(o, rs[|rs| - 1]) <= Key(o, r) then rs + [r]
    else InsertBy(o, rs[..|rs| - 1], r) + [rs[|rs| - 1]]
  }

  /** The records of both domains in one order. */
  function Merge(o: Order, rs: seq<Record>): seq<Record> {
    if rs == [] then [] else InsertBy(o, Merge(o, rs[..|rs| - 1]), rs[|rs| - 1])
  }

  lemma {:induction false} InsertPermutes(o: Order, rs: seq<Record>, r: Record)
    ensures multiset(InsertBy(o, rs, r)) == multiset(rs) + multiset{r}
  {
    if rs != [] && Key(o, rs[|rs| - 1]) > Key(o, r) {
      InsertPermutes(o, rs[..|rs| - 1], r);
      assert rs == rs[..|rs| - 1] + [rs[|rs| - 1]];
    }
  }

  lemma {:induction false} InsertSorts(o: Order, rs: seq<Record>, r: Record)
    requires SortedBy(o, rs)
    ensures var s := InsertBy(o, rs, r);
      && SortedBy(o, s) && s != []
      && Key(o, s[|s| - 1]) == if rs != [] && Key(o, rs[|rs| - 1]) > Key(o, r) then Key(o, rs[|rs| - 1]) else Key(o, r)
  {
    var s := InsertBy(o, rs, r);
    if rs != [] && Key(o, rs[|rs| - 1]) > Key(o, r) {
      InsertSorts(o, rs[..|rs| - 1], r);
      assert s[..|s| - 1] == InsertBy(o, rs[..|rs| - 1], r);
    } else {
      assert s[..|s| - 1] == rs;
    }
  }

  lemma {:induction false} MergeSorted(o: Order, rs: seq<Record>)
    ensures SortedBy(o, Merge(o, rs))
  {
    if rs != [] {
      MergeSorted(o, rs[..|rs| - 1]);
      InsertSorts(o, Merge(o, rs[..|rs| - 1]), rs[|rs| - 1]);
    }
  }

  lemma {:induction false} MultisetSnoc(rs: seq<Record>)
    requires rs != []
    ensures multiset(rs) == multiset(rs[..|rs| - 1]) + multiset{rs[|rs| - 1]}
  {
    assert rs == rs[..|rs| - 1] + [rs[|rs| - 1]];
  }

  lemma {:induction false} MergePermutes(o: Order, rs: seq<Record>)
    ensures multiset(Merge(o, rs)) == multiset(rs)
  {
    if rs != [] {
      MergePermutes(o, rs[..|rs| - 1]);
      InsertPermutes(o, Merge(o, rs[..|rs| - 1]), rs[|rs| - 1]);
      MultisetSnoc(rs);
    }
  }

  lemma {:induction false} MergeSorts(o: Order, rs: seq<Record>)
    ensures SortedBy(o, Merge(o, rs)) && multiset(Merge(o, rs)) == multiset(rs)
  {
    MergeSorted(o, rs);
    MergePermutes(o, rs);
  }

  lemma {:induction false} LastIsGreatest(o: Order, rs: seq<Record>, i: nat)
    requires SortedBy(o, rs) && i < |rs|
    ensures Key(o, rs[i]) <= Key(o, rs[|rs| - 1])
  {
    if i < |rs| - 1 { LastIsGreatest(o, rs[..|rs| - 1], i); }
  }

  lemma {:induction false} LastIsStrictlyGreatest(o: Order, rs: seq<Record>, i: nat)
    requires StrictlyBy(o, rs) && i < |rs| - 1
    ensures Key(o, rs[i]) < Key(o, rs[|rs| - 1])
  {
    if i < |rs| - 2 { LastIsStrictlyGreatest(o, rs[..|rs| - 1], i); }
  }

  lemma {:induction false} SameLast(o: Order, a: seq<Record>, b: seq<Record>)
    requires StrictlyBy(o, a) && SortedBy(o, b) && multiset(a) == multiset(b) && a != [] && b != []
    ensures a[|a| - 1] == b[|b| - 1]
  {
    var x, y := a[|a| - 1], b[|b| - 1];
    assert x in multiset(b) && y in multiset(a);
    var i :| 0 <= i < |a| && a[i] == y;
    var j :| 0 <= j < |b| && b[j] == x;
    LastIsGreatest(o, b, j);
    if i < |a| - 1 { LastIsStrictlyGreatest(o, a, i); }
  }

  lemma {:induction false} WithoutLast(rs: seq<Record>)
    requires rs != []
    ensures multiset(rs[..|rs| - 1]) == multiset(rs) - multiset{rs[|rs| - 1]}
  {
    assert rs == rs[..|rs| - 1] + [rs[|rs| - 1]];
  }

  lemma {:induction false} SameSize(a: seq<Record>, b: seq<Record>)
    requires multiset(a) == multiset(b)
    ensures |a| == |b|
  {
    assert |a| == |multiset(a)| && |b| == |multiset(b)|;
  }

  /** Distinct keys leave only one way to sort. */
  lemma {:induction false} OneOrder(o: Order, a: seq<Record>, b: seq<Record>)
    requires StrictlyBy(o, a) && SortedBy(o, b) && multiset(a) == multiset(b)
    ensures a == b
    decreases |a|
  {
    SameSize(a, b);
    if a != [] {
      SameLast(o, a, b);
      WithoutLast(a);
      WithoutLast(b);
      var m, n := a[..|a| - 1], b[..|b| - 1];
      assert multiset(m) == multiset(n);
      OneOrder(o, m, n);
      SplitLast(a);
      SplitLast(b);
    }
  }

  lemma {:induction false} SplitLast(rs: seq<Record>)
    requires rs != []
    ensures rs == rs[..|rs| - 1] + [rs[|rs| - 1]]
  {
  }
}

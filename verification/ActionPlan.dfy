/** Action plans: what may be applied, what is owned, and what a rollback may undo. */
module ActionPlan {
  import opened Facts

  const MAX_STEPS: nat := 16

  /** Digests and identifiers are abstract. */
  datatype Step = Step(id: string, before: nat, applied: nat, restored: nat)

  predicate ValidPlan(plan: seq<Step>) {
    && 1 <= |plan| <= MAX_STEPS
    && (forall i :: 0 <= i < |plan| ==> plan[i].before != plan[i].applied)
    && (forall i, j :: 0 <= i < j < |plan| ==> plan[i].id != plan[j].id)
  }

  /** The attempt an applied step belongs to. */
  datatype Claim = Claim(action: nat, attempt: nat)

  datatype Ownership = Available | Owned(claim: Claim) | Foreign | Ambiguous
  datatype Observation = Observation(id: string, state: nat, owner: Ownership)

  predicate WellFormed(o: Observation) {
    o.owner.Owned? ==> o.owner.claim.action != o.owner.claim.attempt
  }

  /** A step may be applied only to the state it was planned against, when nobody owns it. */
  predicate VerifiesBefore(s: Step, o: Observation) {
    s.before != s.applied && WellFormed(o) && o.id == s.id && o.state == s.before && o.owner.Available?
  }

  predicate VerifiesOwned(s: Step, c: Claim, o: Observation) {
    WellFormed(o) && o.id == s.id && o.state == s.applied && o.owner == Owned(c)
  }

  predicate VerifiesRestored(s: Step, o: Observation) {
    WellFormed(o) && o.id == s.id && o.state == s.restored && o.owner.Available?
  }

  // ----- Which applied steps a rollback may undo -----

  datatype SkipReason = MissingObservation | NotOwned | ForeignOwner | AmbiguousOwner | StateChanged | BlockedByNewer

  datatype Skip = Skip(id: string, reason: SkipReason)

  datatype Rollback = Rollback(operations: seq<Step>, skipped: seq<Skip>)

  /** None when the step is still exactly as this attempt left it. */
  function Obstacle(s: Step, c: Claim, o: Observation): Option<SkipReason> {
    match o.owner
    case Available => Some(NotOwned)
    case Foreign => Some(ForeignOwner)
    case Ambiguous => Some(AmbiguousOwner)
    case Owned(claim) =>
      if claim != c then Some(ForeignOwner)
      else if o.state != s.applied then Some(StateChanged)
      else None
  }

  predicate StillOwned(s: Step, c: Claim, seen: map<string, Observation>) {
    s.id in seen && Obstacle(s, c, seen[s.id]).None?
  }

  /** An observation that is not about the step it was asked for stops the rollback altogether. */
  predicate Misreported(s: Step, seen: map<string, Observation>) {
    s.id in seen && (!WellFormed(seen[s.id]) || seen[s.id].id != s.id)
  }

  function SkipFor(s: Step, c: Claim, seen: map<string, Observation>): Skip
    requires !StillOwned(s, c, seen)
  {
    Skip(s.id, if s.id in seen then Obstacle(s, c, seen[s.id]).value else MissingObservation)
  }

  /** How many of the applied steps, counted from the start, cannot be undone. */
  function Cut(applied: seq<Step>, c: Claim, seen: map<string, Observation>): (k: nat)
    ensures k <= |applied|
  {
    if applied == [] then 0
    else if StillOwned(applied[|applied| - 1], c, seen) then Cut(applied[..|applied| - 1], c, seen)
    else |applied|
  }

  /** The operations are the longest still-owned run at the end of what was applied: every step of it
      is owned, and the step before it is not. */
  lemma {:induction false} CutIsMaximal(applied: seq<Step>, c: Claim, seen: map<string, Observation>)
    ensures var k := Cut(applied, c, seen);
      && (forall i :: k <= i < |applied| ==> StillOwned(applied[i], c, seen))
      && (k > 0 ==> !StillOwned(applied[k - 1], c, seen))
  {
    if applied != [] && StillOwned(applied[|applied| - 1], c, seen) { CutIsMaximal(applied[..|applied| - 1], c, seen); }
  }

  function Reversed<T>(s: seq<T>): (r: seq<T>)
    ensures |r| == |s|
  {
    if s == [] then [] else [s[|s| - 1]] + Reversed(s[..|s| - 1])
  }

  lemma {:induction false} ReversedAt<T>(s: seq<T>, i: nat)
    requires i < |s|
    ensures Reversed(s)[i] == s[|s| - 1 - i]
  {
    if i > 0 { ReversedAt(s[..|s| - 1], i - 1); }
  }

  lemma {:induction false} ReversedConcat<T>(x: T, s: seq<T>)
    ensures Reversed([x] + s) == Reversed(s) + [x]
    decreases |s|
  {
    if s != [] {
      assert ([x] + s)[..|s|] == [x] + s[..|s| - 1];
      ReversedConcat(x, s[..|s| - 1]);
    }
  }

  function Blocked(applied: seq<Step>): seq<Skip> {
    seq(|applied|, i requires 0 <= i < |applied| => Skip(applied[|applied| - 1 - i].id, BlockedByNewer))
  }

  /** Newest first: the still-owned run is undone, the first obstacle is named, everything older is
      blocked by it. */
  function RollbackOf(applied: seq<Step>, c: Claim, seen: map<string, Observation>): Rollback {
    var k := Cut(applied, c, seen);
    CutIsMaximal(applied, c, seen);
    Rollback(Reversed(applied[k..]),
      if k == 0 then [] else [SkipFor(applied[k - 1], c, seen)] + Blocked(applied[..k - 1]))
  }

  /** Whether the scan, going back from the newest step, meets an observation it cannot use before it
      meets an obstacle. */
  predicate Unusable(applied: seq<Step>, c: Claim, seen: map<string, Observation>) {
    applied != [] &&
    (Misreported(applied[|applied| - 1], seen) ||
     (StillOwned(applied[|applied| - 1], c, seen) && Unusable(applied[..|applied| - 1], c, seen)))
  }

  /** Exactly the observations of the owned run and of the obstacle itself matter. */
  lemma {:induction false} UnusableExactly(applied: seq<Step>, c: Claim, seen: map<string, Observation>)
    ensures Unusable(applied, c, seen) <==>
      exists i :: 0 <= i < |applied| && i >= Cut(applied, c, seen) - 1 && Misreported(applied[i], seen)
  {
    if applied != [] {
      var most, n := applied[..|applied| - 1], |applied|;
      UnusableExactly(most, c, seen);
      if StillOwned(applied[n - 1], c, seen) {
        if i :| 0 <= i < |most| && i >= Cut(most, c, seen) - 1 && Misreported(most[i], seen) {
          assert Misreported(applied[i], seen);
        }
        if i :| 0 <= i < n && i >= Cut(applied, c, seen) - 1 && Misreported(applied[i], seen) {
          if i < n - 1 { assert Misreported(most[i], seen); }
        }
      }
    }
  }

  /** Everything older than an obstacle is left alone. */
  method SkipOlder(older: seq<Step>) returns (skipped: seq<Skip>)
    ensures skipped == Blocked(older)
  {
    skipped := [];
    var m := |older|;
    while m > 0
      invariant 0 <= m <= |older| && |skipped| == |older| - m
      invariant forall i :: 0 <= i < |skipped| ==> skipped[i] == Skip(older[|older| - 1 - i].id, BlockedByNewer)
    {
      skipped := skipped + [Skip(older[m - 1].id, BlockedByNewer)];
      m := m - 1;
    }
  }

  /** One step of the scan, going back over the newest of the first `n`. */
  lemma {:induction false} ScanStep(applied: seq<Step>, c: Claim, seen: map<string, Observation>, n: nat)
    requires 0 < n <= |applied|
    ensures var s := applied[n - 1];
      && Cut(applied[..n], c, seen) == (if StillOwned(s, c, seen) then Cut(applied[..n - 1], c, seen) else n)
      && (Unusable(applied[..n], c, seen) <==>
          Misreported(s, seen) || (StillOwned(s, c, seen) && Unusable(applied[..n - 1], c, seen)))
  {
    assert applied[..n][..n - 1] == applied[..n - 1];
  }

  lemma {:induction false} ScanStops(applied: seq<Step>, c: Claim, seen: map<string, Observation>, n: nat)
    requires 0 < n <= |applied| && Cut(applied, c, seen) == n && !StillOwned(applied[n - 1], c, seen)
    ensures RollbackOf(applied, c, seen)
         == Rollback(Reversed(applied[n..]), [SkipFor(applied[n - 1], c, seen)] + Blocked(applied[..n - 1]))
  {}

  /** The backwards scan. */
  method BuildRollback(applied: seq<Step>, c: Claim, seen: map<string, Observation>) returns (r: Option<Rollback>)
    ensures r == if Unusable(applied, c, seen) then None else Some(RollbackOf(applied, c, seen))
  {
    var operations: seq<Step> := [];
    var n := |applied|;
    assert applied[..n] == applied;
    while n > 0
      invariant 0 <= n <= |applied|
      invariant Cut(applied, c, seen) == Cut(applied[..n], c, seen)
      invariant Unusable(applied, c, seen) <==> Unusable(applied[..n], c, seen)
      invariant operations == Reversed(applied[n..])
    {
      var s := applied[n - 1];
      ScanStep(applied, c, seen, n);
      if s.id in seen && (!WellFormed(seen[s.id]) || seen[s.id].id != s.id) {
        return None;
      }
      if s.id !in seen || Obstacle(s, c, seen[s.id]).Some? {
        ScanStops(applied, c, seen, n);
        var older := SkipOlder(applied[..n - 1]);
        return Some(Rollback(operations, [SkipFor(s, c, seen)] + older));
      }
      ReversedCons(applied, n - 1);
      operations := operations + [s];
      n := n - 1;
    }
    assert applied[0..] == applied;
    return Some(Rollback(operations, []));
  }

  lemma {:induction false} ReversedCons(s: seq<Step>, k: nat)
    requires k < |s|
    ensures Reversed(s[k..]) == Reversed(s[k + 1..]) + [s[k]]
  {
    assert s[k..] == [s[k]] + s[k + 1..];
    ReversedConcat(s[k], s[k + 1..]);
  }

  function Ids(steps: seq<Step>): seq<string> {
    seq(|steps|, i requires 0 <= i < |steps| => steps[i].id)
  }

  function SkippedIds(skips: seq<Skip>): seq<string> {
    seq(|skips|, i requires 0 <= i < |skips| => skips[i].id)
  }

  /** Operations and skips together are exactly the applied steps, newest first, each once; and the
      operations alone are the longest still-owned run at the end. */
  lemma {:induction false} RollbackPartitions(applied: seq<Step>, c: Claim, seen: map<string, Observation>)
    ensures var r := RollbackOf(applied, c, seen);
      && Ids(r.operations) + SkippedIds(r.skipped) == Reversed(Ids(applied))
      && (r.skipped == [] <==> forall i :: 0 <= i < |applied| ==> StillOwned(applied[i], c, seen))
  {
    CutIsMaximal(applied, c, seen);
    var k := Cut(applied, c, seen);
    var r := RollbackOf(applied, c, seen);
    assert |r.operations| == |applied| - k && |r.skipped| == k;
    SkippedAreOlder(applied, c, seen, k, r.skipped);
    NewestThenOlder(applied, k, r.operations, r.skipped);
  }

  lemma {:induction false} NewestThenOlder(applied: seq<Step>, k: nat, operations: seq<Step>, skipped: seq<Skip>)
    requires k <= |applied| && operations == Reversed(applied[k..])
    requires |skipped| == k && forall i :: 0 <= i < k ==> skipped[i].id == applied[k - 1 - i].id
    ensures Ids(operations) + SkippedIds(skipped) == Reversed(Ids(applied))
  {
    var n := |applied|;
    forall i | 0 <= i < n ensures (Ids(operations) + SkippedIds(skipped))[i] == Reversed(Ids(applied))[i] {
      ReversedAt(Ids(applied), i);
      if i < n - k { ReversedAt(applied[k..], i); }
    }
  }

  lemma {:induction false} SkippedAreOlder(
    applied: seq<Step>, c: Claim, seen: map<string, Observation>, k: nat, skipped: seq<Skip>)
    requires k <= |applied| && (k > 0 ==> !StillOwned(applied[k - 1], c, seen))
    requires skipped == if k == 0 then [] else [SkipFor(applied[k - 1], c, seen)] + Blocked(applied[..k - 1])
    ensures |skipped| == k && forall i :: 0 <= i < k ==> skipped[i].id == applied[k - 1 - i].id
  {
    forall i | 0 <= i < k ensures skipped[i].id == applied[k - 1 - i].id {
      if i > 0 { assert skipped[i] == Blocked(applied[..k - 1])[i - 1]; }
    }
  }
}

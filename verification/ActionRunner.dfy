/** Running a plan against a host that may fail at any call: commit, or undo, or ask for safe mode. */
module ActionRunner {
  import opened Facts
  import opened ActionPlan
  import LeaseModel

  datatype Cell = Cell(state: nat, owner: Ownership)
  datatype LeaseStatus = LeaseCommitted | LeaseOther

  datatype RunResult = RunResult(applied: nat, rolledBack: nat, skipped: nat, committed: bool, safeMode: bool,
    incident: bool)
  datatype RunError = NoError | ExecutionFailed | RollbackFailed

  /** Everything the runner does not control: the runtime it acts on, the lease guard, the authorization
      source and the failure handler.  Any call may fail.  A faithful host reports cells as they are
      and changes a cell only by applying a step or its inverse to it, completely or not at all; any
      other host may answer and do anything. */
  class Host {
    const faithful: bool
    var cells: map<string, Cell>
    var safeModeRequested: bool
    var incidentRequested: bool
    /** What guards did with the lease so far, this runner's and anyone else's. */
    var history: seq<LeaseModel.Action>
    /** Attempts the lease guard let through before a step, and attempts that applied one. */
    ghost var granted: set<nat>
    ghost var mutators: set<nat>

    /** Only who was let through changes anything, and the lease let them through. */
    ghost predicate Leased()
      reads this`history, this`granted, this`mutators
    {
      mutators <= granted <= LeaseModel.LetThrough(history)
    }

    constructor (faithful: bool, cells: map<string, Cell>)
      ensures this.faithful == faithful && this.cells == cells && !safeModeRequested && !incidentRequested
      ensures history == [] && granted == {} && mutators == {} && Leased()
    {
      this.faithful, this.cells, safeModeRequested, incidentRequested := faithful, cells, false, false;
      history, granted, mutators := [], {}, {};
    }

    method Observe(id: string) returns (o: Option<Observation>)
      ensures faithful && o.Some? ==> id in cells && o.value == Observation(id, cells[id].state, cells[id].owner)
    {
      var fails: bool := *;
      if fails || id !in cells {
        return None;
      }
      if faithful {
        return Some(Observation(id, cells[id].state, cells[id].owner));
      }
      o := *;
    }

    method Change(id: string, cell: Cell) returns (ok: bool)
      modifies this`cells
      ensures faithful ==> cells == old(cells) || cells == old(cells)[id := cell]
    {
      var takes: bool := *;
      if faithful {
        if takes {
          cells := cells[id := cell];
        }
      } else {
        cells := *;
      }
      ok := *;
    }

    /** Nothing is applied for an attempt the guard did not let through. */
    method Apply(s: Step, c: Claim) returns (ok: bool)
      requires c.attempt in granted
      modifies this`cells, this`mutators
      ensures mutators == old(mutators) + {c.attempt}
      ensures faithful ==> cells == old(cells) || cells == old(cells)[s.id := Cell(s.applied, Owned(c))]
    {
      mutators := mutators + {c.attempt};
      ok := Change(s.id, Cell(s.applied, Owned(c)));
    }

    method ApplyInverse(s: Step) returns (ok: bool)
      modifies this`cells
      ensures faithful ==> cells == old(cells) || cells == old(cells)[s.id := Cell(s.restored, Available)]
    {
      ok := Change(s.id, Cell(s.restored, Available));
    }

    /** The lease guard's check before a step.  Whatever else guards do meanwhile, it says yes only when
        a check of this attempt succeeded. */
    method BeforeStep(c: Claim) returns (ok: bool)
      modifies this`history, this`granted
      ensures old(history) <= history
      ensures ok ==> c.attempt in LeaseModel.LetThrough(history)
      ensures granted == old(granted) + if ok then {c.attempt} else {}
      ensures old(Leased()) ==> Leased()
    {
      var more: seq<LeaseModel.Action> := *;
      LeaseModel.LetThroughGrows(history, more);
      history := history + more;
      ok := *;
      ok := ok && c.attempt in LeaseModel.LetThrough(history);
      if ok {
        granted := granted + {c.attempt};
      }
    }

    /** Authorization, and the lease guard's writes: allowed or not. */
    method Allows() returns (ok: bool) {
      ok := *;
    }

    method Outcome() returns (known: bool, outcome: Option<LeaseStatus>) {
      known, outcome := *, *;
    }

    method EnterSafeMode() returns (ok: bool)
      modifies this`safeModeRequested
      ensures safeModeRequested
    {
      safeModeRequested := true;
      ok := *;
    }

    method EmitIncident() returns (ok: bool)
      modifies this`incidentRequested
      ensures incidentRequested
    {
      incidentRequested := true;
      ok := *;
    }
  }

  // ----- What the cells look like along the way -----

  predicate SameCell(cells: map<string, Cell>, before: map<string, Cell>, id: string) {
    (id in cells <==> id in before) && (id in cells ==> cells[id] == before[id])
  }

  function CellAt(s: Step, c: Claim, undone: bool): Cell {
    if undone then Cell(s.restored, Available) else Cell(s.applied, Owned(c))
  }

  /** The first `applied` steps are in place, except the last `restored` of them, which are undone;
      every other cell is as it was. */
  ghost predicate Progress(
    cells: map<string, Cell>, before: map<string, Cell>, plan: seq<Step>, c: Claim, applied: nat, restored: nat)
    requires restored <= applied <= |plan|
  {
    && (forall i :: 0 <= i < applied ==>
      plan[i].id in cells && cells[plan[i].id] == CellAt(plan[i], c, i >= applied - restored))
    && (forall id :: id !in Ids(plan)[..applied] ==> SameCell(cells, before, id))
  }

  /** A step's cell is as it was, or as the step or its inverse leaves it. */
  predicate Settled(cells: map<string, Cell>, before: map<string, Cell>, s: Step, c: Claim) {
    SameCell(cells, before, s.id) ||
      (s.id in cells && (cells[s.id] == CellAt(s, c, false) || cells[s.id] == CellAt(s, c, true)))
  }

  /** Whatever else went wrong: nothing but the first `n` steps was touched, each all or not at all. */
  ghost predicate Touched(cells: map<string, Cell>, before: map<string, Cell>, plan: seq<Step>, c: Claim, n: nat)
    requires n <= |plan|
  {
    && (forall i :: 0 <= i < n ==> Settled(cells, before, plan[i], c))
    && (forall id :: id !in Ids(plan)[..n] ==> SameCell(cells, before, id))
  }

  lemma {:induction false} ChangeTouches(
    cells: map<string, Cell>, before: map<string, Cell>, plan: seq<Step>, c: Claim, n: nat, i: nat, undone: bool)
    requires ValidPlan(plan) && i < n <= |plan| && Touched(cells, before, plan, c, n)
    ensures Touched(cells[plan[i].id := CellAt(plan[i], c, undone)], before, plan, c, n)
  {
    var after := cells[plan[i].id := CellAt(plan[i], c, undone)];
    IdAt(plan, n, i);
    forall j | 0 <= j < n ensures Settled(after, before, plan[j], c) { assert Settled(cells, before, plan[j], c); }
    forall id | id !in Ids(plan)[..n] ensures SameCell(after, before, id) { assert SameCell(cells, before, id); }
  }

  lemma {:induction false} TouchedMore(
    cells: map<string, Cell>, before: map<string, Cell>, plan: seq<Step>, c: Claim, n: nat)
    requires ValidPlan(plan) && n < |plan| && Touched(cells, before, plan, c, n)
    ensures Touched(cells, before, plan, c, n + 1)
  {
    assert Ids(plan)[..n + 1] == Ids(plan)[..n] + [plan[n].id];
    forall i | 0 <= i < n ensures Ids(plan)[..n][i] != plan[n].id { assert plan[i].id != plan[n].id; }
    assert SameCell(cells, before, plan[n].id);
  }

  lemma {:induction false} ProgressTouches(
    cells: map<string, Cell>, before: map<string, Cell>, plan: seq<Step>, c: Claim, n: nat, k: nat)
    requires k <= n <= |plan| && Progress(cells, before, plan, c, n, k)
    ensures Touched(cells, before, plan, c, n)
  {
  }

  /** Operations are steps of the plan that were taken. */
  predicate Drawn(operations: seq<Step>, plan: seq<Step>, n: nat)
    requires n <= |plan|
  {
    forall k :: 0 <= k < |operations| ==> operations[k] in plan[..n]
  }

  lemma {:induction false} RollbackDrawn(plan: seq<Step>, n: nat, c: Claim, seen: map<string, Observation>)
    requires n <= |plan|
    ensures Drawn(RollbackOf(plan[..n], c, seen).operations, plan, n)
  {
    var applied, k := plan[..n], Cut(plan[..n], c, seen);
    forall i | 0 <= i < |Reversed(applied[k..])|
      ensures Reversed(applied[k..])[i] in applied
    {
      ReversedAt(applied[k..], i);
    }
  }

  lemma {:induction false} IdAt(plan: seq<Step>, applied: nat, i: nat)
    requires i < applied <= |plan|
    ensures plan[i].id in Ids(plan)[..applied]
  {
    assert Ids(plan)[..applied][i] == plan[i].id;
  }

  lemma {:induction false} ApplyProgress(
    cells: map<string, Cell>, before: map<string, Cell>, plan: seq<Step>, c: Claim, n: nat)
    requires ValidPlan(plan) && n < |plan| && Progress(cells, before, plan, c, n, 0)
    ensures Progress(cells[plan[n].id := Cell(plan[n].applied, Owned(c))], before, plan, c, n + 1, 0)
  {
    var after := cells[plan[n].id := Cell(plan[n].applied, Owned(c))];
    forall id | id !in Ids(plan)[..n + 1] ensures SameCell(after, before, id) {
      assert Ids(plan)[..n + 1] == Ids(plan)[..n] + [plan[n].id];
      assert id !in Ids(plan)[..n];
    }
  }

  lemma {:induction false} UndoProgress(
    cells: map<string, Cell>, before: map<string, Cell>, plan: seq<Step>, c: Claim, n: nat, k: nat)
    requires ValidPlan(plan) && k < n <= |plan| && Progress(cells, before, plan, c, n, k)
    ensures Progress(cells[plan[n - 1 - k].id := Cell(plan[n - 1 - k].restored, Available)], before, plan, c, n, k + 1)
  {
    var after := cells[plan[n - 1 - k].id := Cell(plan[n - 1 - k].restored, Available)];
    IdAt(plan, n, n - 1 - k);
    forall id | id !in Ids(plan)[..n] ensures SameCell(after, before, id) {
      assert SameCell(cells, before, id);
    }
  }

  // ----- How a run may end -----

  /** Committed with every step in place; or failed with everything that was applied verified restored
      and nothing skipped; or failed after safe mode and an incident were asked for, with nothing
      touched but the cells of the steps taken and of one more. */
  ghost predicate Ends(
    plan: seq<Step>, c: Claim, faithful: bool, before: map<string, Cell>, after: map<string, Cell>,
    asked: bool, r: RunResult, e: RunError)
  {
    match e
    case NoError =>
      && r.committed && r.applied == |plan| && r.rolledBack == 0 && r.skipped == 0
      && (faithful ==> Progress(after, before, plan, c, |plan|, 0))
    case ExecutionFailed =>
      && !r.committed && r.applied <= |plan| && r.rolledBack == r.applied && r.skipped == 0
      && (faithful ==> Progress(after, before, plan, c, r.applied, r.applied))
    case RollbackFailed =>
      && !r.committed && asked && r.applied <= |plan|
      && (faithful ==> Touched(after, before, plan, c, if r.applied < |plan| then r.applied + 1 else |plan|))
  }

  class Runner {
    const plan: seq<Step>
    const claim: Claim
    const host: Host
    var started: bool

    predicate Valid()
      reads this
    {
      ValidPlan(plan) && claim.action != claim.attempt
    }

    constructor (plan: seq<Step>, claim: Claim, host: Host)
      requires ValidPlan(plan) && claim.action != claim.attempt
      ensures Valid() && this.plan == plan && this.claim == claim && this.host == host && !started
    {
      this.plan, this.claim, this.host, started := plan, claim, host, false;
    }

    /** Looks at every applied step before undoing any. */
    method ObserveApplied(n: nat) returns (seen: map<string, Observation>, unsafe: bool)
      requires Valid() && n <= |plan|
      ensures !unsafe ==> forall i :: 0 <= i < n ==> plan[i].id in seen
      ensures host.faithful ==> forall id :: id in seen ==>
        id in host.cells && seen[id] == Observation(id, host.cells[id].state, host.cells[id].owner)
    {
      seen, unsafe := map[], false;
      for i := 0 to n
        invariant !unsafe ==> forall j :: 0 <= j < i ==> plan[j].id in seen
        invariant host.faithful ==> forall id :: id in seen ==>
          id in host.cells && seen[id] == Observation(id, host.cells[id].state, host.cells[id].owner)
      {
        var o := host.Observe(plan[i].id);
        if o.None? {
          unsafe := true;
        } else {
          seen := seen[plan[i].id := o.value];
        }
      }
    }

    /** Undoes what is still owned, newest first, verifying each step before and after.  `sure` says
        that the applied steps are known to be in place. */
    method UndoSteps(
      operations: seq<Step>, ghost before: map<string, Cell>, ghost n: nat, ghost m: nat, ghost sure: bool)
      returns (undone: nat, unsafe: bool)
      requires Valid() && n <= m <= |plan| && Drawn(operations, plan, n)
      requires host.faithful ==> Touched(host.cells, before, plan, claim, m)
      requires sure ==> |operations| == n && operations == Reversed(plan[..n]) && host.faithful
      requires sure ==> Progress(host.cells, before, plan, claim, n, 0)
      modifies host`cells
      ensures undone <= |operations| && (!unsafe ==> undone == |operations|)
      ensures host.faithful ==> Touched(host.cells, before, plan, claim, m)
      ensures sure && !unsafe ==> Progress(host.cells, before, plan, claim, n, n)
    {
      undone, unsafe := 0, true;
      while undone < |operations|
        invariant 0 <= undone <= |operations|
        invariant host.faithful ==> Touched(host.cells, before, plan, claim, m)
        invariant sure ==> Progress(host.cells, before, plan, claim, n, undone)
      {
        var s := operations[undone];
        ghost var i :| 0 <= i < n && plan[..n][i] == s;
        var ready := host.Observe(s.id);
        if ready.None? || !VerifiesOwned(s, claim, ready.value) {
          return;
        }
        ghost var cells := host.cells;
        if host.faithful { ChangeTouches(cells, before, plan, claim, m, i, true); }
        var ok := host.ApplyInverse(s);
        if !ok {
          return;
        }
        var after := host.Observe(s.id);
        if after.None? || !VerifiesRestored(s, after.value) {
          return;
        }
        if sure {
          ReversedAt(plan[..n], undone);
          assert host.cells == cells[s.id := Cell(s.restored, Available)];
          UndoProgress(cells, before, plan, claim, n, undone);
        }
        undone := undone + 1;
      }
      unsafe := false;
    }

    method RollBack(
      ghost before: map<string, Cell>, n: nat, ghost m: nat, ghost sure: bool)
      returns (undone: nat, skipped: nat, unsafe: bool)
      requires Valid() && n <= m <= |plan|
      requires host.faithful ==> Touched(host.cells, before, plan, claim, m)
      requires sure ==> host.faithful && Progress(host.cells, before, plan, claim, n, 0)
      modifies host`cells
      ensures !unsafe ==> undone == n && skipped == 0
      ensures host.faithful ==> Touched(host.cells, before, plan, claim, m)
      ensures sure && !unsafe ==> Progress(host.cells, before, plan, claim, n, n)
    {
      var seen, blind := ObserveApplied(n);
      var rollback := BuildRollback(plan[..n], claim, seen);
      if rollback.None? {
        return 0, 0, true;
      }
      RollbackPartitions(plan[..n], claim, seen);
      skipped := |rollback.value.skipped|;
      ghost var whole := sure && skipped == 0;
      assert skipped == 0 ==> Cut(plan[..n], claim, seen) == 0 && plan[..n][0..] == plan[..n];
      RollbackDrawn(plan, n, claim, seen);
      undone, unsafe := UndoSteps(rollback.value.operations, before, n, m, whole);
      unsafe := unsafe || blind || skipped > 0;
    }

    /** Undo, resolve the lease, and ask for safe mode unless everything is known to be undone. */
    method Fail(ghost before: map<string, Cell>, n: nat, force: bool) returns (r: RunResult, e: RunError)
      requires Valid() && n <= |plan|
      requires host.faithful && !force ==> Progress(host.cells, before, plan, claim, n, 0)
      requires host.faithful ==> Touched(host.cells, before, plan, claim, if n < |plan| then n + 1 else |plan|)
      modifies host`cells, host`safeModeRequested, host`incidentRequested
      ensures !e.NoError?
      ensures e.ExecutionFailed? ==>
        host.safeModeRequested == old(host.safeModeRequested) && host.incidentRequested == old(host.incidentRequested)
      ensures Ends(plan, claim, host.faithful, before, host.cells, host.safeModeRequested &&
        host.incidentRequested, r, e)
    {
      var undone, skipped, unsafe := RollBack(before, n, if n < |plan| then n + 1 else |plan|, host.faithful && !force);
      unsafe := unsafe || force;
      var aborted := host.Allows();
      if !aborted {
        var known, outcome := host.Outcome();
        unsafe := unsafe || !known || outcome.None? || outcome.value.LeaseCommitted?;
      }
      r := RunResult(n, undone, skipped, false, false, false);
      if unsafe {
        var safe := host.EnterSafeMode();
        var told := host.EmitIncident();
        return r.(safeMode := safe, incident := told), RollbackFailed;
      }
      return r, ExecutionFailed;
    }

    /** One step: authorized, unowned and unchanged before; applied; and seen to be owned after.
        `recorded` says the step is known to be in place, `uncertain` that its effect is not known. */
    method TakeStep(ghost before: map<string, Cell>, n: nat) returns (proceed: bool, recorded: bool, uncertain: bool)
      requires Valid() && n < |plan| && (host.faithful ==> Progress(host.cells, before, plan, claim, n, 0))
      modifies host`cells, host`history, host`granted, host`mutators
      ensures proceed ==> recorded && !uncertain
      ensures host.faithful ==> Touched(host.cells, before, plan, claim, n + 1)
      ensures old(host.Leased()) ==> host.Leased()
      ensures host.mutators <= old(host.mutators) + {claim.attempt}
      ensures host.faithful && !uncertain ==>
        Progress(host.cells, before, plan, claim, if recorded then n + 1 else n, 0)
    {
      proceed, recorded, uncertain := false, false, false;
      if host.faithful {
        ProgressTouches(host.cells, before, plan, claim, n, 0);
        TouchedMore(host.cells, before, plan, claim, n);
        ChangeTouches(host.cells, before, plan, claim, n + 1, n, false);
      }
      var s := plan[n];
      var current := host.Allows();
      if !current {
        return;
      }
      var allowed := host.BeforeStep(claim);
      if !allowed {
        return;
      }
      var seen := host.Observe(s.id);
      if seen.None? || !VerifiesBefore(s, seen.value) {
        return;
      }
      ghost var cells := host.cells;
      var applied := host.Apply(s, claim);
      var after := host.Observe(s.id);
      if after.None? {
        return false, false, true;
      }
      if VerifiesOwned(s, claim, after.value) {
        recorded := true;
        if host.faithful {
          assert host.cells == cells[s.id := Cell(s.applied, Owned(claim))];
          ApplyProgress(cells, before, plan, claim, n);
        }
      } else if !VerifiesBefore(s, after.value) {
        uncertain := true;
      }
      proceed := applied && recorded;
    }

    /** Authorized once more, and committed or undone. */
    method Resolve(ghost before: map<string, Cell>) returns (r: RunResult, e: RunError)
      requires Valid() && (host.faithful ==> Progress(host.cells, before, plan, claim, |plan|, 0))
      modifies host`cells, host`safeModeRequested, host`incidentRequested
      ensures !e.RollbackFailed? ==>
        host.safeModeRequested == old(host.safeModeRequested) && host.incidentRequested == old(host.incidentRequested)
      ensures Ends(plan, claim, host.faithful, before, host.cells,
        host.safeModeRequested && host.incidentRequested, r, e)
    {
      if host.faithful { ProgressTouches(host.cells, before, plan, claim, |plan|, 0); }
      var current := host.Allows();
      if !current {
        r, e := Fail(before, |plan|, false);
        return;
      }
      var committed := host.Allows();
      if !committed {
        var known, outcome := host.Outcome();
        if !known || outcome.None? || !outcome.value.LeaseCommitted? {
          r, e := Fail(before, |plan|, false);
          return;
        }
      }
      return RunResult(|plan|, 0, 0, true, false, false), NoError;
    }

    /** The whole run: at most once per runner. */
    method Run() returns (r: RunResult, e: RunError)
      requires Valid()
      modifies this, host
      ensures Ends(plan, claim, host.faithful, old(host.cells), host.cells, host.safeModeRequested &&
        host.incidentRequested, r, e)
      ensures !e.RollbackFailed? ==>
        host.safeModeRequested == old(host.safeModeRequested) && host.incidentRequested == old(host.incidentRequested)
      ensures old(host.Leased()) ==> host.Leased()
      ensures host.mutators <= old(host.mutators) + {claim.attempt}
      ensures old(started) ==> e.ExecutionFailed? && r.applied == 0 && host.cells == old(host.cells)
    {
      ghost var before := host.cells;
      r := RunResult(0, 0, 0, false, false, false);
      if started {
        return r, ExecutionFailed;
      }
      started := true;
      var known, outcome := host.Outcome();
      if !known || outcome.Some? {
        return r, ExecutionFailed;
      }
      var begun := host.Allows();
      if !begun {
        return r, ExecutionFailed;
      }
      var current := host.Allows();
      if !current {
        return r, ExecutionFailed;
      }
      var n := 0;
      while n < |plan|
        invariant 0 <= n <= |plan|
        invariant host.faithful ==> Progress(host.cells, before, plan, claim, n, 0)
        invariant host.safeModeRequested == old(host.safeModeRequested)
        invariant host.incidentRequested == old(host.incidentRequested)
        invariant old(host.Leased()) ==> host.Leased()
        invariant host.mutators <= old(host.mutators) + {claim.attempt}
      {
        var proceed, recorded, uncertain := TakeStep(before, n);
        if !proceed {
          if host.faithful && recorded && n + 1 < |plan| { TouchedMore(host.cells, before, plan, claim, n + 1); }
          r, e := Fail(before, if recorded then n + 1 else n, uncertain);
          return;
        }
        n := n + 1;
      }
      r, e := Resolve(before);
    }
  }
}

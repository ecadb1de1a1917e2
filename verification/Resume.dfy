/** Startup: the newest checkpoint whose record and retained ancestry can be proved. */
module ResumeModel {
  import opened Facts
  import opened StoreModel
  import opened StoreTheorems

  datatype Status = FromGenesis | FromLatest | FromAncestor | Unrecoverable

  datatype Reason =
    | NoReason | NoPointerFile | PointerInvalid | RecordMissing | RecordInvalid | ParentBroken
    | DigestMismatch | DepthExhausted | LineageEvicted

  datatype Resume = Resume(status: Status, reason: Reason, checkpoint: Option<Sealed>, tried: nat, overflow: bool)

  // ----- What a search means -----

  /** The candidate found is proved, and every newer one within reach is not. */
  predicate FoundNewest(f: Files, start: int, overflow: bool, depth: nat, r: Resume)
    requires start < |f.index|
  {
    && r.checkpoint.Some? && r.tried <= depth && r.tried <= start
    && Proves(f, f.index[start - r.tried], overflow, depth)
    && Load(f, f.index[start - r.tried].id) == Loaded.Loaded(r.checkpoint.value)
    && NoneProved(f, start, overflow, depth, r.tried)
  }

  /** None of the first `n` candidates, counted back from `start`, can be proved. */
  predicate NoneProved(f: Files, start: int, overflow: bool, depth: nat, n: int)
    requires start < |f.index|
  {
    forall i :: start - n < i <= start && 0 <= i ==> !Proves(f, f.index[i], overflow, depth)
  }

  /** Either the newest provable candidate within the bound, or the knowledge that there is none. */
  predicate SoundSearch(f: Files, start: int, overflow: bool, depth: nat, initial: Reason, r: Resume)
    requires start < |f.index|
  {
    && r.overflow == overflow
    && (r.checkpoint.Some? ==> FoundNewest(f, start, overflow, depth, r))
    && (r.checkpoint.None? <==> NoneProved(f, start, overflow, depth, depth + 1))
    && r.status == (if r.checkpoint.None? then Unrecoverable
                    else if r.tried == 0 && initial.NoReason? then FromLatest
                    else FromAncestor)
    && (r.checkpoint.Some? && initial.NoReason? ==> (r.reason.NoReason? <==> r.tried == 0))
    && (r.checkpoint.None? ==> !r.reason.NoReason?)
  }

  /** The lineage entry the search starts from: the last one named by the latest pointer, otherwise the newest. */
  predicate IsStart(f: Files, start: int) {
    && -1 <= start < |f.index|
    && (f.pointer.Points? && Named(f, f.pointer.pointer.id) ==>
        && 0 <= start && f.index[start].id == f.pointer.pointer.id
        && forall i :: start < i < |f.index| ==> f.index[i].id != f.pointer.pointer.id)
    && (!f.pointer.Points? || !Named(f, f.pointer.pointer.id) ==> start == |f.index| - 1)
  }

  predicate Named(f: Files, id: nat) {
    exists i :: 0 <= i < |f.index| && f.index[i].id == id
  }

  function Initial(f: Files): Reason {
    match f.pointer
    case NoPointer => NoPointerFile
    case BadPointer => PointerInvalid
    case Points(_) => NoReason
  }

  function Overflowed(f: Files): bool {
    f.pointer.Points? && f.pointer.pointer.overflow
  }

  /** What startup may conclude.  An unreadable lineage is an error, not a conclusion. */
  ghost predicate SoundResume(f: Files, depth: nat, out: Option<Resume>) {
    && (out.None? <==> !f.readable)
    && (out.Some? ==>
        if !f.pointer.Points? && f.index == [] then
          out.value == Resume(if f.pointer.NoPointer? then FromGenesis else Unrecoverable,
                              if f.pointer.NoPointer? then NoReason else PointerInvalid, None, 0, false)
        else
          exists start :: IsStart(f, start) && SoundSearch(f, start, Overflowed(f), depth, Initial(f), out.value))
  }

  // ----- The loops -----

  /** Verifies one candidate and walks its retained ancestry. */
  method Prove(f: Files, e: Entry, overflow: bool, depth: nat) returns (candidate: Option<Sealed>, failure: Reason)
    ensures failure.NoReason? <==> Proves(f, e, overflow, depth)
    ensures candidate.Some? <==> failure.NoReason?
    ensures candidate.Some? ==> Load(f, e.id) == Loaded.Loaded(candidate.value)
  {
    var loaded := Load(f, e.id);
    if loaded.Missing? {
      return None, RecordMissing;
    }
    if loaded.Invalid? {
      return None, RecordInvalid;
    }
    var checkpoint := loaded.record;
    if !Matches(checkpoint, e) {
      return None, DigestMismatch;
    }
    var current, steps := checkpoint, 0;
    while current.parent.Some?
      invariant 0 <= steps <= depth
      invariant AncestryLinks(f, checkpoint, overflow, depth) <==> AncestryLinks(f, current, overflow, depth - steps)
      decreases depth - steps
    {
      if steps >= depth {
        break;
      }
      var parent := Load(f, current.parent.value);
      if parent.Missing? {
        if overflow {
          return Some(checkpoint), NoReason;
        }
        return None, ParentBroken;
      }
      if parent.Invalid? {
        return None, RecordInvalid;
      }
      if Some(parent.record.digest) != current.parentDigest {
        return None, ParentBroken;
      }
      current, steps := parent.record, steps + 1;
    }
    return Some(checkpoint), NoReason;
  }

  /** Walks backwards from a starting entry. */
  method Search(f: Files, start: int, overflow: bool, depth: nat, initial: Reason) returns (r: Resume)
    requires -1 <= start < |f.index|
    ensures SoundSearch(f, start, overflow, depth, initial, r)
  {
    var reason, firstFailure := initial, NoReason;
    var tried := 0;
    while tried <= depth
      invariant 0 <= tried <= depth + 1
      invariant NoneProved(f, start, overflow, depth, tried)
      invariant firstFailure.NoReason? <==> tried == 0
      invariant initial.NoReason? && tried > 0 ==> !reason.NoReason?
      invariant !initial.NoReason? ==> !reason.NoReason?
    {
      if start - tried < 0 {
        if reason.NoReason? {
          reason := RecordMissing;
        }
        if overflow {
          reason := LineageEvicted;
        }
        return Resume(Unrecoverable, reason, None, tried, overflow);
      }
      var candidate, failure := Prove(f, f.index[start - tried], overflow, depth);
      if failure.NoReason? {
        var status := if tried == 0 && initial.NoReason? then FromLatest else FromAncestor;
        return Resume(status, if initial.NoReason? then firstFailure else initial, candidate, tried, overflow);
      }
      if firstFailure.NoReason? {
        firstFailure := failure;
      }
      if reason.NoReason? || tried > 0 {
        reason := failure;
      }
      tried := tried + 1;
    }
    return Resume(Unrecoverable, DepthExhausted, None, depth, overflow);
  }

  /** The whole of startup. */
  method ResumeStore(f: Files, depth: nat) returns (out: Option<Resume>)
    ensures SoundResume(f, depth, out)
  {
    if !f.readable {
      return None;
    }
    if !f.pointer.Points? && f.index == [] {
      if f.pointer.NoPointer? {
        return Some(Resume(FromGenesis, NoReason, None, 0, false));
      }
      return Some(Resume(Unrecoverable, PointerInvalid, None, 0, false));
    }
    var start := |f.index| - 1;
    if f.pointer.Points? {
      for i := 0 to |f.index|
        invariant -1 <= start < |f.index|
        invariant start < i || start == |f.index| - 1
        invariant (exists j :: 0 <= j < i && f.index[j].id == f.pointer.pointer.id) ==>
          0 <= start < i && f.index[start].id == f.pointer.pointer.id
        invariant forall j :: start < j < i ==> f.index[j].id != f.pointer.pointer.id
        invariant !(exists j :: 0 <= j < i && f.index[j].id == f.pointer.pointer.id) ==> start == |f.index| - 1
      {
        if f.index[i].id == f.pointer.pointer.id {
          start := i;
        }
      }
    }
    assert IsStart(f, start);
    var r := Search(f, start, Overflowed(f), depth, Initial(f));
    return Some(r);
  }

  // ----- A healthy store always resumes from what it believes in -----

  lemma {:induction false} HealthyAncestry(f: Files, r: Sealed, overflow: bool, steps: nat)
    requires GoodRecords(f) && Bound(f, r)
    ensures AncestryLinks(f, r, overflow, steps)
    decreases steps
  {
    if r.parent.Some? && steps > 0 {
      var p := Load(f, r.parent.value).record;
      assert r.parent.value in f.records;
      HealthyAncestry(f, p, overflow, steps - 1);
    }
  }

  lemma {:induction false} HealthyProves(f: Files, i: nat, overflow: bool, depth: nat)
    requires Healthy(f) && i < |f.index|
    ensures Proves(f, f.index[i], overflow, depth)
  {
    assert Filed(f, f.index[i]);
    var id := f.index[i].id;
    assert id in f.records;
    HealthyAncestry(f, Load(f, id).record, overflow, depth);
  }

  lemma {:induction false} StartIsNewest(f: Files, start: int)
    requires Healthy(f) && IsStart(f, start) && f.index != []
    ensures 0 <= start && Newest(f) == Some(f.index[start].id)
  {
    if f.pointer.Points? {
      var n := |f.index|;
      if PointsAt(f.pointer.pointer, f.index[n - 1]) {
        assert Named(f, f.index[n - 1].id);
      } else {
        assert Named(f, f.index[n - 2].id);
      }
    }
  }

  /** After any number of appends, each stopped anywhere, startup returns exactly the record the store
      believes in, proved; only a store that never held one starts from nothing. */
  lemma {:induction false} HealthyResumes(f: Files, depth: nat, out: Option<Resume>)
    requires Healthy(f) && SoundResume(f, depth, out)
    ensures out.Some?
    ensures Newest(f).None? ==> out.value.status == FromGenesis && out.value.checkpoint.None?
    ensures Newest(f).Some? ==>
      Load(f, Newest(f).value).Loaded? && out.value.checkpoint == Some(Load(f, Newest(f).value).record)
    ensures f.pointer.Points? ==> out.value.status == FromLatest
  {
    if f.pointer.Points? || f.index != [] {
      var start :| IsStart(f, start) && SoundSearch(f, start, Overflowed(f), depth, Initial(f), out.value);
      HealthyFound(f, depth, start, out.value);
    }
  }

  lemma {:induction false} HealthyFound(f: Files, depth: nat, start: int, r: Resume)
    requires Healthy(f) && f.index != [] && IsStart(f, start)
    requires SoundSearch(f, start, Overflowed(f), depth, Initial(f), r)
    ensures Newest(f).Some? && Load(f, Newest(f).value).Loaded? && r.checkpoint == Some(Load(f, Newest(f).value).record)
    ensures f.pointer.Points? ==> r.status == FromLatest
  {
    StartIsNewest(f, start);
    HealthyProves(f, start, Overflowed(f), depth);
    FirstIsFound(f, start, Overflowed(f), depth, Initial(f), r);
  }

  lemma {:induction false} FirstIsFound(f: Files, start: nat, overflow: bool, depth: nat, initial: Reason, r: Resume)
    requires start < |f.index| && SoundSearch(f, start, overflow, depth, initial, r)
    requires Proves(f, f.index[start], overflow, depth)
    ensures r.tried == 0 && Load(f, f.index[start].id).Loaded?
    ensures r.checkpoint == Some(Load(f, f.index[start].id).record)
    ensures initial.NoReason? ==> r.status == FromLatest
  {
  }

  datatype Try = Try(checkpoint: Sealed, stop: Stop)

  function AfterTries(f: Files, tries: seq<Try>): Files {
    if tries == [] then f
    else Append(AfterTries(f, tries[..|tries| - 1]), tries[|tries| - 1].checkpoint, tries[|tries| - 1].stop).files
  }

  function EmptyStore(): Files {
    Files(map[], [], true, NoPointer)
  }

  lemma {:induction false} TriesStayHealthy(tries: seq<Try>)
    ensures Healthy(AfterTries(EmptyStore(), tries))
  {
    if tries != [] {
      TriesStayHealthy(tries[..|tries| - 1]);
      AppendIsCrashSafe(AfterTries(EmptyStore(), tries[..|tries| - 1]), tries[|tries| - 1].checkpoint,
        tries[|tries| - 1].stop);
    }
  }

  /** Over every history of appends and crashes: one more append, stopped anywhere, leaves a store
      from which startup returns the checkpoint it returned before or the new one, and nothing else. */
  lemma {:induction false} ResumeIsOldOrNew(
    tries: seq<Try>, c: Sealed, stop: Stop, depth: nat, before: Option<Resume>, after: Option<Resume>)
    requires SoundResume(AfterTries(EmptyStore(), tries), depth, before)
    requires SoundResume(Append(AfterTries(EmptyStore(), tries), c, stop).files, depth, after)
    ensures before.Some? && after.Some?
    ensures after.value.checkpoint == before.value.checkpoint || after.value.checkpoint == Some(c)
    ensures Append(AfterTries(EmptyStore(), tries), c, stop).ok ==> after.value.checkpoint == Some(c)
  {
    TriesStayHealthy(tries);
    OldOrNew(AfterTries(EmptyStore(), tries), c, stop, depth, before, after);
  }

  lemma {:induction false} OldOrNew(
    f: Files, c: Sealed, stop: Stop, depth: nat, before: Option<Resume>, after: Option<Resume>)
    requires Healthy(f) && SoundResume(f, depth, before) && SoundResume(Append(f, c, stop).files, depth, after)
    ensures before.Some? && after.Some?
    ensures after.value.checkpoint == before.value.checkpoint || after.value.checkpoint == Some(c)
    ensures Append(f, c, stop).ok ==> after.value.checkpoint == Some(c)
  {
    var g := Append(f, c, stop).files;
    AppendIsCrashSafe(f, c, stop);
    HealthyResumes(f, depth, before);
    HealthyResumes(g, depth, after);
    if Newest(g).Some? { SameOrNewRecord(f, c, stop, Newest(g).value); }
  }

  lemma {:induction false} SameOrNewRecord(f: Files, c: Sealed, stop: Stop, id: nat)
    requires Healthy(f) && Load(Append(f, c, stop).files, id).Loaded?
    ensures var g := Append(f, c, stop).files;
      Load(g, id) == Load(f, id) || (id == c.id && Load(g, id) == Loaded.Loaded(c))
    ensures id == c.id && Append(f, c, stop).ok ==> Load(Append(f, c, stop).files, id) == Loaded.Loaded(c)
    ensures id == c.id && c.id in f.records ==> Append(f, c, stop).files == f
  {
    AppendReplacesNothing(f, c, stop, id);
  }

  lemma {:induction false} StoredWasOffered(tries: seq<Try>, id: nat)
    requires Load(AfterTries(EmptyStore(), tries), id).Loaded?
    ensures exists i :: 0 <= i < |tries| && tries[i].checkpoint == Load(AfterTries(EmptyStore(), tries), id).record
    decreases |tries|
  {
    if tries != [] {
      var most, last := tries[..|tries| - 1], tries[|tries| - 1];
      TriesStayHealthy(most);
      SameOrNewRecord(AfterTries(EmptyStore(), most), last.checkpoint, last.stop, id);
      if Load(AfterTries(EmptyStore(), most), id) == Load(AfterTries(EmptyStore(), tries), id) {
        StoredWasOffered(most, id);
        var i :| 0 <= i < |most| && most[i].checkpoint == Load(AfterTries(EmptyStore(), most), id).record;
        assert tries[i] == most[i];
      }
    }
  }

  /** Whatever is lost or damaged since, startup resumes nothing but a checkpoint that was offered to the
      store: records that no longer load are passed over, and none is made up. */
  lemma {:induction false} ResumedWasOffered(tries: seq<Try>, g: Files, depth: nat, out: Option<Resume>)
    requires forall id :: Load(g, id).Loaded? ==> Load(g, id) == Load(AfterTries(EmptyStore(), tries), id)
    requires SoundResume(g, depth, out) && out.Some? && out.value.checkpoint.Some?
    ensures exists i :: 0 <= i < |tries| && tries[i].checkpoint == out.value.checkpoint.value
  {
    var start :| IsStart(g, start) && SoundSearch(g, start, Overflowed(g), depth, Initial(g), out.value);
    StoredWasOffered(tries, g.index[start - out.value.tried].id);
  }

  /** After startup recovered an ancestor past an intact pointer, nothing that continues it can be stored. */
  lemma {:induction false} RecoveredAncestorIsStuck(f: Files, depth: nat, out: Option<Resume>, c: Sealed, stop: Stop)
    requires SoundResume(f, depth, out) && out.Some? && out.value.status == FromAncestor && f.pointer.Points?
    requires forall i, j :: 0 <= i < j < |f.index| ==> f.index[i].id != f.index[j].id
    requires out.value.checkpoint.Some? && c.parent == Some(out.value.checkpoint.value.id)
    ensures Append(f, c, stop) == Attempt(f, false)
  {
    var start :| IsStart(f, start) && SoundSearch(f, start, Overflowed(f), depth, Initial(f), out.value);
    var found := f.index[start - out.value.tried];
    assert found.id == out.value.checkpoint.value.id;
    assert Named(f, found.id);
    AncestorCannotContinue(f, c, found.id, stop);
  }
}

/** Crash safety of the store. */
module StoreTheorems {
  import opened Facts
  import opened StoreModel

  /** A record whose parent, if it names one, is stored with exactly the digest it was bound to. */
  predicate Bound(f: Files, r: Sealed) {
    r.parent.Some? ==> Load(f, r.parent.value).Loaded? && Some(Load(f, r.parent.value).record.digest) == r.parentDigest
  }

  predicate GoodRecords(f: Files) {
    forall id :: id in f.records ==> Load(f, id).Loaded? && Bound(f, Load(f, id).record)
  }

  predicate Filed(f: Files, e: Entry) {
    Load(f, e.id).Loaded? && Matches(Load(f, e.id).record, e)
  }

  /** Entries are consecutive, each names a stored record, and no record is named twice. */
  predicate GoodIndex(f: Files) {
    && f.readable
    && (forall i :: 0 <= i < |f.index| ==> Filed(f, f.index[i]) && f.index[i].sequence == f.index[0].sequence + i)
    && (forall i, j :: 0 <= i < j < |f.index| ==> f.index[i].id != f.index[j].id)
    && (f.index != [] ==> f.index[0].sequence > 0)
  }

  function LastEntry(f: Files): Entry
    requires f.index != []
  {
    f.index[|f.index| - 1]
  }

  predicate PointsAt(p: Pointer, e: Entry) {
    p.id == e.id && p.digest == e.digest && p.generation == e.generation && p.sequence == e.sequence
  }

  /** The latest pointer is on the newest entry, or on the one before it when an append stopped in between. */
  predicate GoodPointer(f: Files) {
    match f.pointer
    case NoPointer => true
    case BadPointer => false
    case Points(p) =>
      f.index != [] && (PointsAt(p, LastEntry(f)) || (|f.index| >= 2 && PointsAt(p, f.index[|f.index| - 2])))
  }

  predicate Healthy(f: Files) {
    GoodRecords(f) && GoodIndex(f) && GoodPointer(f)
  }

  /** The lineage has an entry the pointer never reached. */
  predicate IndexAhead(f: Files) {
    f.pointer.Points? && f.index != [] && !PointsAt(f.pointer.pointer, LastEntry(f))
  }

  /** The record startup believes in. */
  function Newest(f: Files): Option<nat> {
    match f.pointer
    case Points(p) => Some(p.id)
    case _ => if f.index == [] then None else Some(LastEntry(f).id)
  }

  // ----- Every append, stopped anywhere, keeps the store healthy -----

  lemma {:induction false} LoadGrows(f: Files, c: Sealed, id: nat)
    requires c.id !in f.records && ValidRecord(c)
    ensures Load(WithRecord(f, c), id) == if id == c.id then Loaded.Loaded(c) else Load(f, id)
  {
  }

  lemma {:induction false} LatestIsStored(f: Files)
    requires Healthy(f) && LatestOf(f).Latest?
    ensures var l := LatestOf(f);
      Load(f, l.id).Loaded? && Load(f, l.id).record.digest == l.digest
  {
    if f.pointer.Points? {
      var n := |f.index|;
      if PointsAt(f.pointer.pointer, f.index[n - 1]) {
        assert Filed(f, f.index[n - 1]);
      } else {
        assert Filed(f, f.index[n - 2]);
      }
    } else {
      assert Filed(f, f.index[|f.index| - 1]);
    }
  }

  lemma {:induction false} RecordStaysBound(f: Files, c: Sealed, id: nat)
    requires Healthy(f) && ValidRecord(c) && Admits(LatestOf(f), c) && c.id !in f.records
    requires (id in f.records || id == c.id)
    ensures var g := WithRecord(f, c); Load(g, id).Loaded? && Bound(g, Load(g, id).record)
  {
    LoadGrows(f, c, id);
    var r := Load(WithRecord(f, c), id).record;
    if id != c.id { assert Bound(f, Load(f, id).record); }
    if r.parent.Some? {
      LoadGrows(f, c, r.parent.value);
      if id == c.id { LatestIsStored(f); }
    }
  }

  lemma {:induction false} RecordKeepsHealthy(f: Files, c: Sealed)
    requires Healthy(f) && ValidRecord(c) && Admits(LatestOf(f), c) && c.id !in f.records
    ensures Healthy(WithRecord(f, c))
  {
    RecordKeepsRecords(f, c);
    RecordKeepsIndex(f, c);
  }

  lemma {:induction false} RecordKeepsRecords(f: Files, c: Sealed)
    requires Healthy(f) && ValidRecord(c) && Admits(LatestOf(f), c) && c.id !in f.records
    ensures GoodRecords(WithRecord(f, c))
  {
    var g := WithRecord(f, c);
    forall id | id in g.records
      ensures Load(g, id).Loaded? && Bound(g, Load(g, id).record)
    {
      RecordStaysBound(f, c, id);
    }
  }

  lemma {:induction false} RecordKeepsIndex(f: Files, c: Sealed)
    requires GoodIndex(f) && ValidRecord(c) && c.id !in f.records
    ensures GoodIndex(WithRecord(f, c))
  {
    var g := WithRecord(f, c);
    forall i | 0 <= i < |g.index| ensures Filed(g, g.index[i]) {
      assert Filed(f, f.index[i]);
      LoadGrows(f, c, f.index[i].id);
    }
  }

  /** Where the next entry goes: right after the newest one, unless the index is ahead of the pointer. */
  lemma {:induction false} NextSequence(f: Files)
    requires Healthy(f)
    ensures var next := SequenceOf(LatestOf(f)) + 1;
      && (Taken(f.index, next) <==> IndexAhead(f))
      && (!IndexAhead(f) && f.index != [] ==> next == LastEntry(f).sequence + 1)
      && (f.index == [] ==> next == 1)
  {
    var next, n := SequenceOf(LatestOf(f)) + 1, |f.index|;
    if IndexAhead(f) {
      assert f.index[n - 2].sequence + 1 == f.index[n - 1].sequence;
      assert f.index[n - 1].sequence == next;
    } else {
      forall i | 0 <= i < n
        ensures f.index[i].sequence != next
      {
        assert f.index[n - 1].sequence == f.index[0].sequence + n - 1;
      }
    }
  }

  /** Records do not depend on the index or the pointer. */
  lemma {:induction false} RecordsStayGood(f: Files, g: Files)
    requires GoodRecords(f) && g.records == f.records
    ensures GoodRecords(g) && forall id :: Load(g, id) == Load(f, id)
  {
    assert forall id :: Load(g, id) == Load(f, id);
    forall id | id in g.records ensures Load(g, id).Loaded? && Bound(g, Load(g, id).record) {
      assert Bound(f, Load(f, id).record);
    }
  }

  lemma {:induction false} EntryKeepsIndex(f: Files, c: Sealed)
    requires Healthy(f) && !IndexAhead(f) && Load(f, c.id) == Loaded.Loaded(c)
    requires forall i :: 0 <= i < |f.index| ==> f.index[i].id != c.id
    ensures var g := WithEntry(f, c, LatestOf(f));
      Healthy(g) && g.index == f.index + [EntryFor(c, SequenceOf(LatestOf(f)) + 1)]
  {
    NextSequence(f);
    var g := WithEntry(f, c, LatestOf(f));
    RecordsStayGood(f, g);
    forall i | 0 <= i < |g.index| ensures Filed(g, g.index[i]) && g.index[i].sequence == g.index[0].sequence + i {
      if i < |f.index| { assert Filed(f, f.index[i]); }
    }
  }

  lemma {:induction false} SuffixKeepsIndex(f: Files, g: Files, k: nat)
    requires GoodIndex(f) && k <= |f.index| && g == f.(index := f.index[k..])
    requires forall id :: Load(g, id) == Load(f, id)
    ensures GoodIndex(g)
  {
    forall i | 0 <= i < |g.index| ensures Filed(g, g.index[i]) && g.index[i].sequence == g.index[0].sequence + i {
      assert g.index[i] == f.index[k + i] && Filed(f, f.index[k + i]);
      assert g.index[0] == f.index[k];
    }
    forall i, j | 0 <= i < j < |g.index| ensures g.index[i].id != g.index[j].id {
      assert g.index[i] == f.index[k + i] && g.index[j] == f.index[k + j];
    }
  }

  lemma {:induction false} SuffixKeepsPointer(f: Files, g: Files, k: nat)
    requires GoodPointer(f) && k <= |f.index| && g == f.(index := f.index[k..]) && (k > 0 ==> |f.index| - k >= 2)
    ensures GoodPointer(g)
    ensures f.index != [] ==> g.index != [] && LastEntry(g) == LastEntry(f)
  {
    if |g.index| >= 2 { assert g.index[|g.index| - 2] == f.index[|f.index| - 2]; }
  }

  lemma {:induction false} EvictionKeepsHealthy(f: Files, dropped: nat)
    requires Healthy(f)
    ensures Healthy(Evicted(f, dropped))
    ensures f.index != [] ==> Evicted(f, dropped).index != [] && LastEntry(Evicted(f, dropped)) == LastEntry(f)
  {
    var g := Evicted(f, dropped);
    var k := if dropped < Excess(f.index) then dropped else Excess(f.index);
    RecordsStayGood(f, g);
    SuffixKeepsIndex(f, g, k);
    SuffixKeepsPointer(f, g, k);
  }

  lemma {:induction false} PointerKeepsHealthy(f: Files, p: Pointer)
    requires Healthy(f) && f.index != [] && PointsAt(p, LastEntry(f))
    ensures Healthy(f.(pointer := Points(p)))
  {
    var g := f.(pointer := Points(p));
    RecordsStayGood(f, g);
    forall i | 0 <= i < |g.index| ensures Filed(g, g.index[i]) { assert Filed(f, f.index[i]); }
  }

  /** Crash safety: wherever an append stops - before the record, between record and entry, in the
      middle of eviction, before the pointer, or not at all - the store stays healthy, and startup
      believes in the record it believed in before or in the new one. */
  lemma {:induction false} AppendIsCrashSafe(f: Files, c: Sealed, stop: Stop)
    requires Healthy(f)
    ensures var a := Append(f, c, stop);
      && Healthy(a.files)
      && (Newest(a.files) == Newest(f) || Newest(a.files) == Some(c.id))
      && (a.ok ==> Newest(a.files) == Some(c.id))
  {
    if ValidRecord(c) && Admits(LatestOf(f), c) && !stop.BeforeRecord? && c.id !in f.records {
      RecordKeepsHealthy(f, c);
      NextSequence(f);
      if !stop.BeforeIndex? && !IndexAhead(f) { PastRecordIsCrashSafe(f, c, stop); }
    }
  }

  lemma {:induction false} PastRecordIsCrashSafe(f: Files, c: Sealed, stop: Stop)
    requires Healthy(f) && Healthy(WithRecord(f, c)) && ValidRecord(c) && Admits(LatestOf(f), c) && c.id !in f.records
    requires !stop.BeforeRecord? && !stop.BeforeIndex? && !IndexAhead(f) && !Taken(f.index, SequenceOf(LatestOf(f)) + 1)
    ensures var a := Append(f, c, stop);
      && Healthy(a.files)
      && (Newest(a.files) == Newest(f) || Newest(a.files) == Some(c.id))
      && (a.ok ==> Newest(a.files) == Some(c.id))
  {
    EntryAfterRecord(f, c);
    EntryIsCrashSafe(WithRecord(f, c), WithEntry(WithRecord(f, c), c, LatestOf(f)), c, stop, LatestOf(f));
  }

  lemma {:induction false} EntryAfterRecord(f: Files, c: Sealed)
    requires Healthy(f) && Healthy(WithRecord(f, c)) && !IndexAhead(f) && ValidRecord(c) && c.id !in f.records
    ensures var f1 := WithRecord(f, c); var f2 := WithEntry(f1, c, LatestOf(f));
      Healthy(f2) && f2.index == f1.index + [EntryFor(c, SequenceOf(LatestOf(f)) + 1)]
  {
    var f1 := WithRecord(f, c);
    assert LatestOf(f1) == LatestOf(f) && !IndexAhead(f1);
    EntriesElsewhere(f, c.id);
    LoadGrows(f, c, c.id);
    EntryKeepsIndex(f1, c);
  }

  lemma {:induction false} EntriesElsewhere(f: Files, id: nat)
    requires GoodIndex(f) && id !in f.records
    ensures forall i :: 0 <= i < |f.index| ==> f.index[i].id != id
  {
    forall i | 0 <= i < |f.index| ensures f.index[i].id != id { assert Filed(f, f.index[i]); }
  }

  /** Dropping old entries leaves the newest one last and the pointer alone. */
  lemma {:induction false} EvictedStage(f2: Files, e: Entry, dropped: nat)
    requires Healthy(f2) && f2.index != [] && LastEntry(f2) == e
    ensures var f3 := Evicted(f2, dropped);
      Healthy(f3) && f3.index != [] && LastEntry(f3) == e && f3.pointer == f2.pointer
  {
    EvictionKeepsHealthy(f2, dropped);
  }

  lemma {:induction false} PointedStage(f3: Files, c: Sealed, latest: Latest, evicting: bool)
    requires Healthy(f3) && f3.index != [] && LastEntry(f3) == EntryFor(c, SequenceOf(latest) + 1)
    ensures Healthy(WithPointer(f3, c, latest, evicting)) && Newest(WithPointer(f3, c, latest, evicting)) == Some(c.id)
  {
    PointerKeepsHealthy(f3,
      Pointer(c.id, c.digest, c.generation, SequenceOf(latest) + 1, OverflowOf(latest) || evicting));
  }

  lemma {:induction false} EntryIsCrashSafe(f1: Files, f2: Files, c: Sealed, stop: Stop, latest: Latest)
    requires Healthy(f2) && f2.pointer == f1.pointer && f2.index != []
    requires LastEntry(f2) == EntryFor(c, SequenceOf(latest) + 1)
    ensures var a := Staged(f2, c, latest, stop);
      && Healthy(a.files)
      && (Newest(a.files) == Newest(f1) || Newest(a.files) == Some(c.id))
      && (a.ok ==> Newest(a.files) == Some(c.id))
  {
    match stop {
      case DuringEviction(dropped) => EvictionStop(f1, f2, c, latest, dropped);
      case BeforePointer => EvictionStop(f1, f2, c, latest, Excess(f2.index));
      case _ => EvictionStop(f1, f2, c, latest, Excess(f2.index));
    }
  }

  lemma {:induction false} EvictionStop(f1: Files, f2: Files, c: Sealed, latest: Latest, dropped: nat)
    requires Healthy(f2) && f2.index != [] && LastEntry(f2) == EntryFor(c, SequenceOf(latest) + 1)
    requires f2.pointer == f1.pointer
    ensures var f3 := Evicted(f2, dropped);
      && Healthy(f3) && (Newest(f3) == Newest(f1) || Newest(f3) == Some(c.id))
      && (forall evicting ::
        Healthy(WithPointer(f3, c, latest, evicting)) && Newest(WithPointer(f3, c, latest, evicting)) == Some(c.id))
  {
    var e, f3 := EntryFor(c, SequenceOf(latest) + 1), Evicted(f2, dropped);
    EvictedStage(f2, e, dropped);
    NewestAfterEntry(f1, f3, e);
    forall evicting
      ensures Healthy(WithPointer(f3, c, latest, evicting)) &&
        Newest(WithPointer(f3, c, latest, evicting)) == Some(c.id) {
      PointedStage(f3, c, latest, evicting);
    }
  }

  lemma {:induction false} NewestAfterEntry(f1: Files, f3: Files, e: Entry)
    requires f3.pointer == f1.pointer && GoodPointer(f3) && f3.index != [] && LastEntry(f3) == e
    ensures Newest(f3) == Newest(f1) || Newest(f3) == Some(e.id)
  {
  }

  /** Nothing stored is ever replaced, and what an append stores is the record it was given. */
  lemma {:induction false} AppendReplacesNothing(f: Files, c: Sealed, stop: Stop, id: nat)
    ensures var g := Append(f, c, stop).files;
      && (id in f.records ==> id in g.records && g.records[id] == f.records[id])
      && (id in g.records && id !in f.records ==> id == c.id && g.records[id] == Whole(c) && ValidRecord(c))
  {
  }

  /** An append that is not interrupted succeeds exactly when the record is valid, continues or breaks
      what the store believes in, has an unused name, and the index is not ahead of the pointer. */
  lemma {:induction false} AppendSucceedsExactly(f: Files, c: Sealed)
    requires Healthy(f)
    ensures Append(f, c, Never).ok <==>
      ValidRecord(c) && Admits(LatestOf(f), c) && c.id !in f.records && !IndexAhead(f)
  {
    NextSequence(f);
  }

  /** An append that stops between entry and pointer leaves the index ahead, and from then on every
      append fails - but what startup believes in never changes again, and stays provable. */
  lemma {:induction false} IndexAheadStopsProgress(f: Files, c: Sealed, stop: Stop)
    requires Healthy(f) && IndexAhead(f)
    ensures var a := Append(f, c, stop);
      !a.ok && Healthy(a.files) && IndexAhead(a.files) && Newest(a.files) == Newest(f)
  {
    AppendIsCrashSafe(f, c, stop);
    NextSequence(f);
  }

  lemma {:induction false} StoppedBeforePointerIsAhead(f: Files, c: Sealed)
    requires Healthy(f) && f.pointer.Points? && Append(f, c, Never).ok
    ensures IndexAhead(Append(f, c, BeforePointer).files)
  {
    NextSequence(f);
    var f2 := WithEntry(WithRecord(f, c), c, LatestOf(f));
    assert f2.index == f.index + [EntryFor(c, SequenceOf(LatestOf(f)) + 1)];
    var f3 := Evicted(f2, Excess(f2.index));
    assert LastEntry(f3) == EntryFor(c, SequenceOf(LatestOf(f)) + 1);
  }

  /** A record that descends from an ancestor of the pointer is refused: after startup recovered an
      ancestor past an intact pointer, nothing it seals can be stored. */
  lemma {:induction false} AncestorCannotContinue(f: Files, c: Sealed, ancestor: nat, stop: Stop)
    requires f.pointer.Points? && c.parent == Some(ancestor) && ancestor != f.pointer.pointer.id
    ensures Append(f, c, stop) == Attempt(f, false)
  {
  }
}

/** The checkpoint store as the files it leaves behind: records, an index of lineage entries, and a
    pointer.  A write can stop at any boundary; what is visible afterwards is what a crash leaves. */
module StoreModel {
  import opened Facts

  const MAX_INDEX_ENTRIES: nat := 64

  /** A checkpoint as stored.  Ids and digests are abstract; an absent parent has an absent digest. */
  datatype Sealed = Sealed(
    id: nat, parent: Option<nat>, parentDigest: Option<nat>, breaks: Option<nat>,
    generation: nat, consumedTo: nat, digest: nat)

  /** A file that decodes and whose address matches its content, or one that does not. */
  datatype Stored = Whole(record: Sealed) | Damaged

  datatype Entry = Entry(sequence: nat, id: nat, parent: Option<nat>, digest: nat, generation: nat, consumedTo: nat)

  datatype Pointer = Pointer(id: nat, digest: nat, generation: nat, sequence: nat, overflow: bool)
  datatype PointerFile = NoPointer | BadPointer | Points(pointer: Pointer)

  /** `index` is the directory in sequence order; an entry that cannot be read makes all of it unreadable. */
  datatype Files = Files(records: map<nat, Stored>, index: seq<Entry>, readable: bool, pointer: PointerFile)

  predicate ValidRecord(r: Sealed) {
    && r.generation > 0
    && (r.parent.None? ==> r.parentDigest.None? && r.breaks != Some(r.id))
    && (r.parent.Some? ==> r.parentDigest.Some? && r.breaks.None? && r.parent != Some(r.id))
  }

  datatype Loaded = Missing | Invalid | Loaded(record: Sealed)

  /** Loading by identity: the record must be whole, valid, and filed under its own name. */
  function Load(f: Files, id: nat): Loaded {
    if id !in f.records then Missing
    else match f.records[id]
      case Damaged => Invalid
      case Whole(r) => if ValidRecord(r) && r.id == id then Loaded.Loaded(r) else Invalid
  }

  // ----- What an append builds on -----

  datatype Latest = Unreadable | Nothing | Latest(id: nat, digest: nat, generation: nat, sequence: nat, overflow: bool)

  /** The pointer when it can be read, otherwise the newest lineage entry. */
  function LatestOf(f: Files): Latest {
    if f.pointer.Points? then
      var p := f.pointer.pointer;
      Latest.Latest(p.id, p.digest, p.generation, p.sequence, p.overflow)
    else if !f.readable then Unreadable
    else if f.index == [] then Nothing
    else
      var e := f.index[|f.index| - 1];
      Latest.Latest(e.id, e.digest, e.generation, e.sequence, f.index[0].sequence > 1)
  }

  /** A lineage is continued from its latest record, or abandoned by a record that names it. */
  predicate Admits(latest: Latest, c: Sealed) {
    match latest
    case Unreadable => false
    case Nothing => c.parent.None? && c.breaks.None?
    case Latest(id, digest, generation, _, _) =>
      if c.parent.None? then c.breaks == Some(id)
      else c.breaks.None? && c.parent == Some(id) && c.parentDigest == Some(digest) && c.generation >= generation
  }

  function SequenceOf(latest: Latest): nat {
    if latest.Latest? then latest.sequence else 0
  }

  function OverflowOf(latest: Latest): bool {
    latest.Latest? && latest.overflow
  }

  predicate Taken(index: seq<Entry>, sequence: nat) {
    exists i :: 0 <= i < |index| && index[i].sequence == sequence
  }

  function EntryFor(c: Sealed, sequence: nat): Entry {
    Entry(sequence, c.id, c.parent, c.digest, c.generation, c.consumedTo)
  }

  function Excess(index: seq<Entry>): nat {
    if |index| > MAX_INDEX_ENTRIES then |index| - MAX_INDEX_ENTRIES else 0
  }

  // ----- Append, stopped anywhere -----

  datatype Stop = BeforeRecord | BeforeIndex | DuringEviction(dropped: nat) | BeforePointer | Never

  datatype Attempt = Attempt(files: Files, ok: bool)

  function WithRecord(f: Files, c: Sealed): Files {
    f.(records := f.records[c.id := Whole(c)])
  }

  /** Entries are read back in sequence order. */
  function InsertEntry(index: seq<Entry>, e: Entry): seq<Entry> {
    if index == [] || index[|index| - 1].sequence <= e.sequence then index + [e]
    else InsertEntry(index[..|index| - 1], e) + [index[|index| - 1]]
  }

  function WithEntry(f: Files, c: Sealed, latest: Latest): Files {
    f.(index := InsertEntry(f.index, EntryFor(c, SequenceOf(latest) + 1)))
  }

  function Evicted(f: Files, dropped: nat): Files {
    f.(index := f.index[if dropped < Excess(f.index) then dropped else Excess(f.index)..])
  }

  function WithPointer(f: Files, c: Sealed, latest: Latest, evicting: bool): Files {
    f.(pointer := Points(Pointer(c.id, c.digest, c.generation, SequenceOf(latest) + 1, OverflowOf(latest) || evicting)))
  }

  /** Once the entry is visible: eviction, then the pointer. */
  function Staged(f2: Files, c: Sealed, latest: Latest, stop: Stop): Attempt {
    match stop
    case DuringEviction(dropped) => Attempt(Evicted(f2, dropped), false)
    case BeforePointer => Attempt(Evicted(f2, Excess(f2.index)), false)
    case _ => Attempt(WithPointer(Evicted(f2, Excess(f2.index)), c, latest, Excess(f2.index) > 0), true)
  }

  /** Record first, then lineage entry, then pointer.  Neither of the first two replaces a file. */
  function Append(f: Files, c: Sealed, stop: Stop): Attempt {
    var latest := LatestOf(f);
    if !ValidRecord(c) || !Admits(latest, c) || stop.BeforeRecord? || c.id in f.records then Attempt(f, false)
    else
      var f1 := WithRecord(f, c);
      if stop.BeforeIndex? || Taken(f.index, SequenceOf(latest) + 1) then Attempt(f1, false)
      else
        var f2 := WithEntry(f1, c, latest);
        if !f.readable then Attempt(f2, false) else Staged(f2, c, latest, stop)
  }

  // ----- Proof of a candidate -----

  predicate Matches(r: Sealed, e: Entry) {
    r.digest == e.digest && r.parent == e.parent && r.generation == e.generation && r.consumedTo == e.consumedTo
  }

  /** Ancestry within `steps` links by digest, up to the eviction horizon when lineage overflowed. */
  predicate AncestryLinks(f: Files, r: Sealed, overflow: bool, steps: nat)
    decreases steps
  {
    r.parent.Some? && steps > 0 ==>
      match Load(f, r.parent.value)
      case Missing => overflow
      case Invalid => false
      case Loaded(p) => Some(p.digest) == r.parentDigest && AncestryLinks(f, p, overflow, steps - 1)
  }

  predicate Proves(f: Files, e: Entry, overflow: bool, depth: nat) {
    match Load(f, e.id)
    case Loaded(r) => Matches(r, e) && AncestryLinks(f, r, overflow, depth)
    case _ => false
  }
}

/** The store as the object that writes: one file at a time, stopping wherever it is told to. */
module StoreObject {
  import opened Facts
  import opened StoreModel

  class CheckpointStore {
    var records: map<nat, Stored>
    var index: seq<Entry>
    var readable: bool
    var pointer: PointerFile

    function View(): Files
      reads this
    {
      Files(records, index, readable, pointer)
    }

    constructor ()
      ensures View() == Files(map[], [], true, NoPointer)
    {
      records, index, readable, pointer := map[], [], true, NoPointer;
    }

    /** A record is never replaced. */
    method WriteRecord(c: Sealed) returns (ok: bool)
      modifies this`records
      ensures ok <==> c.id !in old(records)
      ensures records == if ok then old(records)[c.id := Whole(c)] else old(records)
    {
      ok := c.id !in records;
      if ok {
        records := records[c.id := Whole(c)];
      }
    }

    /** Nor is a lineage entry. */
    method WriteEntry(e: Entry) returns (ok: bool)
      modifies this`index
      ensures ok <==> !Taken(old(index), e.sequence)
      ensures index == if ok then InsertEntry(old(index), e) else old(index)
    {
      for i := 0 to |index|
        invariant !Taken(index[..i], e.sequence)
      {
        if index[i].sequence == e.sequence {
          return false;
        }
      }
      assert index[..|index|] == index;
      index := InsertEntry(index, e);
      return true;
    }

    /** Drops the oldest entries beyond the bound, one by one. */
    method Evict(most: nat) returns (dropped: nat)
      modifies this`index
      ensures dropped == if most < Excess(old(index)) then most else Excess(old(index))
      ensures index == old(index)[dropped..]
    {
      dropped := 0;
      while dropped < most && |index| > MAX_INDEX_ENTRIES
        invariant 0 <= dropped <= most && dropped <= Excess(old(index))
        invariant index == old(index)[dropped..]
        decreases |index|
      {
        index := index[1..];
        dropped := dropped + 1;
      }
    }

    method Append(c: Sealed, stop: Stop) returns (ok: bool)
      modifies this
      ensures Attempt(View(), ok) == StoreModel.Append(old(View()), c, stop)
    {
      var latest := LatestOf(View());
      if !ValidRecord(c) || !Admits(latest, c) || stop.BeforeRecord? {
        return false;
      }
      var recorded := WriteRecord(c);
      if !recorded || stop.BeforeIndex? {
        return false;
      }
      var sequence := SequenceOf(latest) + 1;
      var entered := WriteEntry(EntryFor(c, sequence));
      if !entered || !readable {
        return false;
      }
      if stop.DuringEviction? {
        var _ := Evict(stop.dropped);
        return false;
      }
      var dropped := Evict(|index|);
      if stop.BeforePointer? {
        return false;
      }
      pointer := Points(Pointer(c.id, c.digest, c.generation, sequence, OverflowOf(latest) || dropped > 0));
      return true;
    }
  }
}

/** Reading a journal: all of it, or only its end. */
module JournalModel {
  import opened Facts
  import opened Acceptance
  import opened RuntimeModel
  import opened ReplayModel

  /** One numbered place in the spool.  It may have been evicted, fail to decode, or belong to another
      class of event. */
  datatype Slot = Gone | Corrupt | Foreign | Ours(record: Record)

  /** This journal's records in the order they were appended. */
  function Held(slots: seq<Slot>): seq<Record> {
    if slots == [] then []
    else
      var s := slots[|slots| - 1];
      Held(slots[..|slots| - 1]) + if s.Ours? then [s.record] else []
  }

  /** Two different events claiming one fold position. */
  predicate Clashes(rs: seq<Record>) {
    exists i, j :: 0 <= i < j < |rs| && rs[i].fold == rs[j].fold && rs[i].fact.digest != rs[j].fact.digest
  }

  /** The simple read: everything, sorted by fold position; an unreadable or clashing record is an error. */
  function FullRead(slots: seq<Slot>): Option<seq<Record>> {
    if Corrupt in slots || Clashes(Held(slots)) then None else Some(Merge(ByFold, Held(slots)))
  }

  /** The fast read: backwards from the newest place, stopping at the first record not after the watermark. */
  function Tail(slots: seq<Slot>, watermark: nat): Option<seq<Record>> {
    if slots == [] then Some([])
    else
      var before := slots[..|slots| - 1];
      match slots[|slots| - 1]
      case Gone => Tail(before, watermark)
      case Foreign => Tail(before, watermark)
      case Corrupt => None
      case Ours(r) =>
        if r.fold <= watermark then Some([])
        else match Tail(before, watermark)
          case None => None
          case Some(rs) => Some(rs + [r])
  }

  function NewestHeld(slots: seq<Slot>): Option<Option<Record>> {
    if slots == [] then Some(None)
    else match slots[|slots| - 1]
      case Gone => NewestHeld(slots[..|slots| - 1])
      case Foreign => NewestHeld(slots[..|slots| - 1])
      case Corrupt => None
      case Ours(r) => Some(Some(r))
  }

  // ----- The loops -----

  /** The slice reversal at the end of the backwards scan. */
  method Reverse(rs: seq<Record>) returns (out: seq<Record>)
    ensures |out| == |rs| && forall i :: 0 <= i < |rs| ==> out[i] == rs[|rs| - 1 - i]
  {
    out := rs;
    var left, right := 0, |rs| - 1;
    while left < right
      invariant 0 <= left <= right + 1 <= |rs| == |out| && left + right == |rs| - 1
      invariant forall i :: 0 <= i < left ==> out[i] == rs[|rs| - 1 - i]
      invariant forall i :: left <= i <= right ==> out[i] == rs[i]
      invariant forall i :: right < i < |rs| ==> out[i] == rs[|rs| - 1 - i]
    {
      out := out[left := out[right]][right := out[left]];
      left, right := left + 1, right - 1;
    }
  }

  function Reversed(rs: seq<Record>): (out: seq<Record>)
    ensures |out| == |rs| && forall i :: 0 <= i < |rs| ==> out[i] == rs[|rs| - 1 - i]
  {
    if rs == [] then [] else [rs[|rs| - 1]] + Reversed(rs[..|rs| - 1])
  }

  method TailAfter(slots: seq<Slot>, watermark: nat) returns (r: Option<seq<Record>>)
    ensures r == Tail(slots, watermark)
  {
    var out: seq<Record> := [];
    var n := |slots|;
    assert slots[..n] == slots;
    assert forall rs: seq<Record> :: rs + [] == rs;
    while n > 0
      invariant 0 <= n <= |slots|
      invariant Tail(slots, watermark) ==
        match Tail(slots[..n], watermark) case None => None case Some(rs) => Some(rs + Reversed(out))
    {
      assert slots[..n][..n - 1] == slots[..n - 1];
      var slot := slots[n - 1];
      if slot.Corrupt? {
        return None;
      }
      if slot.Ours? {
        if slot.record.fold <= watermark {
          break;
        }
        assert Reversed(out + [slot.record]) == [slot.record] + Reversed(out) by {
          assert (out + [slot.record])[..|out|] == out;
        }
        ghost var earlier := Tail(slots[..n - 1], watermark);
        assert earlier.Some? ==>
          earlier.value + [slot.record] + Reversed(out) == earlier.value + Reversed(out + [slot.record]);
        out := out + [slot.record];
      }
      n := n - 1;
    }
    var result := Reverse(out);
    assert result == Reversed(out);
    assert [] + Reversed(out) == Reversed(out);
    return Some(result);
  }

  /** The tail, and whether it continues the watermark without a hole. */
  method RecordsAfter(slots: seq<Slot>, watermark: nat) returns (r: Option<seq<Record>>, continuous: bool)
    ensures r == Tail(slots, watermark)
    ensures r.Some? ==> (continuous <==> Continuous(r.value, watermark))
  {
    r := TailAfter(slots, watermark);
    continuous := false;
    if r.None? {
      return;
    }
    var expected := watermark + 1;
    for i := 0 to |r.value|
      invariant expected == watermark + 1 + i
      invariant forall j :: 0 <= j < i ==> r.value[j].fold == watermark + j + 1
    {
      if r.value[i].fold != expected {
        return;
      }
      expected := expected + 1;
    }
    continuous := true;
  }

  lemma {:induction false} HeldPrefix(slots: seq<Slot>, n: nat)
    requires n <= |slots|
    ensures |Held(slots[..n])| <= |Held(slots)| && Held(slots[..n]) == Held(slots)[..|Held(slots[..n])|]
    decreases |slots| - n
  {
    if n == |slots| {
      assert slots[..n] == slots;
    } else {
      assert slots[..n + 1][..n] == slots[..n];
      HeldPrefix(slots, n + 1);
    }
  }

  /** The simple read, one entry at a time, remembering which digest took each fold position. */
  method Records(slots: seq<Slot>) returns (r: Option<seq<Record>>)
    ensures r == FullRead(slots)
  {
    var records: seq<Record> := [];
    var seen: map<nat, nat> := map[];
    ghost var place: map<nat, nat> := map[];
    for i := 0 to |slots|
      invariant records == Held(slots[..i]) && Corrupt !in slots[..i]
      invariant forall k :: 0 <= k < |records| ==>
        records[k].fold in seen && seen[records[k].fold] == records[k].fact.digest
      invariant place.Keys == seen.Keys && forall fold :: fold in place ==>
        place[fold] < |records| && records[place[fold]].fold == fold
    {
      assert slots[..i + 1] == slots[..i] + [slots[i]];
      match slots[i] {
        case Gone =>
        case Foreign =>
        case Corrupt => return None;
        case Ours(record) =>
          if record.fold in seen && seen[record.fold] != record.fact.digest {
            ghost var k := place[record.fold];
            HeldPrefix(slots, i + 1);
            assert Held(slots[..i + 1]) == records + [record];
            assert Held(slots)[k] == records[k] && Held(slots)[|records|] == record;
            return None;
          }
          seen := seen[record.fold := record.fact.digest];
          place := place[record.fold := |records|];
          records := records + [record];
      }
    }
    assert slots[..|slots|] == slots;
    return Some(Merge(ByFold, records));
  }

  method Newest(slots: seq<Slot>) returns (r: Option<Option<Record>>)
    ensures r == NewestHeld(slots)
  {
    var n := |slots|;
    assert slots[..n] == slots;
    while n > 0
      invariant 0 <= n <= |slots| && NewestHeld(slots) == NewestHeld(slots[..n])
    {
      assert slots[..n][..n - 1] == slots[..n - 1];
      match slots[n - 1] {
        case Corrupt => return None;
        case Ours(record) => return Some(Some(record));
        case Gone =>
        case Foreign =>
      }
      n := n - 1;
    }
    return Some(None);
  }

  // ----- When the fast read is the simple one -----

  /** No record at or below the watermark was appended after one above it. */
  predicate EndsAbove(rs: seq<Record>, watermark: nat) {
    forall i, j :: 0 <= i < j < |rs| && rs[i].fold > watermark ==> rs[j].fold > watermark
  }

  lemma {:induction false} EndsAbovePrefix(rs: seq<Record>, r: Record, watermark: nat)
    requires EndsAbove(rs + [r], watermark)
    ensures EndsAbove(rs, watermark) && (r.fold <= watermark ==> Beyond(rs, watermark) == [])
  {
    var all := rs + [r];
    assert all[|rs|] == r && forall i :: 0 <= i < |rs| ==> all[i] == rs[i];
    if r.fold <= watermark {
      forall i | 0 <= i < |rs| ensures rs[i].fold <= watermark { assert all[i] == rs[i]; }
      NothingBeyond(rs, watermark);
    }
  }

  lemma {:induction false} NothingBeyond(rs: seq<Record>, watermark: nat)
    requires forall i :: 0 <= i < |rs| ==> rs[i].fold <= watermark
    ensures Beyond(rs, watermark) == []
  {
    if rs != [] { NothingBeyond(rs[..|rs| - 1], watermark); }
  }

  lemma {:induction false} BeyondMember(rs: seq<Record>, watermark: nat, i: nat)
    requires i < |rs| && rs[i].fold > watermark
    ensures Beyond(rs, watermark) != []
  {
    if i < |rs| - 1 { BeyondMember(rs[..|rs| - 1], watermark, i); }
  }

  /** On a journal that decodes, the backwards scan returns exactly the records above the watermark,
      in the order they were appended, if and only if those records are the end of the journal. */
  lemma {:induction false} TailExactly(slots: seq<Slot>, watermark: nat)
    requires Corrupt !in slots
    ensures Tail(slots, watermark).Some?
    ensures Tail(slots, watermark) == Some(Beyond(Held(slots), watermark)) <==> EndsAbove(Held(slots), watermark)
  {
    if slots != [] {
      var before, s := slots[..|slots| - 1], slots[|slots| - 1];
      TailExactly(before, watermark);
      if s.Ours? {
        TailStep(Held(before), s.record, watermark, Tail(before, watermark).value);
      } else {
        assert Held(slots) == Held(before);
      }
    }
  }

  lemma {:induction false} TailStep(rs: seq<Record>, r: Record, watermark: nat, tail: seq<Record>)
    requires tail == Beyond(rs, watermark) <==> EndsAbove(rs, watermark)
    ensures var out := if r.fold <= watermark then [] else tail + [r];
      out == Beyond(rs + [r], watermark) <==> EndsAbove(rs + [r], watermark)
  {
    BeyondSnoc(rs, r, watermark);
    var all := rs + [r];
    if EndsAbove(all, watermark) { EndsAbovePrefix(rs, r, watermark); }
    if r.fold <= watermark {
      if Beyond(all, watermark) == [] {
        forall i | 0 <= i < |all|
          ensures all[i].fold <= watermark
        {
          if all[i].fold > watermark { BeyondMember(all, watermark, i); }
        }
      }
    } else if tail + [r] == Beyond(all, watermark) {
      assert tail == (tail + [r])[..|tail|] == (Beyond(rs, watermark) + [r])[..|tail|] == Beyond(rs, watermark);
      forall i, j | 0 <= i < j < |all| && all[i].fold > watermark ensures all[j].fold > watermark {
        if j < |rs| { assert rs[i].fold > watermark ==> rs[j].fold > watermark; }
      }
    }
  }

  predicate Rising(rs: seq<Record>) {
    StrictlyBy(ByFold, rs)
  }

  lemma {:induction false} RisingAt(rs: seq<Record>, i: nat, j: nat)
    requires Rising(rs) && i < j < |rs|
    ensures rs[i].fold < rs[j].fold
    decreases |rs|
  {
    if j == |rs| - 1 { LastIsStrictlyGreatest(ByFold, rs, i); } else { RisingAt(rs[..|rs| - 1], i, j); }
  }

  lemma {:induction false} RisingIsSorted(rs: seq<Record>)
    requires Rising(rs)
    ensures SortedBy(ByFold, rs)
  {
    if |rs| >= 2 { RisingIsSorted(rs[..|rs| - 1]); }
  }

  /** While fold positions rise with places, the fast read keeps exactly what the simple read would
      keep above the watermark, in the same order. */
  lemma {:induction false} FastReadIsSimpleRead(slots: seq<Slot>, watermark: nat)
    requires FullRead(slots).Some? && Rising(Held(slots))
    ensures Tail(slots, watermark) == Some(Beyond(FullRead(slots).value, watermark))
  {
    var rs := Held(slots);
    MergeSorts(ByFold, rs);
    OneOrder(ByFold, rs, Merge(ByFold, rs));
    forall i, j | 0 <= i < j < |rs| && rs[i].fold > watermark ensures rs[j].fold > watermark { RisingAt(rs, i, j); }
    TailExactly(slots, watermark);
  }

  /** A rising journal never clashes, so the simple read fails only on a record that does not decode. */
  lemma {:induction false} RisingReads(slots: seq<Slot>)
    requires Rising(Held(slots))
    ensures FullRead(slots).Some? <==> Corrupt !in slots
  {
    var rs := Held(slots);
    if Clashes(rs) {
      var i, j :| 0 <= i < j < |rs| && rs[i].fold == rs[j].fold && rs[i].fact.digest != rs[j].fact.digest;
      RisingAt(rs, i, j);
    }
  }
}

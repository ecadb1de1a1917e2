/** One batch after which an acknowledgement leaves out sequences it has room to name. */
module SilentRun {
  import opened Facts
  import opened CloudGaps
  import opened MissingRanges
  import opened Acknowledgement

  const REQUEST: BatchId := BatchId(1, 1)

  /** One session jumps to 101; another sends 1, 3, 5 up to 15 and then 201. */
  function Sent(e: nat): Item {
    if e == 0 then Item(e, 1, 101, 0) else if e <= 8 then Item(e, 2, 2 * e - 1, 0) else Item(e, 2, 201, 0)
  }

  function AllSent(n: nat): seq<Item> {
    seq(n, e requires 0 <= e < n => Sent(e))
  }

  function Evens(n: nat): seq<Row> {
    seq(n, i requires 0 <= i < n => Row(2 * i + 2, 2 * i + 2, false))
  }

  /** The second session after its first `n` events. */
  function Second(n: nat): Session {
    if n == 0 then Session(0, [])
    else if n <= 8 then Session(2 * n - 1, Evens(n - 1))
    else Session(201, Evens(7) + [Row(16, 200, false)])
  }

  ghost predicate Reached(db: Db, n: nat) {
    && (forall e: nat :: e in db.events <==> e < n) && (forall e: nat :: e in db.events ==> db.events[e] == Sent(e))
    && SessionOf(db, 1) == (if n == 0 then Session(0, []) else Session(101, [Row(1, 100, false)]))
    && SessionOf(db, 2) == (if n == 0 then Second(0) else Second(n - 1))
    && db.sessions.Keys <= {1, 2}
  }

  lemma {:induction false} NonePicked(rows: seq<Row>, q: nat)
    requires forall i :: 0 <= i < |rows| ==> !Contains(rows[i], q)
    ensures Picked(rows, q) == []
  {
    if rows != [] { NonePicked(rows[..|rows| - 1], q); }
  }

  /** An arrival past everything seen fills nothing, and opens a hole if it skipped any. */
  lemma {:induction false} AdvancePast(s: Session, q: nat)
    requires q > s.highest && forall i :: 0 <= i < |s.rows| ==> s.rows[i].first <= s.rows[i].last <= s.highest
    ensures Advance(s, q) ==
      Some(Session(q, s.rows + if q > s.highest + 1 then [Row(s.highest + 1, q - 1, false)] else []))
  {
    NonePicked(Opened(s, q), q);
    assert s.rows + [] == s.rows;
  }

  lemma {:induction false} SentIsNew(db: Db, n: nat)
    requires n <= 9 && Reached(db, n)
    ensures InsertEvent(db, Sent(n)) == CloudGaps.Stored
  {
    forall e | e in db.events
      ensures db.events[e].session != Sent(n).session || db.events[e].sequence != Sent(n).sequence {
      assert db.events[e] == Sent(e);
    }
  }

  /** `t` is `s` with an arrival past everything seen. */
  predicate Steps(s: Session, q: nat, t: Session) {
    && s.highest < q && t == Session(q, s.rows + if q > s.highest + 1 then [Row(s.highest + 1, q - 1, false)] else [])
    && forall i :: 0 <= i < |s.rows| ==> s.rows[i].first <= s.rows[i].last <= s.highest
  }

  lemma {:induction false} SecondSteps(n: nat)
    requires 1 <= n <= 9
    ensures Steps(Second(n - 1), Sent(n).sequence, Second(n))
  {
    if n == 1 {
      assert Evens(0) == [] + [];
    } else if n <= 8 {
      assert Evens(n - 1) == Evens(n - 2) + [Row(2 * n - 2, 2 * n - 2, false)];
    }
  }

  lemma {:induction false} SendStored(db: Db, n: nat, s: Session, t: Session)
    requires n <= 9 && Reached(db, n) && s == SessionOf(db, Sent(n).session) && Steps(s, Sent(n).sequence, t)
    ensures ApplyItem(db, Sent(n)) ==
      Some(db.(events := db.events[n := Sent(n)], sessions := db.sessions[Sent(n).session := t]))
  {
    SentIsNew(db, n);
    AdvancePast(s, Sent(n).sequence);
  }

  lemma {:induction false} SendNext(db: Db, n: nat)
    requires n <= 9 && Reached(db, n)
    ensures ApplyItem(db, Sent(n)).Some? && Reached(ApplyItem(db, Sent(n)).value, n + 1)
  {
    var s := SessionOf(db, Sent(n).session);
    var t := if n == 0 then Session(101, [Row(1, 100, false)]) else Second(n);
    if n == 0 {
      assert [] + [Row(1, 100, false)] == [Row(1, 100, false)];
    } else {
      SecondSteps(n);
    }
    SendStored(db, n, s, t);
    StoredReaches(db, n, t);
  }

  lemma {:induction false} StoredReaches(db: Db, n: nat, s: Session)
    requires n <= 9 && Reached(db, n) && s == if n == 0 then Session(101, [Row(1, 100, false)]) else Second(n)
    ensures Reached(db.(events := db.events[n := Sent(n)], sessions := db.sessions[Sent(n).session := s]), n + 1)
  {
  }

  lemma {:induction false} SendAll(db: Db, n: nat)
    requires n <= 10 && Reached(db, 0)
    ensures ApplyItems(db, AllSent(n)).Some? && Reached(ApplyItems(db, AllSent(n)).value, n)
  {
    if n > 0 {
      SendAll(db, n - 1);
      assert AllSent(n)[..n - 1] == AllSent(n - 1);
      SendNext(ApplyItems(db, AllSent(n - 1)).value, n - 1);
    } else {
      assert AllSent(n) == [];
    }
  }

  lemma {:induction false} RowListed(db: Db, rows: seq<Range>, i: nat)
    requires Reached(db, 10) && |rows| == 9 && i < 9 && rows[i] == NinthOf(i)
    ensures Gap(db, rows[i])
  {
    if i == 0 { assert Unresolved(db, 1, 0, rows[i]); } else { assert Unresolved(db, 2, i - 1, rows[i]); }
  }

  lemma {:induction false} NineListed(db: Db, rows: seq<Range>)
    requires Reached(db, 10) && |rows| == 9 && forall i :: 0 <= i < 9 ==> rows[i] == NinthOf(i)
    ensures Lists(rows, db)
  {
    forall i | 0 <= i < |rows| ensures Gap(db, rows[i]) { RowListed(db, rows, i); }
    forall id: nat, k: nat, r | Unresolved(db, id, k, r) ensures r in rows {
      assert id == 1 || id == 2;
      if id == 1 { assert r == rows[0]; } else { assert r == rows[k + 1]; }
    }
  }

  lemma {:induction false} StillLacking(db: Db)
    requires Reached(db, 10)
    ensures 200 in Lacking(db, 2)
  {
    forall e | e in db.events ensures db.events[e].sequence != 200 { assert db.events[e] == Sent(e); }
  }

  lemma {:induction false} OneBatch(id: BatchId, items: seq<Item>)
    requires ApplyItems(EmptyDb().(requests := {id}), items).Some?
    ensures Some(AfterBatches(EmptyDb(), [Batch(id, items)])) == ApplyItems(EmptyDb().(requests := {id}), items)
  {
    assert [Batch(id, items)][..0] == [];
    assert EmptyDb().requests + {id} == {id};
  }

  /** The batch is accepted, 200 is missing, and the one range of the report stops at 100. */
  lemma {:induction false} SilentNinth(n: nat, db: Db, rows: seq<Range>)
    requires n == 10 && db == AfterBatches(EmptyDb(), [Batch(REQUEST, AllSent(n))]) && rows == NineRows()
    ensures Lists(rows, db) && Missing(db, 200) && Reported(rows) == [Range(1, 100)]
  {
    SendAll(EmptyDb().(requests := {REQUEST}), n);
    OneBatch(REQUEST, AllSent(n));
    NineListed(db, rows);
    NinthRowIsSilent();
    StillLacking(db);
  }
}

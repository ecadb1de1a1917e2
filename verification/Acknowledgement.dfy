/** What an acknowledgement says of a node: its gap rows over all sessions, after any batches. */
module Acknowledgement {
  import opened Facts
  import opened CloudGaps
  import opened CloudGapTheorems
  import opened MissingRanges

  /** Some session of the node lacks the sequence. */
  ghost predicate Missing(db: Db, q: int) {
    exists id: nat :: q in Lacking(db, id)
  }

  function Lacking(db: Db, id: nat): set<int> {
    set q: int | 1 <= q <= SessionOf(db, id).highest && q !in Received(db, id)
  }

  predicate Unresolved(db: Db, id: nat, k: nat, r: Range) {
    k < |SessionOf(db, id).rows| && !SessionOf(db, id).rows[k].resolved &&
    r == Range(SessionOf(db, id).rows[k].first, SessionOf(db, id).rows[k].last)
  }

  /** Some session has this gap. */
  ghost predicate Gap(db: Db, r: Range) {
    exists id: nat, k: nat :: Unresolved(db, id, k, r)
  }

  /** The unresolved rows of every session, in the order of the query. */
  ghost predicate Lists(rows: seq<Range>, db: Db) {
    && (forall i :: 0 < i < |rows| ==> rows[i - 1].first <= rows[i].first)
    && (forall i :: 0 <= i < |rows| ==> Gap(db, rows[i]))
    && (forall id: nat, k: nat, r :: Unresolved(db, id, k, r) ==> r in rows)
  }

  ghost predicate Bounded(db: Db) {
    forall id: nat :: SessionOf(db, id).highest < MAX_INT64
  }

  lemma {:induction false} ItemKeepsBounded(db: Db, it: Item)
    requires Bounded(db)
    ensures ApplyItem(db, it).Some? ==> Bounded(ApplyItem(db, it).value)
  {
    if ApplyItem(db, it).Some? && InsertEvent(db, it).Stored? {
      var d := ApplyItem(db, it).value;
      forall id: nat ensures SessionOf(d, id).highest < MAX_INT64 {
        assert SessionOf(db, id).highest < MAX_INT64;
      }
    }
  }

  lemma {:induction false} ItemsKeepBounded(db: Db, items: seq<Item>)
    requires Bounded(db)
    ensures ApplyItems(db, items).Some? ==> Bounded(ApplyItems(db, items).value)
  {
    if items != [] {
      ItemsKeepBounded(db, items[..|items| - 1]);
      if ApplyItems(db, items[..|items| - 1]).Some? {
        ItemKeepsBounded(ApplyItems(db, items[..|items| - 1]).value, items[|items| - 1]);
      }
    }
  }

  /** Sequences and rows stay within a signed 64-bit column. */
  lemma {:induction false} BatchesKeepBounded(batches: seq<Batch>)
    ensures Bounded(AfterBatches(EmptyDb(), batches))
  {
    if batches == [] {
      forall id: nat ensures SessionOf(EmptyDb(), id).highest < MAX_INT64 {}
    } else {
      var db, b := AfterBatches(EmptyDb(), batches[..|batches| - 1]), batches[|batches| - 1];
      BatchesKeepBounded(batches[..|batches| - 1]);
      var d := db.(requests := db.requests + {b.request});
      forall id: nat ensures SessionOf(d, id).highest < MAX_INT64 { assert SessionOf(d, id) == SessionOf(db, id); }
      ItemsKeepBounded(d, b.items);
    }
  }

  lemma {:induction false} ListedRowsAreSound(rows: seq<Range>, db: Db)
    requires Lists(rows, db) && GoodDb(db) && Bounded(db)
    ensures Table(rows)
  {
    forall i | 0 <= i < |rows| ensures ValidRange(rows[i]) && rows[i].last < U64 / 2 {
      assert Gap(db, rows[i]);
      var id: nat, k: nat :| Unresolved(db, id, k, rows[i]);
      assert Exact(SessionOf(db, id), Received(db, id));
      assert SessionOf(db, id).highest < MAX_INT64;
    }
  }

  lemma {:induction false} ListedRowsAreMissing(rows: seq<Range>, db: Db, q: int)
    requires Lists(rows, db) && GoodDb(db)
    ensures Covers(rows, q) <==> Missing(db, q)
  {
    if i :| 0 <= i < |rows| && rows[i].first <= q <= rows[i].last {
      assert Gap(db, rows[i]);
      var id: nat, k: nat :| Unresolved(db, id, k, rows[i]);
      var s := SessionOf(db, id);
      assert Exact(s, Received(db, id)) && WellFormed(s.rows, s.highest, Received(db, id));
      assert Contains(s.rows[k], q) && Covered(s.rows, q);
      assert q in Lacking(db, id);
    }
    if id: nat :| q in Lacking(db, id) {
      var s := SessionOf(db, id);
      assert Exact(s, Received(db, id)) && Covered(s.rows, q);
      var k :| 0 <= k < |s.rows| && Contains(s.rows[k], q);
      var r := Range(s.rows[k].first, s.rows[k].last);
      assert Unresolved(db, id, k, r);
      var i :| 0 <= i < |rows| && rows[i] == r;
    }
  }

  /** After any batches, in whatever order the rows of one first sequence come: the report never fails,
      is bounded, and names an initial part of what the node's sessions miss. */
  lemma {:induction false} ReportIsWhatIsMissing(batches: seq<Batch>, rows: seq<Range>, q: int)
    requires Lists(rows, AfterBatches(EmptyDb(), batches))
    ensures Table(rows) && Small(Reported(rows))
    ensures Covers(Reported(rows), q) <==> Missing(AfterBatches(EmptyDb(), batches), q) && q < ReportedUpTo(rows)
  {
    var db := AfterBatches(EmptyDb(), batches);
    GapTableIsTheComplement(batches);
    BatchesKeepBounded(batches);
    ListedRowsAreSound(rows, db);
    ReportIsInitialPart(rows);
    ListedRowsAreMissing(rows, db, q);
  }
}

/** The gap table is the complement of what was received, for any arrival order. */
module CloudGapTheorems {
  import opened Facts
  import opened CloudGaps

  // ----- Which rows an arrival touches -----

  lemma {:induction false} PickedNone(rows: seq<Row>, q: nat)
    requires !Covered(rows, q)
    ensures Picked(rows, q) == []
  {
    if rows != [] {
      var most := rows[..|rows| - 1];
      assert !Contains(rows[|rows| - 1], q);
      assert forall i :: 0 <= i < |most| ==> most[i] == rows[i];
      PickedNone(most, q);
    }
  }

  lemma {:induction false} PickedOne(rows: seq<Row>, q: nat, i: nat)
    requires i < |rows| && Contains(rows[i], q) && forall j :: 0 <= j < |rows| && j != i ==> !Contains(rows[j], q)
    ensures Picked(rows, q) == [i]
  {
    var most := rows[..|rows| - 1];
    if i == |rows| - 1 {
      assert !Covered(most, q);
      PickedNone(most, q);
    } else {
      PickedOne(most, q, i);
    }
  }

  lemma {:induction false} OnlyOne(rows: seq<Row>, q: nat, i: nat, j: nat)
    requires Apart(rows) && i < |rows| && j < |rows| && i != j && Contains(rows[i], q)
    ensures !Contains(rows[j], q)
  {
    if i < j { assert Apart(rows); }
  }

  lemma {:induction false} FillSingle(rows: seq<Row>, i: nat, q: nat)
    requires i < |rows|
    ensures Fill(rows, [i], q) == FillOne(rows, i, q)
  {
    assert [i][..0] == [];
    assert Fill(rows, [], q) == Some(rows);
  }

  // ----- No key is ever hit -----

  /** A piece of an open gap shares no key with any other row: open rows are apart, and a resolved row
      names a sequence that was received. */
  lemma {:induction false} PieceIsNew(s: Session, received: set<nat>, i: nat, r: Row)
    requires Exact(s, received) && i < |s.rows| && !s.rows[i].resolved
    requires s.rows[i].first <= r.first <= r.last <= s.rows[i].last
    ensures !KeyTaken(s.rows, r, i)
  {
    forall j | 0 <= j < |s.rows| && j != i ensures !SameKey(s.rows[j], r) {
      if s.rows[j].resolved {
        assert Contains(s.rows[i], r.first) && Covered(s.rows, r.first);
      } else if i < j {
        assert s.rows[i].last < s.rows[j].first || s.rows[j].last < s.rows[i].first;
      } else {
        assert s.rows[j].last < s.rows[i].first || s.rows[i].last < s.rows[j].first;
      }
    }
  }

  // ----- Changing one row -----

  /** The rows other than `i` are untouched, and only `pieces` remain of it. */
  lemma {:induction false} CoveredAfter(rows: seq<Row>, after: seq<Row>, i: nat, x: nat)
    requires i < |rows| <= |after| && forall j :: 0 <= j < |rows| && j != i ==> after[j] == rows[j]
    ensures Covered(after, x) <==>
      Contains(after[i], x) || (exists j :: 0 <= j < |rows| && j != i && Contains(rows[j], x)) ||
      (exists j :: |rows| <= j < |after| && Contains(after[j], x))
  {
    if j :| 0 <= j < |after| && Contains(after[j], x) {
      if j < |rows| && j != i { assert Contains(rows[j], x); }
    }
    if j :| 0 <= j < |rows| && j != i && Contains(rows[j], x) { assert Contains(after[j], x); }
  }

  /** What remains of gap `g` when `q` arrives inside it. */
  predicate Remains(g: Row, q: nat, left: Row, x: nat) {
    Contains(left, x) <==> Contains(g, x) && x != q
  }

  lemma {:induction false} ReplaceExact(s: Session, received: set<nat>, i: nat, q: nat, r: Row)
    requires Exact(s, received) && i < |s.rows| && Contains(s.rows[i], q) && q !in received
    requires 1 <= r.first <= r.last <= s.highest && s.rows[i].first <= r.first && r.last <= s.rows[i].last
    requires r.resolved ==> r.first == r.last == q
    requires forall x: nat :: Remains(s.rows[i], q, r, x)
    ensures Exact(Session(s.highest, s.rows[i := r]), received + {q})
  {
    var rows, after := s.rows, s.rows[i := r];
    forall x: nat ensures Covered(after, x) <==> 1 <= x <= s.highest && x !in received + {q} {
      CoveredAfter(rows, after, i, x);
      CoveredAfter(rows, rows, i, x);
      assert Remains(rows[i], q, r, x);
      if x == q { forall j | 0 <= j < |rows| && j != i ensures !Contains(rows[j], q) { OnlyOne(rows, q, i, j); } }
    }
    ReplaceApart(rows, i, r);
    assert q <= s.highest;
  }

  lemma {:induction false} ReplaceApart(rows: seq<Row>, i: nat, r: Row)
    requires Apart(rows) && i < |rows| && !rows[i].resolved && rows[i].first <= r.first && r.last <= rows[i].last
    ensures Apart(rows[i := r])
  {
    var after := rows[i := r];
    forall a, b | 0 <= a < b < |after| && !after[a].resolved && !after[b].resolved
      ensures after[a].last < after[b].first || after[b].last < after[a].first
    {
      assert rows[a].last < rows[b].first || rows[b].last < rows[a].first;
    }
  }

  lemma {:induction false} SplitExact(s: Session, received: set<nat>, i: nat, q: nat)
    requires Exact(s, received) && i < |s.rows| && Contains(s.rows[i], q) && q !in received
    requires s.rows[i].first < q < s.rows[i].last
    ensures var g := s.rows[i];
      Exact(Session(s.highest, s.rows[i := g.(last := q - 1)] + [Row(q + 1, g.last, false)]), received + {q})
  {
    var rows, g := s.rows, s.rows[i];
    var left, right := g.(last := q - 1), Row(q + 1, g.last, false);
    var after := rows[i := left] + [right];
    forall x: nat ensures Covered(after, x) <==> 1 <= x <= s.highest && x !in received + {q} {
      CoveredAfter(rows, after, i, x);
      CoveredAfter(rows, rows, i, x);
      assert (exists j :: |rows| <= j < |after| && Contains(after[j], x)) <==> Contains(right, x) by {
        assert after[|rows|] == right;
      }
      if x == q { forall j | 0 <= j < |rows| && j != i ensures !Contains(rows[j], q) { OnlyOne(rows, q, i, j); } }
    }
    SplitApart(rows, i, q);
  }

  lemma {:induction false} SplitApart(rows: seq<Row>, i: nat, q: nat)
    requires Apart(rows) && i < |rows| && !rows[i].resolved && rows[i].first < q < rows[i].last
    ensures Apart(rows[i := rows[i].(last := q - 1)] + [Row(q + 1, rows[i].last, false)])
  {
    var left, right := rows[i].(last := q - 1), Row(q + 1, rows[i].last, false);
    var after := rows[i := left] + [right];
    ReplaceApart(rows, i, left);
    forall a, b | 0 <= a < b < |after| && !after[a].resolved && !after[b].resolved
      ensures after[a].last < after[b].first || after[b].last < after[a].first
    {
      if b < |rows| {
        assert rows[i := left][a].last < rows[i := left][b].first || rows[i := left][b].last < rows[i := left][a].first;
      } else if a != i {
        if a < i { assert rows[a].last < rows[i].first || rows[i].last < rows[a].first; }
        else { assert rows[i].last < rows[a].first || rows[a].last < rows[i].first; }
      }
    }
  }

  /** An arrival inside an open gap is filled without hitting a key, and the table stays exact. */
  lemma {:induction false} FillOneExact(s: Session, received: set<nat>, i: nat, q: nat)
    requires Exact(s, received) && i < |s.rows| && Contains(s.rows[i], q) && q !in received
    ensures FillOne(s.rows, i, q).Some?
    ensures Exact(Session(s.highest, FillOne(s.rows, i, q).value), received + {q})
  {
    var g := s.rows[i];
    assert 1 <= g.first <= g.last <= s.highest;
    if g.first == g.last {
      ReplaceExact(s, received, i, q, g.(resolved := true));
    } else if q == g.first || q == g.last {
      ShrinkExact(s, received, i, q, if q == g.first then g.(first := q + 1) else g.(last := q - 1));
    } else {
      FillSplits(s, received, i, q);
    }
  }

  lemma {:induction false} FillSplits(s: Session, received: set<nat>, i: nat, q: nat)
    requires Exact(s, received) && i < |s.rows| && Contains(s.rows[i], q) && q !in received
    requires s.rows[i].first < q < s.rows[i].last
    ensures FillOne(s.rows, i, q).Some?
    ensures Exact(Session(s.highest, FillOne(s.rows, i, q).value), received + {q})
  {
    SplitIsNew(s, received, i, q);
    SplitExact(s, received, i, q);
  }

  lemma {:induction false} ShrinkExact(s: Session, received: set<nat>, i: nat, q: nat, r: Row)
    requires Exact(s, received) && i < |s.rows| && Contains(s.rows[i], q) && q !in received
    requires s.rows[i].first < s.rows[i].last
    requires (q == s.rows[i].first && r == s.rows[i].(first := q + 1)) ||
      (q == s.rows[i].last && q > 0 && r == s.rows[i].(last := q - 1))
    ensures FillOne(s.rows, i, q) == Some(s.rows[i := r])
    ensures Exact(Session(s.highest, s.rows[i := r]), received + {q})
  {
    assert 1 <= s.rows[i].first <= s.rows[i].last <= s.highest;
    PieceIsNew(s, received, i, r);
    ReplaceExact(s, received, i, q, r);
  }

  lemma {:induction false} SplitIsNew(s: Session, received: set<nat>, i: nat, q: nat)
    requires Exact(s, received) && i < |s.rows| && Contains(s.rows[i], q) && s.rows[i].first < q < s.rows[i].last
    ensures var left := s.rows[i].(last := q - 1); var right := Row(q + 1, s.rows[i].last, false);
      !KeyTaken(s.rows, left, i) && !KeyTaken(s.rows[i := left], right, -1)
  {
    var left, right := s.rows[i].(last := q - 1), Row(q + 1, s.rows[i].last, false);
    PieceIsNew(s, received, i, left);
    PieceIsNew(s, received, i, right);
    var after := s.rows[i := left];
    forall j | 0 <= j < |after| ensures !SameKey(after[j], right) {
      if j != i { assert after[j] == s.rows[j]; }
    }
  }

  // ----- One arrival -----

  lemma {:induction false} OpenedExact(s: Session, received: set<nat>, q: nat)
    requires Exact(s, received) && q > s.highest
    ensures Exact(Session(q, Opened(s, q)), received + {q}) && !Covered(Opened(s, q), q)
  {
    var rows, hole := s.rows, Row(s.highest + 1, q - 1, false);
    assert !KeyTaken(rows, hole, -1);
    var after := Opened(s, q);
    forall x: nat ensures Covered(after, x) <==> Covered(rows, x) || s.highest < x < q {
      if q > s.highest + 1 {
        assert after[|rows|] == hole;
        if i :| 0 <= i < |rows| && Contains(rows[i], x) { assert Contains(after[i], x); }
        if s.highest < x < q { assert Contains(after[|rows|], x); }
      }
    }
    assert forall x: nat :: Covered(rows, x) <==> 1 <= x <= s.highest && x !in received;
    OpenedApart(s, received, q);
  }

  lemma {:induction false} OpenedApart(s: Session, received: set<nat>, q: nat)
    requires Exact(s, received) && q > s.highest
    ensures Apart(Opened(s, q)) && WellFormed(Opened(s, q), q, received + {q})
  {
    var after := Opened(s, q);
    forall a, b | 0 <= a < b < |after| && !after[a].resolved && !after[b].resolved
      ensures after[a].last < after[b].first || after[b].last < after[a].first
    {
      if b < |s.rows| { assert s.rows[a].last < s.rows[b].first || s.rows[b].last < s.rows[a].first; }
    }
  }

  /** A new sequence, whatever its order, keeps the table exact and never fails. */
  lemma {:induction false} AdvanceExact(s: Session, received: set<nat>, q: nat)
    requires Exact(s, received) && q > 0 && q !in received
    ensures Advance(s, q).Some? && Exact(Advance(s, q).value, received + {q})
  {
    if q > s.highest {
      OpenedExact(s, received, q);
      PickedNone(Opened(s, q), q);
    } else {
      assert Opened(s, q) == s.rows;
      assert Covered(s.rows, q);
      var i :| 0 <= i < |s.rows| && Contains(s.rows[i], q);
      forall j | 0 <= j < |s.rows| && j != i ensures !Contains(s.rows[j], q) { OnlyOne(s.rows, q, i, j); }
      PickedOne(s.rows, q, i);
      FillSingle(s.rows, i, q);
      FillOneExact(s, received, i, q);
    }
  }

  // ----- Whole databases -----

  ghost predicate GoodDb(db: Db) {
    forall id: nat :: Exact(SessionOf(db, id), Received(db, id))
  }

  lemma {:induction false} ReceivedAfter(db: Db, it: Item, s: Session, id: nat)
    requires it.event !in db.events
    ensures var d := db.(events := db.events[it.event := it], sessions := db.sessions[it.session := s]);
      Received(d, id) == if id == it.session then Received(db, id) + {it.sequence} else Received(db, id)
  {
    var d := db.(events := db.events[it.event := it], sessions := db.sessions[it.session := s]);
    forall q ensures q in Received(d, id) <==> q in Received(db, id) || (id == it.session && q == it.sequence) {
      if e :| e in db.events && db.events[e].session == id && db.events[e].sequence == q {
        assert d.events[e] == db.events[e];
      }
      if id == it.session && q == it.sequence { assert d.events[it.event] == it; }
    }
  }

  lemma {:induction false} ItemKeepsGood(db: Db, it: Item)
    requires GoodDb(db)
    ensures ApplyItem(db, it).None? <==> InsertEvent(db, it).Refused?
    ensures ApplyItem(db, it).Some? ==> GoodDb(ApplyItem(db, it).value)
  {
    if InsertEvent(db, it).Stored? {
      var old_ := SessionOf(db, it.session);
      assert Exact(old_, Received(db, it.session));
      AdvanceExact(old_, Received(db, it.session), it.sequence);
      var s := Advance(old_, it.sequence).value;
      var d := ApplyItem(db, it).value;
      forall id: nat ensures Exact(SessionOf(d, id), Received(d, id)) {
        ReceivedAfter(db, it, s, id);
        assert Exact(SessionOf(db, id), Received(db, id));
      }
    }
  }

  /** The events a list of items stores, with no gap table involved. */
  function StoreItems(events: map<nat, Item>, items: seq<Item>): Option<map<nat, Item>> {
    if items == [] then Some(events)
    else match StoreItems(events, items[..|items| - 1])
      case None => None
      case Some(so) =>
        var it := items[|items| - 1];
        match InsertEvent(Db({}, so, map[]), it)
        case Refused => None
        case Retry => Some(so)
        case Stored => Some(so[it.event := it])
  }

  lemma {:induction false} InsertReadsEvents(db: Db, it: Item)
    ensures InsertEvent(db, it) == InsertEvent(Db({}, db.events, map[]), it)
  {
    assert Received(db, it.session) == Received(Db({}, db.events, map[]), it.session);
  }

  lemma {:induction false} ItemsKeepGood(db: Db, items: seq<Item>)
    requires GoodDb(db)
    ensures ApplyItems(db, items).Some? <==> StoreItems(db.events, items).Some?
    ensures ApplyItems(db, items).Some? ==>
      && GoodDb(ApplyItems(db, items).value)
      && ApplyItems(db, items).value.events == StoreItems(db.events, items).value
      && ApplyItems(db, items).value.requests == db.requests
    decreases |items|
  {
    if items != [] {
      ItemsKeepGood(db, items[..|items| - 1]);
      var so := ApplyItems(db, items[..|items| - 1]);
      if so.Some? {
        ItemKeepsGood(so.value, items[|items| - 1]);
        InsertReadsEvents(so.value, items[|items| - 1]);
      }
    }
  }

  lemma {:induction false} RequestsDoNotMatter(db: Db, request: BatchId)
    requires GoodDb(db)
    ensures GoodDb(db.(requests := db.requests + {request}))
  {
    var d := db.(requests := db.requests + {request});
    forall id: nat ensures Exact(SessionOf(d, id), Received(d, id)) {
      assert Exact(SessionOf(db, id), Received(db, id));
      assert Received(d, id) == Received(db, id);
    }
  }

  /** A batch is accepted exactly when its request is new and its events contradict no stored one:
      gap bookkeeping never refuses it.  Otherwise nothing of it remains. */
  lemma {:induction false} AcceptExactly(db: Db, request: BatchId, items: seq<Item>)
    requires GoodDb(db)
    ensures var (d, ok) := Accept(db, request, items);
      && (ok <==> !Used(db.requests, request) && StoreItems(db.events, items).Some?)
      && (ok ==> d.events == StoreItems(db.events, items).value && d.requests == db.requests + {request})
      && (!ok ==> d == db)
      && GoodDb(d)
  {
    RequestsDoNotMatter(db, request);
    ItemsKeepGood(db.(requests := db.requests + {request}), items);
  }

  lemma {:induction false} EmptyIsGood()
    ensures GoodDb(EmptyDb())
  {
    forall id: nat ensures Exact(SessionOf(EmptyDb(), id), Received(EmptyDb(), id)) {
      assert Received(EmptyDb(), id) == {};
    }
  }

  /** For any batches, in any order, with any retries: each session's open gaps are disjoint and are
      exactly the sequences up to its highest that were never received. */
  lemma {:induction false} GapTableIsTheComplement(batches: seq<Batch>)
    ensures GoodDb(AfterBatches(EmptyDb(), batches))
  {
    if batches == [] {
      EmptyIsGood();
    } else {
      GapTableIsTheComplement(batches[..|batches| - 1]);
      AcceptExactly(AfterBatches(EmptyDb(), batches[..|batches| - 1]), batches[|batches| - 1].request,
        batches[|batches| - 1].items);
    }
  }

  /** The order of arrival leaves no trace: two histories that left a session with the same sequences
      received left it with the same cursor and the same gaps. */
  lemma {:induction false} OrderLeavesNoTrace(one: seq<Batch>, other: seq<Batch>, id: nat, q: nat)
    requires Received(AfterBatches(EmptyDb(), one), id) == Received(AfterBatches(EmptyDb(), other), id)
    ensures var a, b := SessionOf(AfterBatches(EmptyDb(), one), id), SessionOf(AfterBatches(EmptyDb(), other), id);
      a.highest == b.highest && (Covered(a.rows, q) <==> Covered(b.rows, q))
  {
    GapTableIsTheComplement(one);
    GapTableIsTheComplement(other);
    var x, y := AfterBatches(EmptyDb(), one), AfterBatches(EmptyDb(), other);
    SameReceivedSameGaps(SessionOf(x, id), SessionOf(y, id), Received(x, id), q);
  }

  lemma {:induction false} SameReceivedSameGaps(a: Session, b: Session, received: set<nat>, q: nat)
    requires Exact(a, received) && Exact(b, received)
    ensures a.highest == b.highest && (Covered(a.rows, q) <==> Covered(b.rows, q))
  {
  }

  /** Resending events that are already stored, under a new request, changes no event, cursor or gap. */
  lemma {:induction false} RetryChangesNothing(db: Db, request: BatchId, items: seq<Item>)
    requires !Used(db.requests, request) && forall i :: 0 <= i < |items| ==>
      items[i].event in db.events && db.events[items[i].event] == items[i]
    ensures Accept(db, request, items) == (db.(requests := db.requests + {request}), true)
  {
    RetriesApply(db.(requests := db.requests + {request}), items);
  }

  lemma {:induction false} RetriesApply(db: Db, items: seq<Item>)
    requires forall i :: 0 <= i < |items| ==> items[i].event in db.events && db.events[items[i].event] == items[i]
    ensures ApplyItems(db, items) == Some(db)
  {
    if items != [] {
      RetriesApply(db, items[..|items| - 1]);
      assert InsertEvent(db, items[|items| - 1]).Retry?;
    }
  }
}

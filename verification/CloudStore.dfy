/** The ingest store as the object that changes rows in place, one transaction per batch. */
module CloudStore {
  import opened Facts
  import opened CloudGaps

  class IngestStore {
    var requests: set<BatchId>
    var events: map<nat, Item>
    var sessions: map<nat, Session>

    function View(): Db
      reads this
    {
      Db(requests, events, sessions)
    }

    constructor ()
      ensures View() == EmptyDb()
    {
      requests, events, sessions := {}, map[], map[];
    }

    /** The gaps that contain a sequence. */
    static method ReadGaps(rows: seq<Row>, q: nat) returns (gaps: seq<nat>)
      ensures gaps == Picked(rows, q)
    {
      gaps := [];
      for i := 0 to |rows|
        invariant gaps == Picked(rows[..i], q)
      {
        assert rows[..i + 1][..i] == rows[..i];
        if !rows[i].resolved && rows[i].first <= q && rows[i].last >= q {
          gaps := gaps + [i];
        }
      }
      assert rows[..|rows|] == rows;
    }

    /** Reads the gaps that contain the sequence first, then changes each of them. */
    static method FillSequenceGap(rows: seq<Row>, q: nat) returns (r: Option<seq<Row>>)
      ensures (forall k :: 0 <= k < |Picked(rows, q)| ==> Picked(rows, q)[k] < |rows|)
      ensures r == Fill(rows, Picked(rows, q), q)
    {
      PickedInRange(rows, q);
      var gaps := ReadGaps(rows, q);
      var so := rows;
      for k := 0 to |gaps|
        invariant |so| >= |rows| && Fill(rows, gaps[..k], q) == Some(so)
      {
        assert gaps[..k + 1][..k] == gaps[..k];
        var next := FillOne(so, gaps[k], q);
        if next.None? {
          FailsForGood(rows, gaps, q, k + 1);
          return None;
        }
        assert Fill(rows, gaps[..k + 1], q) == next;
        so := next.value;
      }
      assert gaps[..|gaps|] == gaps;
      return Some(so);
    }

    method AdvanceSequence(session: nat, q: nat) returns (ok: bool)
      requires q > 0
      modifies this`sessions
      ensures ok <==> Advance(SessionOf(old(View()), session), q).Some?
      ensures sessions ==
        if ok then old(sessions)[session := Advance(SessionOf(old(View()), session), q).value] else old(sessions)
    {
      var s := if session in sessions then sessions[session] else Session(0, []);
      var rows := s.rows;
      if q > s.highest + 1 {
        var hole := Row(s.highest + 1, q - 1, false);
        if !KeyTaken(rows, hole, -1) {
          rows := rows + [hole];
        }
      }
      assert rows == Opened(s, q);
      var filled := FillSequenceGap(rows, q);
      if filled.None? {
        return false;
      }
      sessions := sessions[session := Session(if q > s.highest then q else s.highest, filled.value)];
      return true;
    }

    method StoreItem(it: Item) returns (ok: bool)
      modifies this`events, this`sessions
      ensures ok <==> ApplyItem(old(View()), it).Some?
      ensures ok ==> Some(View()) == ApplyItem(old(View()), it)
    {
      var inserted := InsertEvent(View(), it);
      match inserted {
        case Refused => return false;
        case Retry => return true;
        case Stored =>
      }
      ok := AdvanceSequence(it.session, it.sequence);
      if ok {
        events := events[it.event := it];
      }
    }

    /** All of the batch, or a rollback to where it began. */
    method AcceptBatch(request: BatchId, items: seq<Item>) returns (ok: bool)
      modifies this
      ensures (View(), ok) == Accept(old(View()), request, items)
    {
      if Used(requests, request) {
        return false;
      }
      var savedRequests, savedEvents, savedSessions := requests, events, sessions;
      requests := requests + {request};
      ghost var start := View();
      for i := 0 to |items|
        invariant Some(View()) == ApplyItems(start, items[..i])
        invariant savedRequests == old(requests) && savedEvents == old(events) && savedSessions == old(sessions)
      {
        assert items[..i + 1][..i] == items[..i];
        var stored := StoreItem(items[i]);
        if !stored {
          RefusedForGood(start, items, i + 1);
          requests, events, sessions := savedRequests, savedEvents, savedSessions;
          return false;
        }
      }
      assert items[..|items|] == items;
      return true;
    }
  }

  lemma {:induction false} FailsForGood(rows: seq<Row>, picked: seq<nat>, q: nat, n: nat)
    requires n <= |picked| && (forall k :: 0 <= k < |picked| ==> picked[k] < |rows|) && Fill(rows, picked[..n], q).None?
    ensures Fill(rows, picked, q).None?
    decreases |picked| - n
  {
    if n == |picked| {
      assert picked[..n] == picked;
    } else {
      assert picked[..n + 1][..n] == picked[..n];
      FailsForGood(rows, picked, q, n + 1);
    }
  }

  lemma {:induction false} RefusedForGood(db: Db, items: seq<Item>, n: nat)
    requires n <= |items| && ApplyItems(db, items[..n]).None?
    ensures ApplyItems(db, items).None?
    decreases |items| - n
  {
    if n == |items| {
      assert items[..n] == items;
    } else {
      assert items[..n + 1][..n] == items[..n];
      RefusedForGood(db, items, n + 1);
    }
  }
}

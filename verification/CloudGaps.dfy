/** Sequence-gap bookkeeping in the cloud: an interval table split, shrunk and resolved as events
    arrive in any order. */
module CloudGaps {
  import opened Facts

  const MAX_INT64: nat := 0x7FFF_FFFF_FFFF_FFFF

  datatype Row = Row(first: nat, last: nat, resolved: bool)

  /** One node session: the highest sequence seen and its gap rows, resolved ones included. */
  datatype Session = Session(highest: nat, rows: seq<Row>)

  datatype Item = Item(event: nat, session: nat, sequence: nat, content: nat)

  /** A batch carries two identifiers, each of which may be used once. */
  datatype BatchId = BatchId(request: nat, batch: nat)

  datatype Db = Db(requests: set<BatchId>, events: map<nat, Item>, sessions: map<nat, Session>)

  function EmptyDb(): Db {
    Db({}, map[], map[])
  }

  // ----- The table and its unique key -----

  predicate SameKey(a: Row, b: Row) {
    a.first == b.first && a.last == b.last
  }

  /** Some other row already holds this key, resolved or not. */
  predicate KeyTaken(rows: seq<Row>, r: Row, except: int) {
    exists i :: 0 <= i < |rows| && i != except && SameKey(rows[i], r)
  }

  predicate Contains(r: Row, q: nat) {
    !r.resolved && r.first <= q <= r.last
  }

  /** The unresolved rows that contain a sequence, as read before any of them is changed. */
  function Picked(rows: seq<Row>, q: nat): seq<nat> {
    if rows == [] then []
    else
      Picked(rows[..|rows| - 1], q) + if Contains(rows[|rows| - 1], q) then [|rows| - 1] else []
  }

  function Change(rows: seq<Row>, i: nat, r: Row): Option<seq<Row>>
    requires i < |rows|
  {
    if KeyTaken(rows, r, i) then None else Some(rows[i := r])
  }

  /** One arrival against one gap: resolved, shrunk at an end, or split.  None when a unique key is hit. */
  function FillOne(rows: seq<Row>, i: nat, q: nat): Option<seq<Row>>
    requires i < |rows|
  {
    var g := rows[i];
    if g.first == g.last then Some(rows[i := g.(resolved := true)])
    else if q == g.first then Change(rows, i, g.(first := g.first + 1))
    else if q == g.last then (if g.last == 0 then None else Change(rows, i, g.(last := g.last - 1)))
    else if q == 0 then None
    else match Change(rows, i, g.(last := q - 1))
      case None => None
      case Some(left) =>
        var right := Row(q + 1, g.last, false);
        if KeyTaken(left, right, -1) then None else Some(left + [right])
  }

  function Fill(rows: seq<Row>, picked: seq<nat>, q: nat): Option<seq<Row>>
    requires forall k :: 0 <= k < |picked| ==> picked[k] < |rows|
    ensures Fill(rows, picked, q).Some? ==> |Fill(rows, picked, q).value| >= |rows|
    decreases |picked|
  {
    if picked == [] then Some(rows)
    else match Fill(rows, picked[..|picked| - 1], q)
      case None => None
      case Some(so) => FillOne(so, picked[|picked| - 1], q)
  }

  /** A hole opened by an arrival ahead of the next expected sequence; an equal row is left alone. */
  function Opened(s: Session, q: nat): seq<Row>
    requires q > 0
  {
    var hole := Row(s.highest + 1, q - 1, false);
    if q > s.highest + 1 && !KeyTaken(s.rows, hole, -1) then s.rows + [hole] else s.rows
  }

  lemma {:induction false} PickedInRange(rows: seq<Row>, q: nat)
    ensures forall k :: 0 <= k < |Picked(rows, q)| ==>
      Picked(rows, q)[k] < |rows| && Contains(rows[Picked(rows, q)[k]], q)
  {
    if rows != [] { PickedInRange(rows[..|rows| - 1], q); }
  }

  function Advance(s: Session, q: nat): Option<Session>
    requires q > 0
  {
    var rows := Opened(s, q);
    PickedInRange(rows, q);
    match Fill(rows, Picked(rows, q), q)
    case None => None
    case Some(filled) => Some(Session(if q > s.highest then q else s.highest, filled))
  }

  // ----- Batches -----

  function SessionOf(db: Db, id: nat): Session {
    if id in db.sessions then db.sessions[id] else Session(0, [])
  }

  function Received(db: Db, session: nat): set<nat> {
    set e | e in db.events && db.events[e].session == session :: db.events[e].sequence
  }

  datatype Insertion = Stored | Retry | Refused

  /** An event is stored once; the same event again is a retry, anything else that collides is refused. */
  function InsertEvent(db: Db, it: Item): Insertion {
    if it.event in db.events then (if db.events[it.event] == it then Retry else Refused)
    else if it.sequence == 0 || it.sequence >= MAX_INT64 || it.sequence in Received(db, it.session) then Refused
    else Stored
  }

  function ApplyItem(db: Db, it: Item): Option<Db> {
    match InsertEvent(db, it)
    case Refused => None
    case Retry => Some(db)
    case Stored =>
      match Advance(SessionOf(db, it.session), it.sequence)
      case None => None
      case Some(s) => Some(db.(events := db.events[it.event := it], sessions := db.sessions[it.session := s]))
  }

  function ApplyItems(db: Db, items: seq<Item>): Option<Db> {
    if items == [] then Some(db)
    else match ApplyItems(db, items[..|items| - 1])
      case None => None
      case Some(d) => ApplyItem(d, items[|items| - 1])
  }

  predicate Used(requests: set<BatchId>, id: BatchId) {
    exists known :: known in requests && (known.request == id.request || known.batch == id.batch)
  }

  /** A batch is one transaction: all of it, or nothing. */
  function Accept(db: Db, request: BatchId, items: seq<Item>): (Db, bool) {
    if Used(db.requests, request) then (db, false)
    else match ApplyItems(db.(requests := db.requests + {request}), items)
      case None => (db, false)
      case Some(d) => (d, true)
  }

  datatype Batch = Batch(request: BatchId, items: seq<Item>)

  function AfterBatches(db: Db, batches: seq<Batch>): Db {
    if batches == [] then db
    else Accept(AfterBatches(db, batches[..|batches| - 1]), batches[|batches| - 1].request,
      batches[|batches| - 1].items).0
  }

  // ----- What a session's table must be -----

  predicate Covered(rows: seq<Row>, q: nat) {
    exists i :: 0 <= i < |rows| && Contains(rows[i], q)
  }

  predicate Apart(rows: seq<Row>) {
    forall i, j :: 0 <= i < j < |rows| && !rows[i].resolved && !rows[j].resolved ==>
      rows[i].last < rows[j].first || rows[j].last < rows[i].first
  }

  predicate WellFormed(rows: seq<Row>, highest: nat, received: set<nat>) {
    forall i :: 0 <= i < |rows| ==>
      && 1 <= rows[i].first <= rows[i].last <= highest
      && (rows[i].resolved ==> rows[i].first == rows[i].last && rows[i].first in received)
  }

  ghost predicate Complement(rows: seq<Row>, highest: nat, received: set<nat>) {
    forall q: nat :: Covered(rows, q) <==> 1 <= q <= highest && q !in received
  }

  predicate Within(received: set<nat>, highest: nat) {
    && (forall q :: q in received ==> 1 <= q <= highest)
    && (highest > 0 ==> highest in received)
  }

  /** The unresolved rows are disjoint and are exactly the sequences up to the highest that are missing. */
  ghost predicate Exact(s: Session, received: set<nat>) {
    && Within(received, s.highest)
    && Apart(s.rows)
    && WellFormed(s.rows, s.highest, received)
    && Complement(s.rows, s.highest, received)
  }
}

/** The integrity of the incident log over every serialized history. */
module IncidentTheorems {
  import opened Facts
  import opened Incidents

  // ----- One incident's transitions -----

  function Of(ts: seq<Transition>, i: nat): seq<Transition> {
    if ts == [] then []
    else Of(ts[..|ts| - 1], i) + if ts[|ts| - 1].incident == i then [ts[|ts| - 1]] else []
  }

  lemma {:induction false} OfSnoc(ts: seq<Transition>, t: Transition, i: nat)
    ensures Of(ts + [t], i) == Of(ts, i) + if t.incident == i then [t] else []
  {
    assert (ts + [t])[..|ts + [t]| - 1] == ts;
  }

  /** Generations count up from one, each transition starts where the one before it ended, and
      nothing follows a resolution. */
  predicate Chained(ts: seq<Transition>) {
    && ts != [] && ts[0].from == New
    && (forall k :: 0 <= k < |ts| ==> ts[k].generation == k + 1)
    && (forall k :: 0 < k < |ts| ==> ts[k].from == Was(ts[k - 1].to))
    && (forall k :: 0 <= k < |ts| - 1 ==> !ts[k].to.Resolved?)
  }

  /** The row says what the log says. */
  predicate Tells(ts: seq<Transition>, i: Incident) {
    Chained(ts) && i.generation == |ts| && i.status == ts[|ts| - 1].to
  }

  lemma {:induction false} ChainSnoc(ts: seq<Transition>, i: Incident, t: Transition)
    requires Tells(ts, i) && Active(i) && t.generation == i.generation + 1 && t.from == Was(i.status)
    ensures Chained(ts + [t]) && (ts + [t])[|ts|] == t
  {
    var all := ts + [t];
    forall k | 0 < k < |all| ensures all[k].from == Was(all[k - 1].to) {
      if k < |ts| { assert ts[k].from == Was(ts[k - 1].to); }
    }
  }

  // ----- The invariant -----

  predicate Paired(ts: seq<Transition>, out: seq<Alert>) {
    |ts| == |out| && forall k :: 0 <= k < |ts| ==>
      out[k].incident == ts[k].incident && out[k].generation == ts[k].generation && out[k].status == ts[k].to &&
        out[k].at == ts[k].at
  }

  predicate Told(db: Db) {
    forall i :: 0 <= i < |db.incidents| ==> Tells(Of(db.transitions, i), db.incidents[i])
  }

  predicate Refers(db: Db) {
    && (forall k :: 0 <= k < |db.transitions| ==> db.transitions[k].incident < |db.incidents|)
    && (forall e :: e in db.evidence ==> e.0 < |db.incidents|)
  }

  /** Of two incidents of one key the earlier is resolved, and was last observed before the later opened. */
  predicate Succeeds(a: Incident, b: Incident) {
    a.identity.key == b.identity.key ==> a.status.Resolved? && a.lastObservedAt < b.openedAt
  }

  predicate InSuccession(incidents: seq<Incident>) {
    && (forall i, j :: 0 <= i < j < |incidents| ==> Succeeds(incidents[i], incidents[j]))
    && (forall i :: 0 <= i < |incidents| ==> incidents[i].openedAt <= incidents[i].lastObservedAt)
  }

  /** The newest alert about an incident. */
  function LastAlert(out: seq<Alert>, i: nat): Option<Alert> {
    if out == [] then None
    else if out[|out| - 1].incident == i then Some(out[|out| - 1])
    else LastAlert(out[..|out| - 1], i)
  }

  /** An alert says everything that matters about a row. */
  predicate Announces(a: Option<Alert>, row: Incident) {
    a.Some? && a.value.generation == row.generation && a.value.status == row.status &&
    a.value.severity == row.severity && a.value.requiresAction == row.requiresAction
  }

  /** At any moment the newest alert about each incident is what its row says: no change of severity,
      of required action or of status goes unannounced. */
  predicate Announced(db: Db) {
    forall i :: 0 <= i < |db.incidents| ==> Announces(LastAlert(db.outbox, i), db.incidents[i])
  }

  lemma {:induction false} LastAlertSnoc(out: seq<Alert>, a: Alert, i: nat)
    ensures LastAlert(out + [a], i) == if a.incident == i then Some(a) else LastAlert(out, i)
  {
    assert (out + [a])[..|out + [a]| - 1] == out;
  }

  predicate Sound(db: Db) {
    Told(db) && Refers(db) && Paired(db.transitions, db.outbox) && Announced(db) && InSuccession(db.incidents)
  }

  // ----- The latest incident is the last one created -----

  lemma {:induction false} LatestIsLast(incidents: seq<Incident>, key: string)
    requires InSuccession(incidents)
    ensures var r := Latest(incidents, key);
      && (r.None? <==> forall i :: 0 <= i < |incidents| ==> incidents[i].identity.key != key)
      && (r.Some? ==> forall i :: 0 <= i < |incidents| && i != r.value && incidents[i].identity.key == key ==>
            i < r.value && incidents[i].status.Resolved? && incidents[i].lastObservedAt < incidents[r.value].openedAt)
  {
    if incidents != [] {
      var most, n := incidents[..|incidents| - 1], |incidents| - 1;
      assert InSuccession(most) by {
        forall i, j | 0 <= i < j < |most|
          ensures Succeeds(most[i], most[j])
        {
          assert Succeeds(incidents[i], incidents[j]);
        }
      }
      LatestIsLast(most, key);
      var before := Latest(most, key);
      if incidents[n].identity.key == key {
        forall i | 0 <= i < n ensures Succeeds(incidents[i], incidents[n]) {}
        if before.Some? { assert Succeeds(incidents[before.value], incidents[n]); }
      }
    }
  }

  // ----- No unique key is ever hit -----

  lemma {:induction false} InOf(ts: seq<Transition>, k: nat)
    requires k < |ts|
    ensures ts[k] in Of(ts, ts[k].incident)
  {
    if k < |ts| - 1 { InOf(ts[..|ts| - 1], k); }
  }

  lemma {:induction false} NextGenerationIsFree(db: Db, i: nat)
    requires Sound(db) && i < |db.incidents|
    ensures !GenerationTaken(db.transitions, i, db.incidents[i].generation + 1)
  {
    var ts := Of(db.transitions, i);
    assert Tells(ts, db.incidents[i]);
    forall k | 0 <= k < |db.transitions| && db.transitions[k].incident == i
      ensures db.transitions[k].generation != db.incidents[i].generation + 1
    {
      InOf(db.transitions, k);
      var m :| 0 <= m < |ts| && ts[m] == db.transitions[k];
    }
  }

  // ----- Steps -----

  /** Moving an active incident: one row, one transition, one alert. */
  lemma {:induction false} MoveKeepsSound(db: Db, i: nat, updated: Incident, reason: string, at: int)
    requires Sound(db) && i < |db.incidents| && Active(db.incidents[i])
    requires updated.identity == db.incidents[i].identity && updated.openedAt == db.incidents[i].openedAt
    requires updated.lastObservedAt >= db.incidents[i].lastObservedAt
    requires forall j :: 0 <= j < |db.incidents| && j != i && db.incidents[j].identity.key == updated.identity.key ==>
      j < i
    ensures var (d, o) := Move(db, i, updated, reason, at); o == Done(true, true) && Sound(d)
  {
    NextGenerationIsFree(db, i);
    var row := db.incidents[i];
    var t := Transition(i, row.generation + 1, Was(row.status), updated.status, reason, at);
    var incidents := db.incidents[i := updated.(generation := row.generation + 1)];
    var (d, o) := Move(db, i, updated, reason, at);
    MoveTold(db, d, i, t);
    assert d.incidents == incidents && d.transitions == db.transitions + [t];
    AlertAnnounces(db.incidents, d.incidents, db.outbox, i, d.outbox[|db.outbox|]);
    MoveSuccession(db.incidents, incidents, i);
  }

  lemma {:induction false} MoveTold(db: Db, d: Db, i: nat, t: Transition)
    requires Sound(db) && i < |db.incidents| == |d.incidents| && Active(db.incidents[i])
    requires t.incident == i && t.generation == db.incidents[i].generation + 1 && t.from == Was(db.incidents[i].status)
    requires d.transitions == db.transitions + [t]
    requires d.incidents[i].generation == t.generation && d.incidents[i].status == t.to
    requires forall j :: 0 <= j < |db.incidents| && j != i ==> d.incidents[j] == db.incidents[j]
    ensures Told(d)
  {
    forall j | 0 <= j < |d.incidents| ensures Tells(Of(d.transitions, j), d.incidents[j]) {
      OfSnoc(db.transitions, t, j);
      assert Tells(Of(db.transitions, j), db.incidents[j]);
      if j == i { ChainSnoc(Of(db.transitions, i), db.incidents[i], t); }
    }
  }

  /** One row changed or was added, and one alert says so. */
  lemma {:induction false} AlertAnnounces(
    before: seq<Incident>, after: seq<Incident>, out: seq<Alert>, i: nat, a: Alert)
    requires i < |after| && (|after| == |before| || (|after| == |before| + 1 && i == |before|))
    requires forall j :: 0 <= j < |before| ==> Announces(LastAlert(out, j), before[j])
    requires forall j :: 0 <= j < |before| && j != i ==> after[j] == before[j]
    requires a.incident == i && Announces(Some(a), after[i])
    ensures forall j :: 0 <= j < |after| ==> Announces(LastAlert(out + [a], j), after[j])
  {
    forall j | 0 <= j < |after| ensures Announces(LastAlert(out + [a], j), after[j]) { LastAlertSnoc(out, a, j); }
  }

  lemma {:induction false} MoveSuccession(before: seq<Incident>, after: seq<Incident>, i: nat)
    requires InSuccession(before) && i < |before| == |after|
    requires forall j :: 0 <= j < |before| && j != i ==> after[j] == before[j]
    requires after[i].identity == before[i].identity && after[i].openedAt == before[i].openedAt
    requires after[i].lastObservedAt >= before[i].lastObservedAt
    requires forall j :: 0 <= j < |before| && j != i && before[j].identity.key == before[i].identity.key ==> j < i
    ensures InSuccession(after)
  {
    forall a, b | 0 <= a < b < |after| ensures Succeeds(after[a], after[b]) { assert Succeeds(before[a], before[b]); }
  }

  lemma {:induction false} LinksRefer(links: map<(nat, nat), EvidenceRole>, i: nat, items: seq<Evidence>, n: nat)
    requires (forall e :: e in links ==> e.0 < n) && i < n
    ensures var r := LinkEvidence(links, i, items); r.Some? ==> forall e :: e in r.value ==> e.0 < n
  {
    if items != [] { LinksRefer(links, i, items[..|items| - 1], n); }
  }

  lemma {:induction false} EvidenceKeepsSound(db: Db, i: nat, items: seq<Evidence>)
    requires Sound(db) && i < |db.incidents| && LinkEvidence(db.evidence, i, items).Some?
    ensures Sound(db.(evidence := LinkEvidence(db.evidence, i, items).value))
  {
    LinksRefer(db.evidence, i, items, |db.incidents|);
  }

  lemma {:induction false} FreshEvidence(links: map<(nat, nat), EvidenceRole>, i: nat, items: seq<Evidence>)
    requires (forall e :: e in links ==> e.0 != i) && ValidEvidence(items)
    ensures var r := LinkEvidence(links, i, items);
      r.Some? && forall e :: e in r.value && e.0 == i ==> exists k :: 0 <= k < |items| && items[k].event == e.1
  {
    if items != [] {
      var most, it := items[..|items| - 1], items[|items| - 1];
      FreshEvidence(links, i, most);
      var so := LinkEvidence(links, i, most).value;
      forall k | 0 <= k < |most|
        ensures most[k].event != it.event
      {
        assert items[k].event != items[|items| - 1].event;
      }
      var r := LinkEvidence(links, i, items).value;
      forall e | e in r && e.0 == i ensures exists k :: 0 <= k < |items| && items[k].event == e.1 {
        if e in so {
          var k :| 0 <= k < |most| && most[k].event == e.1;
          assert items[k].event == e.1;
        } else {
          assert items[|items| - 1].event == e.1;
        }
      }
    }
  }

  lemma {:induction false} NoneOf(ts: seq<Transition>, i: nat)
    requires forall k :: 0 <= k < |ts| ==> ts[k].incident != i
    ensures Of(ts, i) == []
  {
    if ts != [] { NoneOf(ts[..|ts| - 1], i); }
  }

  lemma {:induction false} OpenTold(db: Db, d: Db, row: Incident, t: Transition)
    requires Sound(db) && d.incidents == db.incidents + [row] && d.transitions == db.transitions + [t]
    requires t.incident == |db.incidents| && t.generation == 1 == row.generation && t.from == New && row.status == t.to
    ensures Told(d)
  {
    forall j | 0 <= j < |d.incidents| ensures Tells(Of(d.transitions, j), d.incidents[j]) {
      OfSnoc(db.transitions, t, j);
      if j < |db.incidents| {
        assert Tells(Of(db.transitions, j), db.incidents[j]);
      } else {
        NoneOf(db.transitions, j);
        assert Of(d.transitions, j) == [t];
      }
    }
  }

  function OpenedRow(s: Signal): Incident {
    Incident(s.identity, s.severity, Open, s.requiresAction, 1, s.at, s.at)
  }

  function OpeningOf(n: nat, s: Signal): Transition {
    Transition(n, 1, New, Open, "condition_detected", s.at)
  }

  /** Everything of the key so far is resolved and past. */
  predicate AllPast(incidents: seq<Incident>, key: string, at: int) {
    forall i :: 0 <= i < |incidents| && incidents[i].identity.key == key ==>
      incidents[i].status.Resolved? && incidents[i].lastObservedAt < at
  }

  lemma {:induction false} OpenShape(db: Db, s: Signal)
    requires Sound(db) && ValidSignal(s) && AllPast(db.incidents, s.identity.key, s.at)
    ensures var (d, o) := OpenIncident(db, s); var n := |db.incidents|;
      && o == Done(true, true)
      && d.incidents == db.incidents + [OpenedRow(s)] && d.transitions == db.transitions + [OpeningOf(n, s)]
      && d.outbox == db.outbox + [Alert(n, 1, Open, s.severity, s.requiresAction, s.at)]
      && (forall e :: e in d.evidence ==> e.0 < n + 1)
  {
    var n := |db.incidents|;
    assert !KeyActive(db.incidents, s.identity.key);
    assert !GenerationTaken(db.transitions, n, 1);
    FreshEvidence(db.evidence, n, s.evidence);
    LinksRefer(db.evidence, n, s.evidence, n + 1);
  }

  lemma {:induction false} OpenSuccession(incidents: seq<Incident>, s: Signal)
    requires InSuccession(incidents) && AllPast(incidents, s.identity.key, s.at)
    ensures InSuccession(incidents + [OpenedRow(s)])
  {
    var all := incidents + [OpenedRow(s)];
    forall a, b | 0 <= a < b < |all| ensures Succeeds(all[a], all[b]) {
      if b < |incidents| { assert Succeeds(incidents[a], incidents[b]); }
    }
  }

  /** A new incident is opened only after every earlier one of its key is resolved and past. */
  lemma {:induction false} OpenKeepsSound(db: Db, s: Signal)
    requires Sound(db) && ValidSignal(s) && AllPast(db.incidents, s.identity.key, s.at)
    ensures var (d, o) := OpenIncident(db, s); o == Done(true, true) && Sound(d)
  {
    OpenShape(db, s);
    var d := OpenIncident(db, s).0;
    OpenTold(db, d, OpenedRow(s), OpeningOf(|db.incidents|, s));
    AlertAnnounces(db.incidents, d.incidents, db.outbox, |db.incidents|, d.outbox[|db.outbox|]);
    OpenSuccession(db.incidents, s);
  }

  lemma {:induction false} TouchKeepsSound(db: Db, i: nat, at: int)
    requires Sound(db) && i < |db.incidents| && at >= db.incidents[i].lastObservedAt
    requires forall j ::
      0 <= j < |db.incidents| && j != i && db.incidents[j].identity.key == db.incidents[i].identity.key ==> j < i
    ensures Sound(db.(incidents := db.incidents[i := db.incidents[i].(lastObservedAt := at)]))
  {
    var d := db.(incidents := db.incidents[i := db.incidents[i].(lastObservedAt := at)]);
    forall j | 0 <= j < |d.incidents| ensures Tells(Of(d.transitions, j), d.incidents[j]) {
      assert Tells(Of(db.transitions, j), db.incidents[j]);
    }
    forall j | 0 <= j < |d.incidents| ensures Announces(LastAlert(d.outbox, j), d.incidents[j]) {
      assert Announces(LastAlert(db.outbox, j), db.incidents[j]);
    }
    MoveSuccession(db.incidents, d.incidents, i);
  }

  /** An update never fails for the log's own reasons, and keeps it sound. */
  lemma {:induction false} UpdateKeepsSound(db: Db, i: nat, s: Signal)
    requires Sound(db) && i < |db.incidents| && Active(db.incidents[i]) && s.at >= db.incidents[i].lastObservedAt
    requires forall j ::
      0 <= j < |db.incidents| && j != i && db.incidents[j].identity.key == db.incidents[i].identity.key ==> j < i
    ensures var (d, o) := UpdateIncident(db, i, s);
      Sound(d) && (o.Denied? <==> LinkEvidence(db.evidence, i, s.evidence).None?) &&
        (o.Denied? ==> o.error == EvidenceConflict && d == db)
  {
    var row := db.incidents[i];
    if LinkEvidence(db.evidence, i, s.evidence).Some? {
      EvidenceKeepsSound(db, i, s.evidence);
      var linked := db.(evidence := LinkEvidence(db.evidence, i, s.evidence).value);
      if row.severity == s.severity && row.requiresAction == s.requiresAction {
        TouchKeepsSound(linked, i, s.at);
      } else {
        var status := if row.status.Acknowledged? && Escalates(row, s) then Open else row.status;
        MoveKeepsSound(linked, i,
          row.(severity := s.severity, requiresAction := s.requiresAction, status := status, lastObservedAt := s.at),
          "condition_updated", s.at);
      }
    }
  }

  /** What can make a call fail: never the log itself. */
  predicate Refused(db: Db, c: Call) {
    match c
    case SignalCall(s) =>
      var current := Latest(db.incidents, s.identity.key);
      || !ValidSignal(s)
      || (current.Some? && db.incidents[current.value].identity != s.identity)
      || (current.Some? && Active(db.incidents[current.value]) && s.at >= db.incidents[current.value].lastObservedAt &&
          LinkEvidence(db.evidence, current.value, s.evidence).None?)
    case AckCall(key, at, evidence) =>
      var current := Latest(db.incidents, key);
      || !ValidEvidence(evidence) || (exists i :: 0 <= i < |evidence| && !evidence[i].role.Supporting?)
      || current.None? || !Active(db.incidents[current.value]) || at < db.incidents[current.value].lastObservedAt
      || LinkEvidence(db.evidence, current.value, evidence).None?
  }

  lemma {:induction false} ReconcileKeepsSound(db: Db, s: Signal)
    requires Sound(db)
    ensures var (d, o) := Reconcile(db, s);
      Sound(d) && (o.Denied? <==> Refused(db, SignalCall(s))) && (o.Denied? ==> d == db)
  {
    LatestIsLast(db.incidents, s.identity.key);
    var current := Latest(db.incidents, s.identity.key);
    if ValidSignal(s) && (current.Some? ==> db.incidents[current.value].identity == s.identity) {
      if current.None? {
        if s.condition.Detected? { OpenKeepsSound(db, s); }
      } else {
        var i := current.value;
        if !Active(db.incidents[i]) {
          if s.condition.Detected? && s.at > db.incidents[i].lastObservedAt { OpenKeepsSound(db, s); }
        } else if s.at >= db.incidents[i].lastObservedAt {
          if s.condition.Detected? { UpdateKeepsSound(db, i, s); } else { ClearKeepsSound(db, i, s); }
        }
      }
    }
  }

  lemma {:induction false} ClearKeepsSound(db: Db, i: nat, s: Signal)
    requires Sound(db) && i < |db.incidents| && Active(db.incidents[i]) && s.at >= db.incidents[i].lastObservedAt
    requires s.condition.Cleared? && db.incidents[i].identity == s.identity
    requires forall j ::
      0 <= j < |db.incidents| && j != i && db.incidents[j].identity.key == db.incidents[i].identity.key ==> j < i
    ensures var (d, o) := ReconcileCleared(db, Some(i), s);
      Sound(d) && (o.Denied? <==> LinkEvidence(db.evidence, i, s.evidence).None?) && (o.Denied? ==> d == db)
  {
    if LinkEvidence(db.evidence, i, s.evidence).Some? {
      EvidenceKeepsSound(db, i, s.evidence);
      MoveKeepsSound(db.(evidence := LinkEvidence(db.evidence, i, s.evidence).value), i,
        db.incidents[i].(status := Resolved, lastObservedAt := s.at), s.condition.resolution, s.at);
    }
  }

  lemma {:induction false} AckMoveKeepsSound(db: Db, i: nat, at: int, links: map<(nat, nat), EvidenceRole>)
    requires Sound(db.(evidence := links)) && i < |db.incidents| && db.incidents[i].status.Open?
    requires forall j ::
      0 <= j < |db.incidents| && j != i && db.incidents[j].identity.key == db.incidents[i].identity.key ==> j < i
    ensures var (d, o) := Move(db.(evidence := links), i, db.incidents[i].(status := Acknowledged),
      "operator_acknowledged", at);
      o == Done(true, true) && Sound(d)
  {
    MoveKeepsSound(db.(evidence := links), i, db.incidents[i].(status := Acknowledged), "operator_acknowledged", at);
  }

  lemma {:induction false} AckRefused(db: Db, key: string, at: int, evidence: seq<Evidence>)
    requires Refused(db, AckCall(key, at, evidence))
    ensures var (d, o) := Acknowledge(db, key, at, evidence); o.Denied? && d == db
  {
  }

  lemma {:induction false} AckShape(db: Db, key: string, at: int, evidence: seq<Evidence>)
    requires !Refused(db, AckCall(key, at, evidence))
    ensures var i := Latest(db.incidents, key).value; var links := LinkEvidence(db.evidence, i, evidence).value;
      var (d, o) := Move(db.(evidence := links), i, db.incidents[i].(status := Acknowledged), "operator_acknowledged",
        at);
      && (db.incidents[i].status.Acknowledged? ==>
        Acknowledge(db, key, at, evidence) == (db.(evidence := links), Done(true, links != db.evidence)))
      && (db.incidents[i].status.Open? && o.Done? ==> Acknowledge(db, key, at, evidence) == (d, o))
  {
  }

  lemma {:induction false} AcknowledgeKeepsSound(db: Db, key: string, at: int, evidence: seq<Evidence>)
    requires Sound(db)
    ensures var (d, o) := Acknowledge(db, key, at, evidence);
      Sound(d) && (o.Denied? <==> Refused(db, AckCall(key, at, evidence))) && (o.Denied? ==> d == db)
  {
    if Refused(db, AckCall(key, at, evidence)) {
      AckRefused(db, key, at, evidence);
    } else {
      var i := Latest(db.incidents, key).value;
      LatestIsLast(db.incidents, key);
      EvidenceKeepsSound(db, i, evidence);
      AckShape(db, key, at, evidence);
      if db.incidents[i].status.Open? { AckMoveKeepsSound(db, i, at, LinkEvidence(db.evidence, i, evidence).value); }
    }
  }

  /** A call fails exactly when it is malformed, contradicts the incident's identity or evidence, or
      acknowledges nothing; then nothing changes.  No unique key of the log is ever hit. */
  lemma {:induction false} HandleKeepsSound(db: Db, c: Call)
    requires Sound(db)
    ensures var (d, o) := Handle(db, c);
      Sound(d) && (o.Denied? <==> Refused(db, c)) && (o.Denied? ==> d == db)
  {
    match c {
      case SignalCall(s) => ReconcileKeepsSound(db, s);
      case AckCall(key, at, evidence) => AcknowledgeKeepsSound(db, key, at, evidence);
    }
  }

  /** Over every serialized history of signals and acknowledgements the log is sound. */
  lemma {:induction false} EveryHistoryIsSound(calls: seq<Call>)
    ensures Sound(Run(EmptyDb(), calls))
  {
    if calls != [] {
      EveryHistoryIsSound(calls[..|calls| - 1]);
      HandleKeepsSound(Run(EmptyDb(), calls[..|calls| - 1]), calls[|calls| - 1]);
    }
  }

  /** Each correlation key has at most one unresolved incident, and it is the latest opened; every
      incident's transitions are numbered from one, chained, and end at the resolution; every
      transition has exactly one alert. */
  lemma {:induction false} IncidentLogIntegrity(calls: seq<Call>, i: nat, j: nat)
    requires var db := Run(EmptyDb(), calls); i < |db.incidents| && j < |db.incidents|
    ensures var db := Run(EmptyDb(), calls);
      && (i != j && db.incidents[i].identity.key == db.incidents[j].identity.key && Active(db.incidents[i]) ==>
            j < i && db.incidents[j].status.Resolved? && db.incidents[j].openedAt < db.incidents[i].openedAt)
      && (Active(db.incidents[i]) ==> Latest(db.incidents, db.incidents[i].identity.key) == Some(i))
      && Tells(Of(db.transitions, i), db.incidents[i])
      && Paired(db.transitions, db.outbox) && Announces(LastAlert(db.outbox, i), db.incidents[i])
  {
    EveryHistoryIsSound(calls);
    var db := Run(EmptyDb(), calls);
    LatestIsLast(db.incidents, db.incidents[i].identity.key);
    if i < j { assert Succeeds(db.incidents[i], db.incidents[j]); }
    if j < i { assert Succeeds(db.incidents[j], db.incidents[i]); }
  }

  lemma {:induction false} UpdatedStatus(db: Db, i: nat, s: Signal)
    requires Sound(db) && i < |db.incidents| && LinkEvidence(db.evidence, i, s.evidence).Some?
    ensures var row := db.incidents[i]; var d := UpdateIncident(db, i, s).0;
      |d.incidents| == |db.incidents| && d.incidents[i].status ==
        if row.status.Acknowledged? && Escalates(row, s) then Open else row.status
  {
    NextGenerationIsFree(db, i);
  }

  lemma {:induction false} ClearedStatus(db: Db, i: nat, s: Signal)
    requires i < |db.incidents| && s.condition.Cleared?
    ensures var d := ReconcileCleared(db, Some(i), s).0;
      |d.incidents| == |db.incidents| &&
        (d.incidents[i].status == db.incidents[i].status || d.incidents[i].status.Resolved?)
  {
  }

  /** An acknowledged incident is reopened exactly by a newer signal of its own identity that
      escalates it; anything else leaves it acknowledged or resolves it. */
  lemma {:induction false} OnlyEscalationReopens(db: Db, s: Signal)
    requires Sound(db) && Latest(db.incidents, s.identity.key).Some?
    requires db.incidents[Latest(db.incidents, s.identity.key).value].status.Acknowledged?
    ensures var i := Latest(db.incidents, s.identity.key).value; var row := db.incidents[i];
      var d := Reconcile(db, s).0;
      && i < |d.incidents|
      && (d.incidents[i].status.Open? <==>
          !Refused(db, SignalCall(s)) && s.condition.Detected? && s.at >= row.lastObservedAt && Escalates(row, s))
  {
    var i := Latest(db.incidents, s.identity.key).value;
    if ValidSignal(s) && db.incidents[i].identity == s.identity && s.at >= db.incidents[i].lastObservedAt {
      if s.condition.Cleared? {
        ClearedStatus(db, i, s);
      } else if LinkEvidence(db.evidence, i, s.evidence).Some? {
        UpdatedStatus(db, i, s);
      }
    }
  }
}

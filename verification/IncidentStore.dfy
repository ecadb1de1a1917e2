/** The incident store as the object that changes rows in place, one transaction per call. */
module IncidentObject {
  import opened Facts
  import opened Incidents

  lemma {:induction false} ConflictStays(links: map<(nat, nat), EvidenceRole>, i: nat, items: seq<Evidence>, n: nat)
    requires n <= |items| && LinkEvidence(links, i, items[..n]).None?
    ensures LinkEvidence(links, i, items).None?
    decreases |items| - n
  {
    if n == |items| {
      assert items[..n] == items;
    } else {
      assert items[..n + 1][..n] == items[..n];
      ConflictStays(links, i, items, n + 1);
    }
  }

  class IncidentStore {
    var incidents: seq<Incident>
    var evidence: map<(nat, nat), EvidenceRole>
    var transitions: seq<Transition>
    var outbox: seq<Alert>

    function View(): Db
      reads this
    {
      Db(incidents, evidence, transitions, outbox)
    }

    constructor ()
      ensures View() == EmptyDb()
    {
      incidents, evidence, transitions, outbox := [], map[], [], [];
    }

    /** The newest incident of a key. */
    method LoadLatest(key: string) returns (r: Option<nat>)
      ensures r == Latest(incidents, key)
    {
      r := None;
      for i := 0 to |incidents|
        invariant r == Latest(incidents[..i], key)
      {
        assert incidents[..i + 1][..i] == incidents[..i];
        if incidents[i].identity.key == key && (r.None? || incidents[i].openedAt >= incidents[r.value].openedAt) {
          r := Some(i);
        }
      }
      assert incidents[..|incidents|] == incidents;
    }

    method Link(i: nat, items: seq<Evidence>) returns (ok: bool, changed: bool)
      modifies this`evidence
      ensures ok <==> LinkEvidence(old(evidence), i, items).Some?
      ensures ok ==> evidence == LinkEvidence(old(evidence), i, items).value
      ensures changed ==> evidence != old(evidence)
      ensures ok && !changed ==> evidence == old(evidence)
    {
      changed := false;
      for k := 0 to |items|
        invariant LinkEvidence(old(evidence), i, items[..k]) == Some(evidence)
        invariant old(evidence).Keys <= evidence.Keys
        invariant changed <==> old(evidence).Keys < evidence.Keys
        invariant !changed ==> evidence == old(evidence)
      {
        assert items[..k + 1][..k] == items[..k];
        var it := items[k];
        if (i, it.event) !in evidence {
          evidence := evidence[(i, it.event) := it.role];
          changed := true;
        } else if evidence[(i, it.event)] != it.role {
          ConflictStays(old(evidence), i, items, k + 1);
          return false, changed;
        }
      }
      assert items[..|items|] == items;
      return true, changed;
    }

    /** A transition and its alert, written together. */
    method InsertTransition(t: Transition) returns (ok: bool)
      requires t.incident < |incidents|
      modifies this`transitions, this`outbox
      ensures ok <==> Record(old(View()), t).Some?
      ensures if ok then Some(View()) == Record(old(View()), t) else View() == old(View())
    {
      for k := 0 to |transitions|
        invariant !GenerationTaken(transitions[..k], t.incident, t.generation)
      {
        if transitions[k].incident == t.incident && transitions[k].generation == t.generation {
          return false;
        }
      }
      assert transitions[..|transitions|] == transitions;
      outbox := outbox + [AlertFor(View(), t.incident, t)];
      transitions := transitions + [t];
      return true;
    }

    method Rollback(saved: Db)
      modifies this
      ensures View() == saved
    {
      incidents, evidence, transitions, outbox := saved.incidents, saved.evidence, saved.transitions, saved.outbox;
    }

    method MoveIncident(i: nat, updated: Incident, reason: string, at: int) returns (o: Outcome)
      requires i < |incidents|
      modifies this
      ensures (View(), o) == Move(old(View()), i, updated, reason, at)
    {
      var saved, before := View(), incidents[i];
      incidents := incidents[i := updated.(generation := before.generation + 1)];
      var ok := InsertTransition(Transition(i, before.generation + 1, Was(before.status), updated.status, reason, at));
      if !ok {
        Rollback(saved);
        return Denied(UniqueViolation);
      }
      return Done(true, true);
    }

    method Open(s: Signal) returns (o: Outcome)
      modifies this
      ensures (View(), o) == OpenIncident(old(View()), s)
    {
      var saved, n := View(), |incidents|;
      if KeyActive(incidents, s.identity.key) {
        return Denied(UniqueViolation);
      }
      incidents := incidents + [Incident(s.identity, s.severity, Status.Open, s.requiresAction, 1, s.at, s.at)];
      var ok := InsertTransition(Transition(n, 1, New, Status.Open, "condition_detected", s.at));
      if !ok {
        Rollback(saved);
        return Denied(UniqueViolation);
      }
      var linked, _ := Link(n, s.evidence);
      if !linked {
        Rollback(saved);
        return Denied(EvidenceConflict);
      }
      return Done(true, true);
    }

    method Update(i: nat, s: Signal) returns (o: Outcome)
      requires i < |incidents|
      modifies this
      ensures (View(), o) == UpdateIncident(old(View()), i, s)
    {
      var saved, row := View(), incidents[i];
      var linked, changed := Link(i, s.evidence);
      if !linked {
        Rollback(saved);
        return Denied(EvidenceConflict);
      }
      var observed := if s.at > row.lastObservedAt then s.at else row.lastObservedAt;
      if row.severity == s.severity && row.requiresAction == s.requiresAction {
        incidents := incidents[i := row.(lastObservedAt := observed)];
        return Done(true, changed || s.at > row.lastObservedAt);
      }
      var status := if row.status.Acknowledged? && Escalates(row, s) then Status.Open else row.status;
      o := MoveIncident(i,
        row.(severity := s.severity, requiresAction := s.requiresAction, status := status, lastObservedAt := observed),
        "condition_updated", s.at);
      if o.Denied? {
        Rollback(saved);
      }
    }

    method Clear(i: nat, s: Signal) returns (o: Outcome)
      requires i < |incidents| && s.condition.Cleared?
      modifies this
      ensures (View(), o) == ReconcileCleared(old(View()), Some(i), s)
    {
      var saved, row := View(), incidents[i];
      if row.identity != s.identity {
        return Denied(IncidentConflict);
      }
      if row.status.Resolved? || s.at < row.lastObservedAt {
        return Done(true, false);
      }
      var linked, _ := Link(i, s.evidence);
      if !linked {
        Rollback(saved);
        return Denied(EvidenceConflict);
      }
      o := MoveIncident(i, row.(status := Resolved, lastObservedAt := s.at), s.condition.resolution, s.at);
      if o.Denied? {
        Rollback(saved);
      }
    }

    method Reconcile(s: Signal) returns (o: Outcome)
      modifies this
      ensures (View(), o) == Incidents.Reconcile(old(View()), s)
    {
      if !ValidSignal(s) {
        return Denied(InvalidSignal);
      }
      var current := LoadLatest(s.identity.key);
      if s.condition.Cleared? {
        if current.None? {
          return Done(false, false);
        }
        o := Clear(current.value, s);
        return;
      }
      if current.None? {
        o := Open(s);
        return;
      }
      var row := incidents[current.value];
      if row.identity != s.identity {
        return Denied(IncidentConflict);
      }
      if row.status.Resolved? {
        if s.at <= row.lastObservedAt {
          return Done(true, false);
        }
        o := Open(s);
        return;
      }
      if s.at < row.lastObservedAt {
        return Done(true, false);
      }
      o := Update(current.value, s);
    }

    method Acknowledge(key: string, at: int, items: seq<Evidence>) returns (o: Outcome)
      modifies this
      ensures (View(), o) == Incidents.Acknowledge(old(View()), key, at, items)
    {
      if !ValidEvidence(items) || exists i :: 0 <= i < |items| && !items[i].role.Supporting? {
        return Denied(InvalidSignal);
      }
      var saved := View();
      var current := LoadLatest(key);
      if current.None? || incidents[current.value].status.Resolved? {
        return Denied(NotFound);
      }
      var row := incidents[current.value];
      if at < row.lastObservedAt {
        return Denied(InvalidSignal);
      }
      var linked, changed := Link(current.value, items);
      if !linked {
        Rollback(saved);
        return Denied(EvidenceConflict);
      }
      if row.status.Acknowledged? {
        return Done(true, changed);
      }
      o := MoveIncident(current.value, row.(status := Acknowledged), "operator_acknowledged", at);
      if o.Denied? {
        Rollback(saved);
      }
    }
  }
}

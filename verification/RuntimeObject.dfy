/** The runtime as the object that runs: publications and ticks change it in place. */
module RuntimeObject {
  import opened Facts
  import opened Acceptance
  import opened AcceptorObject
  import opened Reducer
  import opened Reduction
  import opened ReducerLoops
  import opened RuntimeModel
  import opened ReplayModel
  import opened Restart

  /** What one publication turned into. */
  datatype Report = Report(accepted: nat, duplicates: nat, conflicts: nat, stale: nat, rejected: nat, watermark: nat)

  function Tally(es: seq<Event>, o: Outcome): nat {
    if es == [] then 0
    else Tally(es[..|es| - 1], o) +
         if es[|es| - 1].decision.Decided? && es[|es| - 1].decision.outcome == o then 1 else 0
  }

  lemma TallySnoc(es: seq<Event>, e: Event, o: Outcome)
    ensures Tally(es + [e], o) == Tally(es, o) + if e.decision.Decided? && e.decision.outcome == o then 1 else 0
  {
    assert (es + [e])[..|es + [e]| - 1] == es;
  }

  /** The report counts what became of every fact of the publication. */
  predicate Counts(r: Report, es: seq<Event>, offered: nat) {
    && r.accepted == Tally(es, Accepted) && r.duplicates == Tally(es, Duplicate)
    && r.conflicts == Tally(es, Conflict) && r.stale == Tally(es, Stale)
    && r.rejected + |es| == offered
  }

  lemma CountsSnoc(r: Report, es: seq<Event>, e: Event, offered: nat)
    requires Counts(r, es, offered) && e.decision.Decided?
    ensures Counts(Counted(r, e.decision.outcome), es + [e], offered + 1)
  {
    TallySnoc(es, e, Accepted);
    TallySnoc(es, e, Duplicate);
    TallySnoc(es, e, Conflict);
    TallySnoc(es, e, Stale);
  }

  function Counted(r: Report, o: Outcome): Report {
    match o
    case Accepted => r.(accepted := r.accepted + 1)
    case Duplicate => r.(duplicates := r.duplicates + 1)
    case Conflict => r.(conflicts := r.conflicts + 1)
    case Stale => r.(stale := r.stale + 1)
  }

  /** Offering one fact, whose journal append may fail. */
  function Offered(w: World, f: Fact, domain: Domain, appends: bool): World {
    if appends || Step(w.acceptor, f, domain).1.Rejected? then Offer(w, f, domain)
    else w.(acceptor := Step(w.acceptor, f, domain).0)
  }

  function PublishedUntil(w: World, fs: seq<Fact>, domain: Domain, failing: set<nat>): (World, bool) {
    if fs == [] then (w, true)
    else
      var (v, ok), n := PublishedUntil(w, fs[..|fs| - 1], domain, failing), |fs| - 1;
      if !ok then (v, false)
      else (Offered(v, fs[n], domain, n !in failing), n !in failing || Step(v.acceptor, fs[n], domain).1.Rejected?)
  }

  lemma {:induction false} StoppedForGood(w: World, fs: seq<Fact>, domain: Domain, failing: set<nat>, n: nat)
    requires n <= |fs| && !PublishedUntil(w, fs[..n], domain, failing).1
    ensures PublishedUntil(w, fs, domain, failing) == PublishedUntil(w, fs[..n], domain, failing)
    decreases |fs| - n
  {
    if n == |fs| {
      assert fs[..n] == fs;
    } else {
      assert fs[..n + 1][..n] == fs[..n];
      StoppedForGood(w, fs, domain, failing, n + 1);
    }
  }

  lemma {:induction false} UntilNext(w: World, fs: seq<Fact>, domain: Domain, failing: set<nat>, i: nat, v: World)
    requires i < |fs| && PublishedUntil(w, fs[..i], domain, failing) == (v, true)
    ensures PublishedUntil(w, fs[..i + 1], domain, failing) ==
      (Offered(v, fs[i], domain, i !in failing), i !in failing || Step(v.acceptor, fs[i], domain).1.Rejected?)
  {
    assert fs[..i + 1][..i] == fs[..i];
  }

  lemma {:induction false} NothingFails(w: World, fs: seq<Fact>, domain: Domain)
    ensures PublishedUntil(w, fs, domain, {}) == (RuntimeModel.Publish(w, fs, domain), true)
    decreases |fs|
  {
    if fs != [] { NothingFails(w, fs[..|fs| - 1], domain); }
  }

  class Runtime {
    const boot: string
    const acceptor: Acceptor
    var snapshot: Option<Snapshot>
    var pending: seq<Event>
    var accepted: nat
    var consumed: nat
    var root: seq<Record>
    var user: seq<Record>
    var lineage: seq<Checkpoint>
    var broken: bool
    ghost var events: seq<Event>
    ghost var ticks: seq<TickEntry>

    ghost function View(): World
      reads this, acceptor
    {
      World(boot, acceptor.View(), snapshot, pending, accepted, consumed, root, user, lineage, broken, events, ticks)
    }

    /** Nothing provable was stored: an empty read model, counting on from what was issued. */
    constructor (boot: string, host: nat, fold: nat)
      ensures View() == Fresh(boot, host, fold) && fresh(acceptor)
    {
      this.boot := boot;
      acceptor := new Acceptor.FromState(State(host, fold, map[]));
      snapshot, pending, accepted, consumed := None, [], host, fold;
      root, user, lineage, broken, events, ticks := [], [], [], false, [], [];
    }

    /** Every decision that is not a rejection is journalled before it is kept for the next tick.  When the
        append fails the acceptor has moved on regardless. */
    method OfferFact(f: Fact, domain: Domain, appends: bool) returns (d: Decision)
      modifies this, acceptor
      ensures d == Step(old(acceptor.View()), f, domain).1
      ensures View() == Offered(old(View()), f, domain, appends)
      ensures events == if d.Rejected? || !appends then old(events) else old(events) + [Event(f, d)]
    {
      d := acceptor.Accept(f, domain);
      if d.Rejected? {
        NoTrace(old(acceptor.View()), f, domain);
        return;
      }
      if !appends {
        return;
      }
      var e := Event(f, d);
      if f.domain.Root? { root := root + [RecordOf(e)]; } else { user := user + [RecordOf(e)]; }
      pending := pending + [e];
      events := events + [e];
    }

    /** Stops at the first append that fails; `failing` says which would. */
    method Publish(facts: seq<Fact>, domain: Domain, failing: set<nat>) returns (report: Report, ok: bool)
      modifies this, acceptor
      ensures (View(), ok) == PublishedUntil(old(View()), facts, domain, failing)
      ensures |old(events)| <= |events| && events[..|old(events)|] == old(events)
      ensures ok ==> Counts(report, events[|old(events)|..], |facts|) && report.watermark == acceptor.host
    {
      report, ok := Report(0, 0, 0, 0, 0, 0), true;
      ghost var made: seq<Event> := [];
      for i := 0 to |facts|
        invariant ok && PublishedUntil(old(View()), facts[..i], domain, failing) == (View(), true)
        invariant events == old(events) + made && Counts(report, made, i)
      {
        UntilNext(old(View()), facts, domain, failing, i, View());
        var d := OfferFact(facts[i], domain, i !in failing);
        if d.Rejected? {
          report := report.(rejected := report.rejected + 1);
        } else if i in failing {
          StoppedForGood(old(View()), facts, domain, failing, i + 1);
          return report, false;
        } else {
          CountsSnoc(report, made, Event(facts[i], d), i);
          report := Counted(report, d.outcome);
          made := made + [Event(facts[i], d)];
        }
      }
      assert facts[..|facts|] == facts;
      assert events[|old(events)|..] == made;
      report := report.(watermark := acceptor.host);
    }

    /** An ineffective reduction, or one whose checkpoint cannot be stored, moves the model but seals
        nothing. */
    method AbsorbOutput(x: Context, id: nat, output: Output, stores: bool)
      modifies this
      ensures View() == Absorb(old(View()), x, id, output.(changed := output.changed && stores))
    {
      var seals := output.changed && stores;
      ticks := ticks + [TickEntry(|events| - |pending|, |events|, x.(boot := boot),
        snapshot.Some? && snapshot.value.boot != boot, seals)];
      if seals {
        var parent := if lineage == [] then None else Some(lineage[|lineage| - 1].id);
        var from := if output.snapshot.fold > consumed then consumed + 1 else 0;
        lineage := lineage
          + [Checkpoint(id, parent, broken, x.wake, from, output.snapshot.fold, output.snapshot, output.diff,
            output.proposals)];
        assert lineage == old(lineage) + [Seal(old(View()), id, x, output)];
        broken := false;
      } else {
        assert lineage + [] == lineage;
      }
      pending := [];
      snapshot := Some(output.snapshot);
      consumed := output.snapshot.fold;
      accepted := output.snapshot.host;
    }

    /** Folds everything published since the last reduction. */
    method Tick(x: Context, id: nat, stores: bool) returns (r: Result)
      modifies this
      ensures r == Reduce(TickInput(old(View()), x))
      ensures View() ==
        if r.Err? then old(View()) else Absorb(old(View()), x, id, r.output.(changed := r.output.changed && stores))
      ensures stores ==> View() == RuntimeModel.Tick(old(View()), x, id)
    {
      r := ReduceBatch(Input(snapshot, accepted, consumed, pending, x.(boot := boot)));
      if r.Ok? {
        assert stores ==> r.output.(changed := r.output.changed && stores) == r.output;
        AbsorbOutput(x, id, r.output, stores);
      }
    }

    /** Re-accepting the retained records past the checkpoint; refuses to start on one it would now reject. */
    method ResumeUnfolded(records: seq<Record>) returns (ok: bool)
      requires pending == []
      modifies this`pending, acceptor
      ensures ok <==> Resumed(old(acceptor.View()), records).Some?
      ensures ok ==> Resumed(old(acceptor.View()), records) == Some((acceptor.View(), pending))
    {
      for i := 0 to |records|
        invariant Resumed(old(acceptor.View()), records[..i]) == Some((acceptor.View(), pending))
      {
        assert records[..i + 1][..i] == records[..i];
        var d := acceptor.Accept(records[i].fact, records[i].fact.domain);
        if d.Rejected? {
          RefusedForGood(old(acceptor.View()), records, i + 1);
          return false;
        }
        pending := pending + [Event(records[i].fact, d)];
      }
      assert records[..|records|] == records;
      return true;
    }
  }

  lemma NoTrace(st: State, f: Fact, domain: Domain)
    requires Step(st, f, domain).1.Rejected?
    ensures Step(st, f, domain).0 == st
  {
  }

  lemma {:induction false} RefusedForGood(st: State, rs: seq<Record>, n: nat)
    requires n <= |rs| && Resumed(st, rs[..n]).None?
    ensures Resumed(st, rs).None?
    decreases |rs| - n
  {
    if n == |rs| {
      assert rs[..n] == rs;
    } else {
      assert rs[..n + 1][..n] == rs[..n];
      RefusedForGood(st, rs, n + 1);
    }
  }
}

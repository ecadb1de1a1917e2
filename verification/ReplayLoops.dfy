/** The loops verification runs over journals and lineage, each proved to compute its specification. */
module ReplayLoops {
  import opened Facts
  import opened Acceptance
  import opened AcceptorObject
  import opened Reducer
  import opened Comparison
  import opened Reduction
  import opened ReducerLoops
  import opened RuntimeModel
  import opened ReplayModel

  /** The records a link consumed, and whether they cover its range without a hole. */
  method Span(facts: seq<Record>, from: nat, to: nat) returns (kept: seq<Record>, continuous: bool)
    ensures kept == Within(facts, from, to)
    ensures continuous <==> |kept| == to - from && Continuous(kept, from)
  {
    kept := [];
    for i := 0 to |facts|
      invariant kept == Within(facts[..i], from, to)
    {
      assert facts[..i + 1][..i] == facts[..i];
      if facts[i].fold > from && facts[i].fold <= to {
        kept := kept + [facts[i]];
      }
    }
    assert facts[..|facts|] == facts;
    if |kept| != to - from {
      return kept, false;
    }
    for i := 0 to |kept|
      invariant Continuous(kept[..i], from)
    {
      if kept[i].fold != from + i + 1 {
        return kept, false;
      }
    }
    assert kept[..|kept|] == kept;
    return kept, true;
  }

  lemma {:induction false} StoppedForGood(st: State, from: nat, rs: seq<Record>, n: nat)
    requires n <= |rs| && !ReAccept(st, from, rs[..n]).Progress?
    ensures ReAccept(st, from, rs) == ReAccept(st, from, rs[..n])
    decreases |rs| - n
  {
    if n == |rs| {
      assert rs[..n] == rs;
    } else {
      assert rs[..n + 1][..n] == rs[..n];
      StoppedForGood(st, from, rs, n + 1);
    }
  }

  /** One record against a live acceptor. */
  method ReAcceptRecord(
    acceptor: Acceptor, expected: nat, events: seq<Event>, from: nat, r: Record) returns (p: Progress)
    modifies acceptor
    ensures p == ReAcceptOne(Progress(old(acceptor.View()), expected, events), from, r)
    ensures p.Progress? ==> p.state == acceptor.View()
  {
    if r.fold <= from {
      return Progress(acceptor.View(), expected, events);
    }
    if r.fold != expected + 1 {
      return Hole;
    }
    var d := acceptor.Accept(r.fact, r.fact.domain);
    if d.Rejected? {
      return Refused;
    }
    if d.outcome != r.outcome || d.host != r.host {
      return Hole;
    }
    return Progress(acceptor.View(), expected + 1, events + [Event(r.fact, d)]);
  }

  /** Re-accepts the records one by one on a live acceptor, stopping at the first disagreement. */
  method ReAcceptRecords(acceptor: Acceptor, from: nat, records: seq<Record>) returns (p: Progress)
    modifies acceptor
    ensures p == ReAccept(old(acceptor.View()), from, records)
  {
    ghost var start := acceptor.View();
    p := Progress(acceptor.View(), from, []);
    for i := 0 to |records|
      invariant p == ReAccept(start, from, records[..i]) && p.Progress? && p.state == acceptor.View()
    {
      assert records[..i + 1][..i] == records[..i];
      p := ReAcceptRecord(acceptor, p.expected, p.events, from, records[i]);
      if !p.Progress? {
        StoppedForGood(start, from, records, i + 1);
        return;
      }
    }
    assert records[..|records|] == records;
  }

  /** One link: span, replay, compare. */
  method ReproduceLink(
    c: Checkpoint, parent: Checkpoint, facts: seq<Record>, policies: seq<ComponentPolicy>) returns (v: LinkStatus)
    ensures v == Reproduce(c, parent, facts, policies)
  {
    var kept, continuous := Span(facts, parent.consumedTo, c.consumedTo);
    if !continuous {
      return Unreplayable;
    }
    var acceptor := Acceptor.Restore(RestoredState(parent.snapshot));
    if acceptor == null {
      return Unreplayable;
    }
    var p := ReAcceptRecords(acceptor, parent.consumedTo, kept);
    if !p.Progress? {
      return Unreplayable;
    }
    var r := ReduceBatch(Input(Some(parent.snapshot), 0, 0, p.events, RecordedContext(c, policies)));
    return Compared(c, Concluded(r));
  }

  datatype Link = Link(id: nat, status: LinkStatus)

  function CountOf(links: seq<Link>, v: LinkStatus): nat {
    if links == [] then 0 else CountOf(links[..|links| - 1], v) + if links[|links| - 1].status == v then 1 else 0
  }

  lemma CountOfSnoc(links: seq<Link>, x: Link, v: LinkStatus)
    ensures CountOf(links + [x], v) == CountOf(links, v) + if x.status == v then 1 else 0
  {
    assert (links + [x])[..|links + [x]| - 1] == links;
  }

  /** Index entries whose record cannot be loaded: reported, never fatal. */
  function Unloadable(index: seq<nat>, held: map<nat, Checkpoint>): seq<Link> {
    if index == [] then []
    else
      var id := index[|index| - 1];
      Unloadable(index[..|index| - 1], held) + if id in held then [] else [Link(id, Unreplayable)]
  }

  /** Every other entry's verdict, in index order. */
  function Judged(
    index: seq<nat>, held: map<nat, Checkpoint>, facts: seq<Record>, policies: seq<ComponentPolicy>): seq<Link> {
    if index == [] then []
    else
      var id := index[|index| - 1];
      Judged(index[..|index| - 1], held, facts, policies) +
      if id in held then [Link(id, LinkVerdict(held[id], held, facts, policies))] else []
  }

  datatype Totals = Totals(reproduced: nat, diverged: nat, unreplayable: nat)

  predicate Totalled(t: Totals, links: seq<Link>) {
    && t.reproduced == CountOf(links, Reproduced)
    && t.diverged == CountOf(links, Diverged)
    && t.unreplayable == CountOf(links, Unreplayable)
  }

  method Tallied(t: Totals, links: seq<Link>, link: Link) returns (u: Totals)
    requires Totalled(t, links)
    ensures Totalled(u, links + [link])
  {
    CountOfSnoc(links, link, Reproduced);
    CountOfSnoc(links, link, Diverged);
    CountOfSnoc(links, link, Unreplayable);
    match link.status {
      case Reproduced => u := t.(reproduced := t.reproduced + 1);
      case Diverged => u := t.(diverged := t.diverged + 1);
      case Unreplayable => u := t.(unreplayable := t.unreplayable + 1);
      case Genesis => u := t;
      case BrokenOff => u := t;
    }
  }

  method JudgeLink(
    c: Checkpoint, held: map<nat, Checkpoint>, facts: seq<Record>, policies: seq<ComponentPolicy>)
    returns (v: LinkStatus)
    ensures v == LinkVerdict(c, held, facts, policies)
  {
    if c.parent.None? {
      return if c.broken then BrokenOff else Genesis;
    }
    if c.parent.value !in held {
      return Unreplayable;
    }
    v := ReproduceLink(c, held[c.parent.value], facts, policies);
  }

  method ReportUnloadable(index: seq<nat>, held: map<nat, Checkpoint>) returns (links: seq<Link>, totals: Totals)
    ensures links == Unloadable(index, held) && Totalled(totals, links)
  {
    links, totals := [], Totals(0, 0, 0);
    for i := 0 to |index|
      invariant links == Unloadable(index[..i], held) && Totalled(totals, links)
    {
      assert index[..i + 1][..i] == index[..i];
      if index[i] !in held {
        totals := Tallied(totals, links, Link(index[i], Unreplayable));
        links := links + [Link(index[i], Unreplayable)];
      }
    }
    assert index[..|index|] == index;
  }

  method JudgeHeld(index: seq<nat>, held: map<nat, Checkpoint>, facts: seq<Record>, policies: seq<ComponentPolicy>)
    returns (links: seq<Link>)
    ensures links == Judged(index, held, facts, policies)
  {
    links := [];
    for i := 0 to |index|
      invariant links == Judged(index[..i], held, facts, policies)
    {
      assert index[..i + 1][..i] == index[..i];
      if index[i] in held {
        var v := JudgeLink(held[index[i]], held, facts, policies);
        links := links + [Link(index[i], v)];
      }
    }
    assert index[..|index|] == index;
  }

  method TallyAll(t: Totals, links: seq<Link>, more: seq<Link>) returns (u: Totals)
    requires Totalled(t, links)
    ensures Totalled(u, links + more)
  {
    u := t;
    assert links + more[..0] == links;
    for i := 0 to |more|
      invariant Totalled(u, links + more[..i])
    {
      assert links + more[..i + 1] == (links + more[..i]) + [more[i]];
      u := Tallied(u, links + more[..i], more[i]);
    }
    assert more[..|more|] == more;
  }

  /** The whole lineage: a verdict for every index entry, and their totals. */
  method VerifyLineage(index: seq<nat>, held: map<nat, Checkpoint>, facts: seq<Record>, policies: seq<ComponentPolicy>)
    returns (links: seq<Link>, totals: Totals)
    ensures links == Unloadable(index, held) + Judged(index, held, facts, policies)
    ensures Totalled(totals, links)
  {
    links, totals := ReportUnloadable(index, held);
    var judged := JudgeHeld(index, held, facts, policies);
    totals := TallyAll(totals, links, judged);
    links := links + judged;
  }
}

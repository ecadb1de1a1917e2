/** The history of decisions as the reference for what the acceptor's bounded state means.
    Nothing here reads the acceptor's state: every notion is defined from the decisions alone. */
module History {
  import opened Facts
  import opened Acceptance

  /** The boot a source most recently spoke from. */
  function LastBoot(es: seq<Event>, src: SourceId): Option<string> {
    if es == [] then None
    else if es[|es| - 1].fact.source == src then Some(es[|es| - 1].fact.boot)
    else LastBoot(es[..|es| - 1], src)
  }

  /** Every fact of the source's current boot that was ever accepted, in order. */
  function Stream(es: seq<Event>, src: SourceId): seq<Fact> {
    if es == [] then []
    else
      var e, before := es[|es| - 1], es[..|es| - 1];
      if e.fact.source != src || !IsAccepted(e) then Stream(before, src)
      else if LastBoot(before, src) == Some(e.fact.boot) then Stream(before, src) + [e.fact]
      else [e.fact]
  }

  predicate SpokeAt(fs: seq<Fact>, sequence: nat) {
    exists i :: 0 <= i < |fs| && fs[i].sequence == sequence
  }

  function LastSequence(fs: seq<Fact>): nat {
    if fs == [] then 0 else fs[|fs| - 1].sequence
  }

  /** An accepted fact that skips past the source's previous one in the same boot. */
  predicate SkipsAhead(es: seq<Event>, e: Event, src: SourceId) {
    && LastBoot(es, src) == Some(e.fact.boot)
    && Stream(es, src) != []
    && e.fact.sequence > LastSequence(Stream(es, src)) + 1
  }

  predicate Reboots(es: seq<Event>, e: Event, src: SourceId) {
    LastBoot(es, src).Some? && LastBoot(es, src) != Some(e.fact.boot)
  }

  /** After `es`, event `e` is where the source stops being provably continuous:
      a hole, a reused identity, or a new boot. */
  predicate Breaks(es: seq<Event>, e: Event, src: SourceId) {
    && e.fact.source == src
    && e.decision.Decided?
    && (e.decision.outcome.Conflict? || (IsAccepted(e) && (Reboots(es, e, src) || SkipsAhead(es, e, src))))
  }

  /** The source restated one component in full. */
  predicate Restates(e: Event, src: SourceId, c: Component) {
    IsAccepted(e) && e.fact.source == src && e.fact.baseline && e.fact.component == c
  }

  /** Some break was never followed by a restatement of this component. */
  ghost predicate Owes(es: seq<Event>, src: SourceId, c: Component) {
    exists k :: 0 <= k < |es| && Breaks(es[..k], es[k], src) && NotRestatedFrom(es, k, src, c)
  }

  predicate NotRestatedFrom(es: seq<Event>, k: nat, src: SourceId, c: Component) {
    forall j :: k <= j < |es| ==> !Restates(es[j], src, c)
  }

  ghost function Debt(es: seq<Event>, src: SourceId): set<Component> {
    set c | c in Declared(src) && Owes(es, src, c)
  }

  /** The baseline that pays the last of a debt. */
  ghost predicate Discharges(es: seq<Event>, e: Event, src: SourceId) {
    && IsAccepted(e) && e.fact.source == src && e.fact.baseline
    && (Debt(es, src) != {} || Breaks(es, e, src))
    && Debt(es + [e], src) == {}
  }

  /** The accepted facts from the last discharge, or from the boot's first fact, onward. */
  ghost function Since(es: seq<Event>, src: SourceId): seq<Fact> {
    if es == [] then []
    else
      var e, before := es[|es| - 1], es[..|es| - 1];
      if e.fact.source != src || !IsAccepted(e) then Since(before, src)
      else if LastBoot(before, src) != Some(e.fact.boot) || Discharges(before, e, src) then [e.fact]
      else Since(before, src) + [e.fact]
  }

  /** How many identities were reused since the last discharge or boot. */
  ghost function Reuses(es: seq<Event>, src: SourceId): nat {
    if es == [] then 0
    else
      var e, before := es[|es| - 1], es[..|es| - 1];
      if e.fact.source != src || !e.decision.Decided? then Reuses(before, src)
      else if e.decision.outcome.Conflict? then Reuses(before, src) + 1
      else if IsAccepted(e) && (LastBoot(before, src) != Some(e.fact.boot) || Discharges(before, e, src)) then 0
      else Reuses(before, src)
  }

  /** Every hole between consecutive facts, with no bound on how many. */
  function Holes(fs: seq<Fact>): seq<Gap> {
    if |fs| < 2 then []
    else
      var a, b := fs[|fs| - 2].sequence, fs[|fs| - 1].sequence;
      Holes(fs[..|fs| - 1]) + (if b > a + 1 then [Gap(a + 1, b - 1)] else [])
  }

  function Digests(fs: seq<Fact>): seq<Remembered> {
    seq(|fs|, i requires 0 <= i < |fs| => Remembered(fs[i].sequence, fs[i].digest))
  }

  /** Sequences are positive and strictly rising. */
  predicate Ascending(fs: seq<Fact>) {
    if fs == [] then true
    else LastSequence(fs[..|fs| - 1]) < LastSequence(fs) && Ascending(fs[..|fs| - 1])
  }

  /** An acceptor that remembers every accepted fact of the boot would answer this. */
  function FullMemoryOutcome(es: seq<Event>, f: Fact): Outcome {
    var stream := Stream(es, f.source);
    if LastBoot(es, f.source) != Some(f.boot) || f.sequence > LastSequence(stream) then Accepted
    else match Find(stream, f.sequence)
      case None => Stale
      case Some(i) => if stream[i].digest == f.digest then Duplicate else Conflict
  }

  function Find(fs: seq<Fact>, sequence: nat): (r: Option<nat>)
    ensures r.Some? ==> r.value < |fs| && fs[r.value].sequence == sequence
    ensures r.None? ==> !SpokeAt(fs, sequence)
  {
    if fs == [] then None
    else if fs[|fs| - 1].sequence == sequence then Some(|fs| - 1)
    else Find(fs[..|fs| - 1], sequence)
  }

  // ----- Runs -----

  /** Anything else is rejected and changes nothing. */
  predicate Admissible(f: Fact) {
    ValidFact(f) && Classify(f, f.domain).Speaks?
  }

  predicate AllAdmissible(fs: seq<Fact>) {
    forall i :: 0 <= i < |fs| ==> Admissible(fs[i])
  }

  function Run(start: State, fs: seq<Fact>): (r: (State, seq<Event>))
    ensures |r.1| == |fs|
    ensures forall i :: 0 <= i < |fs| ==> r.1[i].fact == fs[i]
  {
    if fs == [] then (start, [])
    else
      var f := fs[|fs| - 1];
      var (st, es) := Run(start, fs[..|fs| - 1]);
      var (st', d) := Step(st, f, f.domain);
      (st', es + [Event(f, d)])
  }

  lemma RejectedChangesNothing(st: State, f: Fact, domain: Domain)
    ensures Step(st, f, domain).1.Rejected? <==> !Admissible(f) || domain != f.domain
    ensures Step(st, f, domain).1.Rejected? ==> Step(st, f, domain).0 == st
  {
  }

  lemma {:induction false} RunConcat(start: State, a: seq<Fact>, b: seq<Fact>)
    ensures var (mid, es) := Run(start, a);
      Run(start, a + b) == (Run(mid, b).0, es + Run(mid, b).1)
    decreases |b|
  {
    if b == [] {
      assert a + b == a;
      var (mid, es) := Run(start, a);
      assert es + [] == es;
    } else {
      var (mid, es) := Run(start, a);
      var (st, tail) := Run(mid, b[..|b| - 1]);
      RunConcat(start, a, b[..|b| - 1]);
      assert (a + b)[..|a + b| - 1] == a + b[..|b| - 1];
      var last := [Event(b[|b| - 1], Step(st, b[|b| - 1], b[|b| - 1].domain).1)];
      assert (es + tail) + last == es + (tail + last);
    }
  }
}

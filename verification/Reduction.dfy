/** One whole reduction: validation, fold, rendering, authorization, generation, diff. */
module Reduction {
  import opened Facts
  import opened Acceptance
  import opened Reducer
  import opened Comparison

  /** The time and policy context of one reduction. */
  datatype Context = Context(
    boot: string, tick: int, wake: Option<int>, policy: Policy, policies: seq<ComponentPolicy>)

  datatype Input = Input(
    prior: Option<Snapshot>, priorHost: nat, priorFold: nat, events: seq<Event>, context: Context)

  datatype Output = Output(
    snapshot: Snapshot, diff: Diff, proposals: map<Component, Proposal>, changed: bool)

  datatype Error = InvalidInput | OutOfOrder | InvalidSnapshot
  datatype Result = Ok(output: Output) | Err(error: Error)

  predicate ValidContext(x: Context) {
    x.boot != "" && x.tick > 0 && (x.wake.Some? ==> x.wake.value > 0)
  }

  /** A prior snapshot already states what it consumed, and time may not run backwards in one boot. */
  predicate ContinuesFrom(prior: Snapshot, priorHost: nat, priorFold: nat, x: Context) {
    && (priorHost != 0 ==> priorHost == prior.host)
    && (priorFold != 0 ==> priorFold == prior.fold)
    && ValidSnapshot(prior)
    && (prior.boot == x.boot ==> prior.tick <= x.tick)
  }

  predicate Foldable(es: seq<Event>) {
    forall i :: 0 <= i < |es| ==> ValidFact(es[i].fact) && es[i].decision.Decided?
  }

  predicate ValidInput(input: Input) {
    && ValidContext(input.context)
    && (input.prior.Some? ==> ContinuesFrom(input.prior.value, input.priorHost, input.priorFold, input.context))
    && Foldable(input.events)
  }

  function StartTables(input: Input): (t: Tables)
    requires ValidInput(input)
    ensures AllKnown(t)
  {
    if input.prior.Some? then TablesOf(input.prior.value) else EmptyTables(input.priorHost, input.priorFold)
  }

  /** Whether this reduction withdraws the assumption that observations survived. */
  predicate Withdraws(prior: Option<Snapshot>, x: Context) {
    x.wake.Some? || (prior.Some? && prior.value.boot != x.boot)
  }

  function Observed(t: Tables): set<Component> {
    set c: Component | c in t.components && TimeSensitive(c) && t.components[c].host > 0
  }

  function Mark(t: Tables, cs: set<Component>): (m: Tables)
    requires AllKnown(t)
    ensures AllKnown(m)
  {
    t.(components := map c: Component :: if c in cs then t.components[c].(rebaseline := true) else t.components[c])
  }

  /** What a wake or a reboot holds stale until its owner restates it: it runs before the batch. */
  function MarkedStart(input: Input): (t: Tables)
    requires ValidInput(input)
    ensures AllKnown(t)
  {
    var t := StartTables(input);
    if Withdraws(input.prior, input.context) then Mark(t, Observed(t)) else t
  }

  function SnapshotOf(t: Tables, x: Context, authorization: Authorization, generation: nat): (s: Snapshot)
    requires AllKnown(t)
    ensures Complete(s)
  {
    var components := RenderComponents(t, x.boot, x.tick);
    Snapshot(generation, x.boot, x.tick, x.policy, authorization, t.host, t.fold, components, t.sources,
      Retain(t.conflicts), Summarize(components, t.sources, authorization, Evicts(t.conflicts)))
  }

  /** What the conclusion reads of the prior snapshot: its projection and its generation. */
  datatype Before = Before(seen: Semantic, generation: nat)

  function View(prior: Option<Snapshot>): Option<Before> {
    if prior.Some? then Some(Before(Project(prior.value), prior.value.generation)) else None
  }

  /** Everything after the fold.  A reduction that changes nothing leaves the generation alone. */
  function Conclude(t: Tables, x: Context, before: Option<Before>): Result
    requires AllKnown(t)
  {
    var authorization := Authorize(x.policy, if before.Some? then Some(before.value.seen.policy) else None);
    var draft := SnapshotOf(t, x, authorization, 0);
    var changed := before.None? || before.value.seen != Project(draft);
    var generation := (if before.Some? then before.value.generation else 0) + if changed then 1 else 0;
    var snapshot := draft.(generation := generation);
    if !ValidSnapshot(snapshot) then Err(InvalidSnapshot)
    else match Desire(x.policy, x.policies)
      case None => Err(InvalidInput)
      case Some(desired) =>
        var diff := Compare(snapshot, desired, if before.Some? then Some(before.value.seen) else None);
        Ok(Output(snapshot, diff, Propose(snapshot, diff), changed))
  }

  function Reduce(input: Input): Result {
    if !ValidInput(input) then Err(InvalidInput)
    else match Fold(MarkedStart(input), input.events)
      case None => Err(OutOfOrder)
      case Some(t) => Conclude(t, input.context, View(input.prior))
  }
}

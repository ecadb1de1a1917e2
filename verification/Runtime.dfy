/** The read model's runtime as a state machine: publications and ticks over an acceptor, a snapshot,
    two journals and a sealed lineage. */
module RuntimeModel {
  import opened Facts
  import opened Acceptance
  import opened Reducer
  import opened Comparison
  import opened Reduction

  /** One journalled event.  `host` is zero for an event that never entered the accepted order. */
  datatype Record = Record(host: nat, fold: nat, outcome: Outcome, role: Role, fact: Fact)

  function RecordOf(e: Event): Record
    requires e.decision.Decided?
  {
    Record(e.decision.host, e.decision.fold, e.decision.outcome, e.decision.role, e.fact)
  }

  /** One link of the lineage; `broken` when it abandons a lineage that could not be proved.  Outputs
      stand for their canonical digests. */
  datatype Checkpoint = Checkpoint(
    id: nat,
    parent: Option<nat>,
    broken: bool,
    wake: Option<int>,
    consumedFrom: nat,
    consumedTo: nat,
    snapshot: Snapshot,
    diff: Diff,
    proposals: map<Component, Proposal>)

  /** What one reduction of the run was given, kept for stating what the run did; `rebooted` when the
      snapshot it started from was of another boot. */
  datatype TickEntry = TickEntry(before: int, after: nat, context: Context, rebooted: bool, sealed: bool)

  /** The runtime, its durable journals and lineage, and the history of the run. */
  datatype World = World(
    boot: string,
    acceptor: State,
    snapshot: Option<Snapshot>,
    pending: seq<Event>,
    accepted: nat,
    consumed: nat,
    root: seq<Record>,
    user: seq<Record>,
    lineage: seq<Checkpoint>,
    broken: bool,
    events: seq<Event>,
    ticks: seq<TickEntry>)

  /** A runtime that resumed nothing.  After an unrecoverable lineage it continues above the numbers
      already issued, so `host` and `fold` need not be zero. */
  function Fresh(boot: string, host: nat, fold: nat): World {
    World(boot, State(host, fold, map[]), None, [], host, fold, [], [], [], false, [], [])
  }

  function Journalled(w: World, e: Event): World
    requires e.decision.Decided?
  {
    var w' := w.(pending := w.pending + [e], events := w.events + [e]);
    if e.fact.domain.Root? then w'.(root := w.root + [RecordOf(e)]) else w'.(user := w.user + [RecordOf(e)])
  }

  /** Offering one fact: a rejected one leaves no trace, every other decision is journalled and kept. */
  function Offer(w: World, f: Fact, domain: Domain): World {
    var (st, d) := Step(w.acceptor, f, domain);
    if d.Rejected? then w else Journalled(w.(acceptor := st), Event(f, d))
  }

  function Publish(w: World, fs: seq<Fact>, domain: Domain): World {
    if fs == [] then w
    else Offer(Publish(w, fs[..|fs| - 1], domain), fs[|fs| - 1], domain)
  }

  function TickInput(w: World, x: Context): Input {
    Input(w.snapshot, w.accepted, w.consumed, w.pending, x.(boot := w.boot))
  }

  /** A checkpoint that folded nothing records an absent range. */
  function Seal(w: World, id: nat, x: Context, output: Output): Checkpoint {
    var s := output.snapshot;
    Checkpoint(id, if w.lineage == [] then None else Some(w.lineage[|w.lineage| - 1].id), w.broken, x.wake,
      if s.fold > w.consumed then w.consumed + 1 else 0, s.fold, s, output.diff, output.proposals)
  }

  /** The runtime after a reduction; only an effective one is sealed. */
  function Absorb(w: World, x: Context, id: nat, output: Output): World {
    w.(snapshot := Some(output.snapshot), pending := [],
       accepted := output.snapshot.host, consumed := output.snapshot.fold,
       lineage := w.lineage + if output.changed then [Seal(w, id, x, output)] else [],
       broken := w.broken && !output.changed,
       ticks := w.ticks + [TickEntry(|w.events| - |w.pending|, |w.events|, x.(boot := w.boot),
         w.snapshot.Some? && w.snapshot.value.boot != w.boot, output.changed)])
  }

  /** Folding everything published since the last reduction. */
  function Tick(w: World, x: Context, id: nat): World {
    match Reduce(TickInput(w, x))
    case Err(_) => w
    case Ok(output) => Absorb(w, x, id, output)
  }

  datatype Operation = PublishOp(facts: seq<Fact>, domain: Domain) | TickOp(context: Context, id: nat)

  function Perform(w: World, op: Operation): World {
    match op
    case PublishOp(fs, domain) => Publish(w, fs, domain)
    case TickOp(x, id) => Tick(w, x, id)
  }

  function Execute(w: World, ops: seq<Operation>): World {
    if ops == [] then w else Perform(Execute(w, ops[..|ops| - 1]), ops[|ops| - 1])
  }

  // ----- Restoring the acceptor -----

  function States(sources: map<SourceId, Watermark>): map<SourceId, SourceState> {
    map id | id in sources :: sources[id].state
  }

  /** The acceptance position a snapshot's watermarks record. */
  function RestoredState(s: Snapshot): State {
    State(s.host, s.fold, States(s.sources))
  }
}

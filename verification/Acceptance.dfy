/** What one arrival means: the decision rule of the acceptor, as a function on its durable state. */
module Acceptance {
  import opened Facts

  /** How many accepted facts per source keep their digest. */
  const RETRY_WINDOW: nat := 64
  /** How many separate holes one source may hold before the overflow becomes the visible fact. */
  const MAX_GAP_RANGES: nat := 64
  const UINT32: nat := 0x1_0000_0000

  /** An inclusive run of source sequences that never arrived. */
  datatype Gap = Gap(from: nat, to: nat)

  datatype Remembered = Remembered(sequence: nat, digest: nat)

  /** One source's position in its own stream, and its integrity. */
  datatype SourceState = SourceState(
    boot: string,
    last: nat,
    recent: seq<Remembered>,
    gaps: seq<Gap>,
    overflow: bool,
    pending: set<Component>,
    conflicts: nat)

  datatype State = State(host: nat, fold: nat, sources: map<SourceId, SourceState>)

  datatype Outcome = Accepted | Duplicate | Conflict | Stale

  datatype Reason =
    | NoReason | InvalidFact | Ownership | CrossesDomain | ExactRetry | IdentityReused
    | BehindWatermark | BeyondRetry | SequenceGap | BootChanged | BaselineAccepted | BaselinePending

  datatype Decision =
    | Rejected(reason: Reason)
    | Decided(
        outcome: Outcome,
        reason: Reason,
        role: Role,
        digest: nat,
        host: nat,
        fold: nat,
        hole: Option<Gap>,
        cleared: seq<Gap>,
        source: SourceState)

  /** One arrival paired with what was decided about it. */
  datatype Event = Event(fact: Fact, decision: Decision)

  predicate IsAccepted(e: Event) {
    e.decision.Decided? && e.decision.outcome.Accepted?
  }

  function FirstContact(boot: string): SourceState {
    SourceState(boot, 0, [], [], false, {}, 0)
  }

  /** A new boot is a new stream, and every declared component owes a restatement. */
  function NewBoot(boot: string, source: SourceId): SourceState {
    FirstContact(boot).(pending := Declared(source))
  }

  predicate InGap(gaps: seq<Gap>, sequence: nat) {
    exists i :: 0 <= i < |gaps| && gaps[i].from <= sequence <= gaps[i].to
  }

  /** Insertion keeping gaps ordered by their first sequence. */
  function InsertGap(gaps: seq<Gap>, g: Gap): seq<Gap> {
    if gaps == [] || gaps[|gaps| - 1].from <= g.from then gaps + [g]
    else InsertGap(gaps[..|gaps| - 1], g) + [gaps[|gaps| - 1]]
  }

  function SortGaps(gaps: seq<Gap>): seq<Gap> {
    if gaps == [] then [] else InsertGap(SortGaps(gaps[..|gaps| - 1]), gaps[|gaps| - 1])
  }

  function OwesAll(s: SourceState, source: SourceId): SourceState {
    s.(pending := s.pending + Declared(source))
  }

  function RecordGap(s: SourceState, g: Gap, source: SourceId): SourceState {
    var gaps := SortGaps(s.gaps + [g]);
    OwesAll(s.(gaps := LastN(gaps, MAX_GAP_RANGES), overflow := s.overflow || |gaps| > MAX_GAP_RANGES), source)
  }

  predicate OpensGap(s: SourceState, f: Fact) {
    s.last > 0 && f.sequence > s.last + 1
  }

  /** The source once the hole behind this fact, if there is one, has been recorded. */
  function Held(s: SourceState, f: Fact): SourceState {
    if OpensGap(s, f) then RecordGap(s, Gap(s.last + 1, f.sequence - 1), f.source) else s
  }

  predicate Settles(s: SourceState, f: Fact) {
    f.baseline && s.pending != {}
  }

  predicate Clears(s: SourceState, f: Fact) {
    Settles(s, f) && s.pending - {f.component} == {}
  }

  /** Only a complete restatement pays off debt; the holes close when the last share is paid. */
  function Settled(s: SourceState, f: Fact): SourceState {
    if Clears(s, f) then s.(pending := {}, gaps := [], overflow := false, conflicts := 0)
    else if Settles(s, f) then s.(pending := s.pending - {f.component})
    else s
  }

  function Advanced(s: SourceState, f: Fact): SourceState {
    s.(last := f.sequence, recent := LastN(s.recent + [Remembered(f.sequence, f.digest)], RETRY_WINDOW))
  }

  datatype Admission = Admission(after: SourceState, reason: Reason, hole: Option<Gap>, cleared: seq<Gap>)

  /** A fact that advances its source's stream. */
  function Admit(s: SourceState, f: Fact): Admission {
    var held := Held(s, f);
    Admission(
      Advanced(Settled(held, f), f),
      if Clears(held, f) then BaselineAccepted
      else if OpensGap(s, f) then SequenceGap
      else if Settles(held, f) then BaselinePending
      else NoReason,
      if OpensGap(s, f) then Some(Gap(s.last + 1, f.sequence - 1)) else None,
      if Clears(held, f) then held.gaps else [])
  }

  /** The first remembered arrival that claimed this sequence. */
  function Recall(recent: seq<Remembered>, sequence: nat): Option<Remembered> {
    if recent == [] then None
    else if recent[0].sequence == sequence then Some(recent[0])
    else Recall(recent[1..], sequence)
  }

  datatype Replayed = Replayed(after: SourceState, outcome: Outcome, reason: Reason)

  /** A fact that does not advance its source's stream. */
  function Replay(s: SourceState, f: Fact): Replayed {
    match Recall(s.recent, f.sequence)
    case Some(entry) =>
      if entry.digest == f.digest then Replayed(s, Duplicate, ExactRetry)
      else Replayed(OwesAll(s.(conflicts := (s.conflicts + 1) % UINT32), f.source), Conflict, IdentityReused)
    case None =>
      Replayed(s, Stale, if InGap(s.gaps, f.sequence) then BehindWatermark else BeyondRetry)
  }

  function Entering(st: State, f: Fact): SourceState {
    if f.source in st.sources then st.sources[f.source] else FirstContact(f.boot)
  }

  function Decide(st: State, f: Fact, role: Role): (State, Decision) {
    var s := Entering(st, f);
    if s.boot != f.boot || f.sequence > s.last then
      var reboot := s.boot != f.boot;
      var a := Admit(if reboot then NewBoot(f.boot, f.source) else s, f);
      var reason := if reboot && (a.reason.NoReason? || a.reason.SequenceGap?) then BootChanged else a.reason;
      (State(st.host + 1, st.fold + 1, st.sources[f.source := a.after]),
       Decided(Accepted, reason, role, f.digest, st.host + 1, st.fold + 1, a.hole, a.cleared, a.after))
    else
      var r := Replay(s, f);
      (State(st.host, st.fold + 1, st.sources[f.source := r.after]),
       Decided(r.outcome, r.reason, role, f.digest, 0, st.fold + 1, None, [], r.after))
  }

  /** The whole decision: malformed facts and facts outside the ownership envelope change nothing. */
  function Step(st: State, f: Fact, domain: Domain): (State, Decision) {
    if !ValidFact(f) then (st, Rejected(InvalidFact))
    else match Classify(f, domain)
      case DomainMismatch => (st, Rejected(CrossesDomain))
      case NotDeclared => (st, Rejected(Ownership))
      case Speaks(role) => Decide(st, f, role)
  }

  /** What a restored state must satisfy before an acceptor resumes from it. */
  predicate ValidSource(s: SourceState, source: SourceId) {
    && |s.recent| <= RETRY_WINDOW
    && |s.gaps| <= MAX_GAP_RANGES
    && (forall i :: 0 <= i < |s.recent| ==> s.recent[i].sequence <= s.last)
    && (forall i :: 0 < i < |s.recent| ==> s.recent[i - 1].sequence < s.recent[i].sequence)
    && (forall i :: 0 <= i < |s.gaps| ==> 0 < s.gaps[i].from <= s.gaps[i].to)
    && (s.gaps != [] ==> s.pending != {})
    && s.pending <= Declared(source)
  }

  predicate ValidState(st: State) {
    forall id :: id in st.sources ==> ValidSource(st.sources[id], id)
  }
}

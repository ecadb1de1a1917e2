/** Whole lives of a runtime: publications, ticks, appends that fail, and starting again - from any
    checkpoint startup can still prove, or from nothing - in the same boot or another. */
module Lives {
  import opened Facts
  import opened Acceptance
  import opened History
  import opened Reducer
  import opened Reduction
  import opened RuntimeModel
  import opened RuntimeTheorems
  import opened Readiness
  import opened ReplayModel
  import opened ReplayTheorems
  import opened Restart
  import opened Issued

  /** Where a journal holds a record. */
  datatype Place = Place(domain: Domain, index: nat)

  function JournalOf(w: World, d: Domain): seq<Record> {
    if d.Root? then w.root else w.user
  }

  /** What one reduction of the life took for granted: whether it withdrew earlier observations, which
      components owners had spoken for by then, and which records had been folded. */
  datatype Pass = Pass(withdrew: bool, seen: set<Component>, known: set<Place>)

  /** A history: where it begins, what it led to, the journal place each of its decisions was made for,
      and which reductions of the life its reductions are. */
  datatype Chapter = Chapter(start: State, world: World, places: seq<Place>, passes: seq<nat>)

  /** Decisions past one that was lost: the acceptor has moved on, and what it decided since waits. */
  datatype Drift = Drift(acceptor: State, pending: seq<Event>)

  /** `now`: the history without what was lost.  `anchor`: the chapter of the checkpoint the runtime would
      continue.  `shelf`: the chapters of every checkpoint that ever became visible.  `accepting`: the
      store takes what continues the anchor.  `lineal`: every change since the anchor is stored.
      `intact`: no append was ever lost.  `all`: every reduction of the life, none forgotten. */
  datatype Life = Life(
    now: Chapter,
    drift: Option<Drift>,
    anchor: Option<Chapter>,
    shelf: seq<Chapter>,
    accepting: bool,
    lineal: bool,
    intact: bool,
    all: seq<Pass>)

  /** What becomes of a checkpoint: stored; not stored; or visible to the next start although storing it
      reported an error. */
  datatype Keeping = Stored | Unstored | Visible

  /** `from` is the checkpoint startup resumes, as a place on the shelf, or none; `accepts` whether the
      store then takes what continues it; `records` what the journals hold past it, as some sort by host
      sequence left it, and `places` where. */
  datatype Act =
    | PublishAct(facts: seq<Fact>, domain: Domain)
    | LoseAppend(fact: Fact, domain: Domain)
    | TickAct(context: Context, id: nat, keeping: Keeping)
    | StartAgain(boot: string, from: Option<nat>, accepts: bool, records: seq<Record>, places: seq<Place>)

  /** What the runtime holds. */
  function Running(l: Life): World {
    if l.drift.None? then l.now.world
    else
      var w, d := l.now.world, l.drift.value;
      w.(acceptor := d.acceptor, pending := w.pending + d.pending, events := w.events + d.pending)
  }

  /** Whether anything was decided past a lost decision. */
  predicate Adrift(l: Life) {
    l.drift.Some? && l.drift.value.pending != []
  }

  // ----- Publications -----

  /** The places a publication wrote to: one journal, one after the other. */
  function NewPlaces(w: World, v: World, d: Domain): seq<Place> {
    var n := |v.events| - |w.events|;
    seq(if n < 0 then 0 else n, i requires i >= 0 => Place(d, |JournalOf(w, d)| + i))
  }

  /** A publication, kept apart once something was lost; only the journals are shared. */
  function Published(l: Life, fs: seq<Fact>, domain: Domain): Life {
    var w := l.now.world;
    if l.drift.None? then
      var v := Publish(w, fs, domain);
      l.(now := l.now.(world := v, places := l.now.places + NewPlaces(w, v, domain)))
    else
      var v := Publish(w.(acceptor := l.drift.value.acceptor, pending := l.drift.value.pending), fs, domain);
      l.(now := l.now.(world := w.(root := v.root, user := v.user)), drift := Some(Drift(v.acceptor, v.pending)))
  }

  /** A decision whose append failed: it is neither journalled nor kept, but the acceptor has made it. */
  function Lost(l: Life, f: Fact, domain: Domain): Life {
    var (st, d) := Step(Running(l).acceptor, f, domain);
    if d.Rejected? then l
    else l.(drift := Some(Drift(st, if l.drift.None? then [] else l.drift.value.pending)), intact := false)
  }

  // ----- Reductions -----

  function Front<T>(s: seq<T>, n: int): seq<T> {
    if 0 <= n <= |s| then s[..n] else s
  }

  function SeenBy(es: seq<Event>): set<Component> {
    set c: Component | LastOwned(es, c).Some?
  }

  function Known(ps: seq<Place>): set<Place> {
    set p | p in ps
  }

  function PassOf(es: seq<Event>, places: seq<Place>, n: int, withdrew: bool): Pass {
    Pass(withdrew, SeenBy(Front(es, n)), Known(Front(places, n)))
  }

  function PassNow(ch: Chapter, x: Context): Pass {
    var w := ch.world;
    PassOf(w.events, ch.places, Folded(w), Withdraws(w.snapshot, x.(boot := w.boot)))
  }

  /** The chapter after a reduction, with a link if it is sealed. */
  function Next(l: Life, x: Context, id: nat, output: Output, sealed: bool): Chapter {
    l.now.(world := Absorb(l.now.world, x, id, output.(changed := sealed)), passes := l.now.passes + [|l.all|])
  }

  /** The checkpoint is stored and the lineage goes on from it. */
  function Kept(l: Life, x: Context, id: nat, output: Output): Life {
    var next := Next(l, x, id, output, true);
    l.(now := next, anchor := Some(next), shelf := l.shelf + [next], lineal := true, all := l.all + [PassNow(l.now, x)])
  }

  /** The read model moves, the lineage does not; once a checkpoint is visible that the runtime does not
      know of, the store takes nothing more. */
  function NotKept(l: Life, x: Context, id: nat, output: Output, visible: bool): Life {
    l.(now := Next(l, x, id, output, false),
       shelf := if visible then l.shelf + [Next(l, x, id, output, true)] else l.shelf,
       accepting := l.accepting && !visible,
       lineal := l.lineal && !output.changed, all := l.all + [PassNow(l.now, x)])
  }

  /** Only an effective reduction is offered to the store, which takes it only where it continues. */
  function Absorbed(l: Life, x: Context, id: nat, output: Output, keeping: Keeping): Life {
    var offered := output.changed && l.accepting;
    if offered && keeping.Stored? then Kept(l, x, id, output)
    else NotKept(l, x, id, output, offered && keeping.Visible?)
  }

  /** A reduction.  Once anything drifted it fails and changes nothing. */
  function Ticked(l: Life, x: Context, id: nat, keeping: Keeping): Life {
    if Adrift(l) then l
    else match Reduce(TickInput(l.now.world, x))
      case Err(_) => l
      case Ok(output) => Absorbed(l, x, id, output, keeping)
  }

  // ----- Starting again -----

  /** Nothing provable is stored: an empty read model that counts on above what the journals show, and
      whose first checkpoint says so if it abandons a lineage. */
  function FromNothing(l: Life, boot: string, accepts: bool): Life {
    var w := l.now.world;
    var (host, fold) := HighestIssued(w.root, w.user);
    var empty := Fresh(boot, host, fold).(root := w.root, user := w.user, broken := l.shelf != []);
    Life(Chapter(State(host, fold, map[]), empty, [], []), None, None, l.shelf, accepts, true, l.intact, l.all)
  }

  predicate OnceEach(ps: seq<Place>) {
    forall i, j :: 0 <= i < j < |ps| ==> ps[i] != ps[j]
  }

  /** The journals hold these records at these places, one each. */
  predicate HeldAt(w: World, rs: seq<Record>, ps: seq<Place>) {
    |ps| == |rs| && OnceEach(ps) && forall i :: 0 <= i < |rs| ==>
      ps[i].index < |JournalOf(w, ps[i].domain)| && JournalOf(w, ps[i].domain)[ps[i].index] == rs[i]
  }

  /** Resuming a chapter and re-accepting what the journals hold past it.  Nothing is journalled again. */
  function Resume(s: Chapter, w: World, boot: string, st: State, again: seq<Event>, ps: seq<Place>): Chapter {
    s.(world := s.world.(boot := boot, acceptor := st, pending := again, root := w.root, user := w.user,
                         broken := false, events := s.world.events + again),
       places := s.places + ps)
  }

  /** Starting refuses, leaving everything as it is, on a checkpoint that does not validate or a
      retained record the acceptor would now reject. */
  function Restarted(
    l: Life, boot: string, from: Option<nat>, accepts: bool, rs: seq<Record>, ps: seq<Place>): Life
  {
    if from.None? || from.value >= |l.shelf| then FromNothing(l, boot, accepts)
    else
      var s, w := l.shelf[from.value], l.now.world;
      if s.world.lineage == [] then l
      else
        var c := LastSealed(s.world);
        if !HostSorted(rs, w, c.consumedTo) || !HeldAt(w, rs, ps) || !ValidState(RestoredState(c.snapshot)) then l
        else match Resumed(RestoredState(c.snapshot), rs)
          case None => l
          case Some(p) =>
            Life(Resume(s, w, boot, p.0, p.1, ps), None, Some(s), l.shelf, accepts, true, l.intact, l.all)
  }

  // ----- Lives -----

  function Live(l: Life, act: Act): Life {
    match act
    case PublishAct(fs, domain) => Published(l, fs, domain)
    case LoseAppend(f, domain) => Lost(l, f, domain)
    case TickAct(x, id, keeping) => Ticked(l, x, id, keeping)
    case StartAgain(boot, from, accepts, rs, ps) => Restarted(l, boot, from, accepts, rs, ps)
  }

  /** A host's first life, before anything was journalled or sealed. */
  function Begun(boot: string): Life {
    Life(Chapter(State(0, 0, map[]), Fresh(boot, 0, 0), [], []), None, None, [], true, true, true, [])
  }

  function Lived(boot: string, acts: seq<Act>): Life {
    if acts == [] then Begun(boot) else Live(Lived(boot, acts[..|acts| - 1]), acts[|acts| - 1])
  }
}

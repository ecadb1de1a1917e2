/** One action lease, many guards: execution claims and outcomes are write-once, and every guard call
    is a few store operations that may interleave with anyone else's. */
module LeaseModel {
  import opened Facts

  datatype Status = LeasePending | LeaseCommitted | LeaseAborted | LeaseExpired

  // ----- What an authorization says about the lease -----

  datatype Terms = Terms(domain: nat, capability: nat, target: nat, plan: nat)
  datatype Generations = Generations(bundle: nat, policy: nat, control: nat)

  datatype Lease = Lease(terms: Terms, generations: Generations, boot: nat, issued: int, expires: int)
  datatype Current = Current(terms: Terms, generations: Generations, boot: nat, now: int)

  /** Pending when the lease still covers the current authorization; otherwise how it must be resolved. */
  function ClassifyCurrent(lease: Lease, current: Current): (r: Status)
    ensures !r.LeaseCommitted?
  {
    if current.now < 0 then LeaseAborted
    else if current.boot != lease.boot then LeaseExpired
    else if current.now < lease.issued then LeaseAborted
    else if current.now >= lease.expires then LeaseExpired
    else if current.generations != lease.generations then LeaseAborted
    else if current.terms != lease.terms then LeaseAborted
    else LeasePending
  }

  // ----- The store and the calls in flight -----

  datatype Claim = Claim(attempt: nat, stamp: nat)

  datatype Kind = BeforeStep | Commit | Abort

  /** Where a call is: about to read the lease, about to write its claim, or about to write an outcome. */
  datatype Place = Reading | Claiming | Resolving(status: Status)

  /** `late` records that an outcome already existed when the call began. */
  datatype Call = Call(attempt: nat, kind: Kind, verdict: Status, stamp: nat, place: Place, late: bool)

  datatype Finished = Finished(attempt: nat, kind: Kind, ok: bool, late: bool, resolved: bool)

  /** `claims` and `outcomes` are every record ever stored; a guard caches the claim it first made. */
  datatype System = System(
    claims: seq<Claim>, outcomes: seq<Status>, cached: map<nat, nat>, calls: map<nat, Call>, finished: seq<Finished>)

  function Idle(): System {
    System([], [], map[], map[], [])
  }

  /** A write may work, fail without effect, or take effect and still report an error. */
  datatype Fate = Works | FailsBefore | FailsAfter

  datatype Action =
    | Begin(id: nat, attempt: nat, kind: Kind, verdict: Status, stamp: nat)
    | Advance(id: nat, fate: Fate)

  function Finish(s: System, id: nat, c: Call, ok: bool): System {
    s.(calls := s.calls - {id}, finished := s.finished + [Finished(c.attempt, c.kind, ok, c.late, s.outcomes != [])])
  }

  /** The claim a guard writes is always the one it made first. */
  function Mine(s: System, c: Call): Claim {
    Claim(c.attempt, if c.attempt in s.cached then s.cached[c.attempt] else c.stamp)
  }

  predicate ClaimAllowed(s: System, claim: Claim) {
    s.outcomes == [] && (s.claims == [] || s.claims == [claim])
  }

  predicate OutcomeAllowed(s: System, status: Status) {
    s.outcomes == [] && (status.LeaseCommitted? ==> s.claims != [])
  }

  function WithClaim(s: System, claim: Claim): System {
    if s.claims == [] then s.(claims := [claim]) else s
  }

  function AfterRead(s: System, id: nat, c: Call): System {
    if s.outcomes != [] then Finish(s, id, c, false)
    else if c.kind.Abort? then s.(calls := s.calls[id := c.(place := Resolving(LeaseAborted))])
    else if !c.verdict.LeasePending? then s.(calls := s.calls[id := c.(place := Resolving(c.verdict))])
    else s.(calls := s.calls[id := c.(place := Claiming)], cached := s.cached[c.attempt := Mine(s, c).stamp])
  }

  function AfterClaim(s: System, id: nat, c: Call, fate: Fate): System {
    var claim := Mine(s, c);
    if fate.FailsBefore? || !ClaimAllowed(s, claim) then Finish(s, id, c, false)
    else
      var t := WithClaim(s, claim);
      if fate.FailsAfter? then Finish(t, id, c, false)
      else if c.kind.BeforeStep? then Finish(t, id, c, true)
      else t.(calls := t.calls[id := c.(place := Resolving(LeaseCommitted))])
  }

  /** A commit or an abort that stored its outcome succeeds; resolving a lease that no longer covers
      the authorization is reported as that. */
  function AfterOutcome(s: System, id: nat, c: Call, status: Status, fate: Fate): System {
    if fate.FailsBefore? || !OutcomeAllowed(s, status) then Finish(s, id, c, false)
    else Finish(s.(outcomes := s.outcomes + [status]), id, c,
                fate.Works? && (c.kind.Abort? || (c.kind.Commit? && status.LeaseCommitted?)))
  }

  function Next(s: System, a: Action): System {
    match a
    case Begin(id, attempt, kind, verdict, stamp) =>
      if id in s.calls || verdict.LeaseCommitted? then s
      else s.(calls := s.calls[id := Call(attempt, kind, verdict, stamp, Reading, s.outcomes != [])])
    case Advance(id, fate) =>
      if id !in s.calls then s
      else
        var c := s.calls[id];
        match c.place
        case Reading => if fate.Works? then AfterRead(s, id, c) else Finish(s, id, c, false)
        case Claiming => AfterClaim(s, id, c, fate)
        case Resolving(status) => AfterOutcome(s, id, c, status, fate)
  }

  function Run(actions: seq<Action>): System {
    if actions == [] then Idle() else Next(Run(actions[..|actions| - 1]), actions[|actions| - 1])
  }

  // ----- What every interleaving keeps -----

  /** The attempt that holds the lease. */
  predicate Holds(s: System, attempt: nat) {
    |s.claims| == 1 && s.claims[0].attempt == attempt
  }

  predicate CallFits(s: System, c: Call) {
    && !c.verdict.LeaseCommitted?
    && (c.late ==> c.place.Reading? && s.outcomes != [])
    && (c.place.Claiming? ==> !c.kind.Abort?)
    && (c.place.Resolving? && c.place.status.LeaseCommitted? ==> c.kind.Commit? && Holds(s, c.attempt))
    && (c.place.Resolving? && c.kind.Abort? ==> c.place.status.LeaseAborted?)
  }

  predicate FinishedFits(s: System, f: Finished) {
    && (f.late ==> !f.ok)
    && (f.ok && !f.kind.Abort? ==> Holds(s, f.attempt))
    && (f.ok && f.kind.BeforeStep? ==> !f.resolved)
    && (f.ok && f.kind.Commit? ==> s.outcomes == [LeaseCommitted])
    && (f.ok && f.kind.Abort? ==> s.outcomes == [LeaseAborted])
  }

  predicate Inv(s: System) {
    && |s.claims| <= 1 && |s.outcomes| <= 1
    && (forall id :: id in s.calls ==> CallFits(s, s.calls[id]))
    && (forall i :: 0 <= i < |s.finished| ==> FinishedFits(s, s.finished[i]))
  }

  /** Only one call ever stores the outcome it reports. */
  function Resolvers(fs: seq<Finished>): nat {
    if fs == [] then 0
    else Resolvers(fs[..|fs| - 1]) + if fs[|fs| - 1].ok && !fs[|fs| - 1].kind.BeforeStep? then 1 else 0
  }

  lemma {:induction false} ResolversSnoc(fs: seq<Finished>, f: Finished)
    ensures Resolvers(fs + [f]) == Resolvers(fs) + if f.ok && !f.kind.BeforeStep? then 1 else 0
  {
    assert (fs + [f])[..|fs + [f]| - 1] == fs;
  }

  /** Later states only add to what was stored. */
  predicate Grows(s: System, t: System) {
    s.claims <= t.claims && s.outcomes <= t.outcomes
  }

  lemma {:induction false} StillFits(s: System, t: System, f: Finished)
    requires FinishedFits(s, f) && Grows(s, t) && |t.claims| <= 1 && |t.outcomes| <= 1
    ensures FinishedFits(t, f)
  {
  }

  lemma {:induction false} CallStillFits(s: System, t: System, c: Call)
    requires CallFits(s, c) && Grows(s, t) && |t.claims| <= 1 && |t.outcomes| <= 1
    ensures CallFits(t, c)
  {
  }

  lemma {:induction false} FinishKeepsInv(s: System, t: System, id: nat, c: Call, ok: bool)
    requires Inv(s) && id in s.calls && s.calls[id] == c
    requires Grows(s, t) && |t.claims| <= 1 && |t.outcomes| <= 1 && t.calls == s.calls && t.finished == s.finished
    requires FinishedFits(t, Finished(c.attempt, c.kind, ok, c.late, t.outcomes != []))
    ensures Inv(Finish(t, id, c, ok))
  {
    var u := Finish(t, id, c, ok);
    forall k | k in u.calls ensures CallFits(u, u.calls[k]) { CallStillFits(s, u, s.calls[k]); }
    forall i | 0 <= i < |u.finished| ensures FinishedFits(u, u.finished[i]) {
      if i < |s.finished| { StillFits(s, u, s.finished[i]); }
    }
  }

  lemma {:induction false} MoveKeepsInv(s: System, t: System, id: nat, c: Call)
    requires Inv(s) && Grows(s, t) && |t.claims| <= 1 && |t.outcomes| <= 1
    requires t.calls == s.calls[id := c] && t.finished == s.finished && CallFits(t, c)
    ensures Inv(t)
  {
    forall k | k in t.calls ensures CallFits(t, t.calls[k]) { if k != id { CallStillFits(s, t, s.calls[k]); } }
    forall i | 0 <= i < |t.finished| ensures FinishedFits(t, t.finished[i]) { StillFits(s, t, s.finished[i]); }
  }

  lemma {:induction false} NextKeepsInv(s: System, a: Action)
    requires Inv(s)
    ensures Inv(Next(s, a)) && Grows(s, Next(s, a))
  {
    match a {
      case Begin(id, attempt, kind, verdict, stamp) =>
        if id !in s.calls && !verdict.LeaseCommitted? {
          MoveKeepsInv(s, Next(s, a), id, Call(attempt, kind, verdict, stamp, Reading, s.outcomes != []));
        }
      case Advance(id, fate) =>
        if id in s.calls { AdvanceKeepsInv(s, id, s.calls[id], fate); }
    }
  }

  lemma {:induction false} AdvanceKeepsInv(s: System, id: nat, c: Call, fate: Fate)
    requires Inv(s) && id in s.calls && s.calls[id] == c
    ensures Inv(Next(s, Advance(id, fate))) && Grows(s, Next(s, Advance(id, fate)))
  {
    match c.place {
      case Reading =>
        if fate.Works? && s.outcomes == [] {
          var t := AfterRead(s, id, c);
          MoveKeepsInv(s, t, id, t.calls[id]);
        } else {
          FinishKeepsInv(s, s, id, c, false);
        }
      case Claiming =>
        var claim := Mine(s, c);
        if fate.FailsBefore? || !ClaimAllowed(s, claim) {
          FinishKeepsInv(s, s, id, c, false);
        } else {
          var t := WithClaim(s, claim);
          if fate.FailsAfter? {
            FinishKeepsInv(s, t, id, c, false);
          } else if c.kind.BeforeStep? {
            FinishKeepsInv(s, t, id, c, true);
          } else {
            MoveKeepsInv(s, AfterClaim(s, id, c, fate), id, c.(place := Resolving(LeaseCommitted)));
          }
        }
      case Resolving(status) =>
        if fate.FailsBefore? || !OutcomeAllowed(s, status) {
          FinishKeepsInv(s, s, id, c, false);
        } else {
          var t := s.(outcomes := s.outcomes + [status]);
          FinishKeepsInv(s, t, id, c, fate.Works? && (c.kind.Abort? || (c.kind.Commit? && status.LeaseCommitted?)));
        }
    }
  }

  lemma {:induction false} RunKeepsInv(actions: seq<Action>)
    ensures Inv(Run(actions))
  {
    if actions != [] {
      RunKeepsInv(actions[..|actions| - 1]);
      NextKeepsInv(Run(actions[..|actions| - 1]), actions[|actions| - 1]);
    }
  }

  /** Over any interleaving of guards on one lease: at most one claim and one outcome are ever stored;
      all successful step checks and commits belong to one attempt; nothing that began after an
      outcome existed succeeds, nor does any step check once an outcome exists. */
  lemma {:induction false} OneAttemptPerLease(actions: seq<Action>, i: nat, j: nat)
    requires i < |Run(actions).finished| && j < |Run(actions).finished|
    ensures var s := Run(actions); var f, g := s.finished[i], s.finished[j];
      && |s.claims| <= 1 && |s.outcomes| <= 1
      && (f.ok && !f.kind.Abort? && g.ok && !g.kind.Abort? ==> f.attempt == g.attempt)
      && (f.late ==> !f.ok)
      && (f.ok && f.kind.BeforeStep? ==> !f.resolved)
  {
    RunKeepsInv(actions);
    var s := Run(actions);
    assert FinishedFits(s, s.finished[i]) && FinishedFits(s, s.finished[j]);
  }

  lemma {:induction false} OneResolver(actions: seq<Action>)
    ensures Resolvers(Run(actions).finished) <= |Run(actions).outcomes| <= 1
  {
    RunKeepsInv(actions);
    if actions != [] {
      var most, a := actions[..|actions| - 1], actions[|actions| - 1];
      OneResolver(most);
      RunKeepsInv(most);
      NextKeepsInv(Run(most), a);
      ResolverStep(Run(most), a);
    }
  }

  lemma {:induction false} FinishResolves(s: System, id: nat, c: Call, ok: bool)
    ensures Resolvers(Finish(s, id, c, ok).finished) == Resolvers(s.finished)
      + if ok && !c.kind.BeforeStep? then 1 else 0
  {
    ResolversSnoc(s.finished, Finished(c.attempt, c.kind, ok, c.late, s.outcomes != []));
  }

  lemma {:induction false} ResolverStep(s: System, a: Action)
    requires Inv(s)
    ensures var t := Next(s, a);
      Resolvers(t.finished) - Resolvers(s.finished) <= |t.outcomes| - |s.outcomes|
  {
    if a.Advance? && a.id in s.calls {
      var c := s.calls[a.id];
      FinishResolves(s, a.id, c, false);
      match c.place {
        case Reading =>
        case Claiming => ClaimResolves(s, a.id, c, a.fate);
        case Resolving(status) => OutcomeResolves(s, a.id, c, status, a.fate);
      }
    }
  }

  lemma {:induction false} ClaimResolves(s: System, id: nat, c: Call, fate: Fate)
    ensures var t := AfterClaim(s, id, c, fate);
      Resolvers(t.finished) == Resolvers(s.finished) && t.outcomes == s.outcomes
  {
    var t := WithClaim(s, Mine(s, c));
    FinishResolves(s, id, c, false);
    FinishResolves(t, id, c, false);
    if c.kind.BeforeStep? { FinishResolves(t, id, c, true); }
  }

  lemma {:induction false} OutcomeResolves(s: System, id: nat, c: Call, status: Status, fate: Fate)
    ensures var t := AfterOutcome(s, id, c, status, fate);
      Resolvers(t.finished) - Resolvers(s.finished) <= |t.outcomes| - |s.outcomes|
  {
    var t := s.(outcomes := s.outcomes + [status]);
    FinishResolves(s, id, c, false);
    FinishResolves(t, id, c, fate.Works? && (c.kind.Abort? || (c.kind.Commit? && status.LeaseCommitted?)));
  }

  /** A successful commit and a successful abort exclude each other, and each happens at most once. */
  lemma {:induction false} CommitOrAbort(actions: seq<Action>, i: nat, j: nat)
    requires i < |Run(actions).finished| && j < |Run(actions).finished|
    ensures var s := Run(actions); var f, g := s.finished[i], s.finished[j];
      f.ok && f.kind.Commit? ==> s.outcomes == [LeaseCommitted] && !(g.ok && g.kind.Abort?)
  {
    RunKeepsInv(actions);
    var s := Run(actions);
    assert FinishedFits(s, s.finished[i]) && FinishedFits(s, s.finished[j]);
  }

  // ----- Who was let through -----

  /** The attempts a guard let through before a step. */
  function LetThrough(actions: seq<Action>): set<nat> {
    var finished := Run(actions).finished;
    set i | 0 <= i < |finished| && finished[i].ok && finished[i].kind.BeforeStep? :: finished[i].attempt
  }

  lemma {:induction false} NextFinishes(s: System, a: Action)
    ensures s.finished <= Next(s, a).finished
  {
  }

  lemma {:induction false} FinishedGrows(actions: seq<Action>, more: seq<Action>)
    ensures Run(actions).finished <= Run(actions + more).finished
    decreases |more|
  {
    if more == [] {
      assert actions + more == actions;
    } else {
      FinishedGrows(actions, more[..|more| - 1]);
      assert (actions + more)[..|actions + more| - 1] == actions + more[..|more| - 1];
      NextFinishes(Run(actions + more[..|more| - 1]), more[|more| - 1]);
    }
  }

  lemma {:induction false} LetThroughGrows(actions: seq<Action>, more: seq<Action>)
    ensures LetThrough(actions) <= LetThrough(actions + more)
  {
    FinishedGrows(actions, more);
    var f, g := Run(actions).finished, Run(actions + more).finished;
    forall i | 0 <= i < |f| && f[i].ok && f[i].kind.BeforeStep? ensures f[i].attempt in LetThrough(actions + more) {
      assert f[i] == g[i];
    }
  }
}

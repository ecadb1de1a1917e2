/** The guard as the object that runs, against a store whose records are write-once and whose writes
    may fail. */
module LeaseGuard {
  import opened Facts
  import opened LeaseModel

  /** One lease's records.  Writes refuse to replace anything, and may fail before or after they took
      effect; a policy pointer that moved on is one way to fail before. */
  class LeaseStore {
    const lease: Lease
    var claim: Option<Claim>
    var outcome: Option<Status>

    constructor (lease: Lease)
      ensures this.lease == lease && claim.None? && outcome.None?
    {
      this.lease, claim, outcome := lease, None, None;
    }

    predicate AcceptsClaim(c: Claim)
      reads this
    {
      outcome.None? && (claim.None? || claim == Some(c))
    }

    predicate AcceptsOutcome(s: Status)
      reads this
    {
      outcome.None? && (s.LeaseCommitted? ==> claim.Some?)
    }

    /** The same claim again is accepted; a different one, or any once resolved, is not. */
    method PersistClaim(c: Claim, fate: Fate) returns (ok: bool)
      modifies this`claim
      ensures ok <==> old(AcceptsClaim(c)) && fate.Works?
      ensures claim == if old(AcceptsClaim(c)) && !fate.FailsBefore? then Some(c) else old(claim)
    {
      if fate.FailsBefore? || outcome.Some? || (claim.Some? && claim.value != c) {
        return false;
      }
      claim := Some(c);
      return fate.Works?;
    }

    method PersistOutcome(s: Status, fate: Fate) returns (ok: bool)
      modifies this`outcome
      ensures ok <==> old(AcceptsOutcome(s)) && fate.Works?
      ensures outcome == if old(AcceptsOutcome(s)) && !fate.FailsBefore? then Some(s) else old(outcome)
    {
      if fate.FailsBefore? || outcome.Some? || (s.LeaseCommitted? && claim.None?) {
        return false;
      }
      outcome := Some(s);
      return fate.Works?;
    }
  }

  datatype Check = Allowed | Replay | WriteFailed | NotCovered(status: Status)

  class Guard {
    const store: LeaseStore
    const attempt: nat
    var claim: Option<Claim>
    var started: bool

    constructor (store: LeaseStore, attempt: nat)
      ensures this.store == store && this.attempt == attempt && claim.None? && !started
    {
      this.store, this.attempt, claim, started := store, attempt, None, false;
    }

    /** What this guard holds is its own. */
    predicate Valid()
      reads this
    {
      claim.Some? ==> claim.value.attempt == attempt
    }

    /** The claim this guard presents: the one it made first. */
    function Presented(stamp: nat): Claim
      reads this
    {
      if claim.Some? then claim.value else Claim(attempt, stamp)
    }

    method BeginExecution() returns (ok: bool)
      modifies this`started
      ensures ok <==> !old(started)
      ensures started
    {
      ok := !started;
      started := true;
    }

    /** Claims the lease for this attempt, with the claim it made the first time. */
    method EnsureClaim(stamp: nat, fate: Fate) returns (r: Check)
      requires Valid()
      modifies this`claim, store`claim
      ensures Valid() && claim == Some(old(Presented(stamp)))
      ensures r.Allowed? <==> old(store.AcceptsClaim(Presented(stamp))) && fate.Works?
      ensures r == Allowed || r == Replay || r == WriteFailed
      ensures r.Replay? <==>
        !r.Allowed? && (store.outcome.Some? || (store.claim.Some? && store.claim.value.attempt != attempt))
      ensures store.claim ==
        if old(store.AcceptsClaim(Presented(stamp))) && !fate.FailsBefore? then claim else old(store.claim)
    {
      if claim.None? {
        claim := Some(Claim(attempt, stamp));
      }
      var ok := store.PersistClaim(claim.value, fate);
      if ok {
        return Allowed;
      }
      if store.outcome.Some? || (store.claim.Some? && store.claim.value.attempt != attempt) {
        return Replay;
      }
      return WriteFailed;
    }

    /** Reads the lease afresh, resolves it when it no longer covers the authorization, and otherwise
        claims it: the check before every mutation. */
    method BeforeStep(current: Current, stamp: nat, fate: Fate) returns (r: Check)
      requires Valid()
      modifies this`claim, store
      ensures Valid()
      ensures r.Allowed? <==>
        && ClassifyCurrent(store.lease, current).LeasePending?
        && old(store.AcceptsClaim(Presented(stamp))) && fate.Works?
      ensures r.Allowed? ==> store.claim.Some? && store.claim.value.attempt == attempt
      ensures r.NotCovered? <==>
        old(store.outcome).None? && !ClassifyCurrent(store.lease, current).LeasePending? && fate.Works?
      ensures r.NotCovered? ==> r.status == ClassifyCurrent(store.lease, current)
      ensures old(store.outcome).Some? ==> r.Replay?
      ensures store.outcome ==
        if old(store.outcome).None? && !ClassifyCurrent(store.lease, current).LeasePending? && !fate.FailsBefore?
        then Some(ClassifyCurrent(store.lease, current)) else old(store.outcome)
      ensures store.claim ==
        if ClassifyCurrent(store.lease, current).LeasePending? && old(store.AcceptsClaim(Presented(stamp))) &&
          !fate.FailsBefore?
        then Some(old(Presented(stamp))) else old(store.claim)
    {
      if store.outcome.Some? {
        return Replay;
      }
      var verdict := ClassifyCurrent(store.lease, current);
      if !verdict.LeasePending? {
        var stored := store.PersistOutcome(verdict, fate);
        return if stored then NotCovered(verdict) else if store.outcome.Some? then Replay else WriteFailed;
      }
      r := EnsureClaim(stamp, fate);
    }

    /** The full check again, and the lease is consumed. */
    method Commit(current: Current, stamp: nat, claiming: Fate, resolving: Fate) returns (ok: bool)
      requires Valid()
      modifies this`claim, store
      ensures Valid()
      ensures ok <==>
        && ClassifyCurrent(store.lease, current).LeasePending?
        && old(store.AcceptsClaim(Presented(stamp))) && claiming.Works? && resolving.Works?
      ensures ok ==> store.outcome == Some(LeaseCommitted) && store.claim.Some? && store.claim.value.attempt == attempt
      ensures store.outcome == Some(LeaseCommitted) && old(store.outcome) != Some(LeaseCommitted) ==>
        store.claim.Some? && store.claim.value.attempt == attempt
      ensures old(store.outcome).Some? ==> !ok && store.outcome == old(store.outcome)
      ensures old(store.claim).Some? ==> store.claim == old(store.claim)
    {
      var r := BeforeStep(current, stamp, claiming);
      if !r.Allowed? {
        return false;
      }
      ok := store.PersistOutcome(LeaseCommitted, resolving);
    }

    method Abort(fate: Fate) returns (ok: bool)
      modifies store`outcome
      ensures ok <==> old(store.outcome).None? && fate.Works?
      ensures store.outcome ==
        if old(store.outcome).None? && !fate.FailsBefore? then Some(LeaseAborted) else old(store.outcome)
    {
      if store.outcome.Some? {
        return false;
      }
      ok := store.PersistOutcome(LeaseAborted, fate);
    }
  }
}

/** The bounded recovery machine: thresholds, a budget of recoveries, exponential backoff, safe mode. */
module Recovery {
  const UINT32: nat := 0x1_0000_0000
  const INT64: int := 0x8000_0000_0000_0000

  datatype State = Healthy | Degraded | Recovering | Suspended | SafeMode

  datatype Event =
    | Suspend | DependenciesReady | ProbeSucceeded | ProbeFailed | BeginRecovery | CooldownElapsed | OperatorResume

  datatype Reason =
    | NoReason | IntentionalSleep | DepsReady | Succeeded | VerificationPassed | Failed | FailureThreshold
    | RecoveryBudget | RecoveryAllowed | Cooldown | Resumed

  datatype Policy = Policy(
    threshold: nat, budget: nat, base: int, max: int, verification: int, cooldown: int)

  datatype Snapshot = Snapshot(
    generation: nat, state: State, failures: nat, attempts: nat,
    lastTick: int, recoveringSince: int, nextActionAt: int, safeUntil: int)

  datatype Decision = Decision(from: State, to: State, generation: nat, reason: Reason, approved: bool)

  datatype Error = StaleGeneration | NonMonotonicTick | ResumePrecondition
  datatype Result = Ok(decision: Decision) | Err(error: Error)

  predicate ValidPolicy(p: Policy) {
    && 0 < p.threshold < UINT32 && 0 < p.budget < UINT32
    && 0 < p.base <= p.max < INT64
    && 0 <= p.verification && 0 < p.cooldown < INT64
  }

  function NewSnapshot(s: State): Snapshot {
    Snapshot(0, s, 0, 0, 0, 0, 0, 0)
  }

  /** Tick arithmetic wraps like the 64-bit integers it is done in. */
  function Plus(a: int, b: int): int {
    if a + b >= INT64 then a + b - 2 * INT64 else a + b
  }

  // ----- Backoff -----

  /** What the doubling loop computes for the n-th recovery, from a starting value. */
  function Doubled(p: Policy, backoff: int, rounds: nat): int
    decreases rounds
  {
    if rounds == 0 then (if backoff > p.max then p.max else backoff)
    else if backoff >= p.max / 2 then p.max
    else Doubled(p, backoff * 2, rounds - 1)
  }

  function Backoff(p: Policy, attempt: nat): int {
    Doubled(p, p.base, if attempt == 0 then 0 else attempt - 1)
  }

  method ComputeBackoff(p: Policy, attempt: nat) returns (backoff: int)
    ensures backoff == Backoff(p, attempt)
  {
    backoff := p.base;
    var current := 1;
    while current < attempt
      invariant 1 <= current && (attempt > 0 ==> current <= attempt)
      invariant Backoff(p, attempt) == Doubled(p, backoff, if attempt < current then 0 else attempt - current)
    {
      if backoff >= p.max / 2 {
        return p.max;
      }
      backoff := backoff * 2;
      current := current + 1;
    }
    if backoff > p.max {
      return p.max;
    }
  }

  // ----- One step -----

  function Reset(s: Snapshot): Snapshot {
    s.(state := Healthy, failures := 0, attempts := 0, recoveringSince := 0, nextActionAt := 0, safeUntil := 0)
  }

  /** Out of budget: no further mutation until the cooldown elapses or an operator resumes. */
  function EnterSafeMode(p: Policy, s: Snapshot, at: int): Snapshot {
    s.(state := SafeMode, safeUntil := Plus(at, p.cooldown))
  }

  function OnFailure(p: Policy, s: Snapshot, at: int): (Snapshot, Reason) {
    var counted := s.(failures := (s.failures + 1) % UINT32);
    match s.state
    case Suspended => (s, NoReason)
    case SafeMode => (s, NoReason)
    case Healthy =>
      if counted.failures >= p.threshold then (counted.(state := Degraded, nextActionAt := at), FailureThreshold)
      else (counted, Failed)
    case Degraded => (counted, Failed)
    case Recovering =>
      var stopped := counted.(recoveringSince := 0);
      if s.attempts >= p.budget then (EnterSafeMode(p, stopped, at), RecoveryBudget)
      else (stopped.(state := Degraded), Failed)
  }

  function OnSuccess(p: Policy, s: Snapshot, at: int): (Snapshot, Reason) {
    match s.state
    case Healthy => (s.(failures := 0), Succeeded)
    case Degraded => (Reset(s), Succeeded)
    case Recovering => if at - s.recoveringSince >= p.verification then (Reset(s), VerificationPassed)
      else (s, NoReason)
    case Suspended => (s, NoReason)
    case SafeMode => (s, NoReason)
  }

  predicate Approves(p: Policy, s: Snapshot, at: int) {
    s.state.Degraded? && at >= s.nextActionAt && s.attempts < p.budget
  }

  function OnBegin(p: Policy, s: Snapshot, at: int): (Snapshot, Reason) {
    if !s.state.Degraded? || at < s.nextActionAt then (s, NoReason)
    else if s.attempts >= p.budget then (EnterSafeMode(p, s, at), RecoveryBudget)
    else
      (s.(attempts := s.attempts + 1, state := Recovering, recoveringSince := at,
          nextActionAt := Plus(at, Backoff(p, s.attempts + 1))), RecoveryAllowed)
  }

  function React(p: Policy, s: Snapshot, at: int, ev: Event): (Snapshot, Reason)
    requires ev.OperatorResume? ==> s.state.SafeMode?
  {
    match ev
    case Suspend => (s.(state := Suspended, failures := 0, recoveringSince := 0), IntentionalSleep)
    case DependenciesReady => if s.state.Suspended? then (Reset(s), DepsReady) else (s, NoReason)
    case ProbeSucceeded => OnSuccess(p, s, at)
    case ProbeFailed => OnFailure(p, s, at)
    case BeginRecovery => OnBegin(p, s, at)
    case CooldownElapsed =>
      if s.state.SafeMode? && at >= s.safeUntil
      then (s.(state := Degraded, attempts := 0, nextActionAt := at, safeUntil := 0), Cooldown)
      else (s, NoReason)
    case OperatorResume =>
      (s.(state := Degraded, attempts := 0, recoveringSince := 0, nextActionAt := at, safeUntil := 0), Resumed)
  }

  /** A stale generation or a tick that moved back changes nothing. */
  function Step(p: Policy, s: Snapshot, expected: nat, at: int, ev: Event): (Snapshot, Result) {
    if expected != s.generation then (s, Err(StaleGeneration))
    else if at < s.lastTick then (s, Err(NonMonotonicTick))
    else if ev.OperatorResume? && !s.state.SafeMode? then (s, Err(ResumePrecondition))
    else
      var (t, reason) := React(p, s, at, ev);
      var u := t.(lastTick := at);
      var v := if u != s then u.(generation := s.generation + 1) else u;
      (v, Ok(Decision(s.state, v.state, v.generation, reason, ev.BeginRecovery? && Approves(p, s, at))))
  }
}

/** The machine that runs: fields changed one by one. */
module RecoveryObject {
  import opened Recovery

  class Machine {
    const policy: Policy
    var snapshot: Snapshot

    constructor (p: Policy, s: Snapshot)
      ensures policy == p && snapshot == s
    {
      policy, snapshot := p, s;
    }

    method ResetHealthy()
      modifies this
      ensures snapshot == Reset(old(snapshot))
    {
      snapshot := snapshot.(state := Healthy, failures := 0, attempts := 0);
      snapshot := snapshot.(recoveringSince := 0, nextActionAt := 0, safeUntil := 0);
    }

    method ProbeHasSucceeded(at: int) returns (reason: Reason)
      modifies this
      ensures (snapshot, reason) == OnSuccess(policy, old(snapshot), at)
    {
      reason := NoReason;
      match snapshot.state {
        case Healthy =>
          snapshot, reason := snapshot.(failures := 0), Succeeded;
        case Degraded =>
          ResetHealthy();
          reason := Succeeded;
        case Recovering =>
          if at - snapshot.recoveringSince >= policy.verification {
            ResetHealthy();
            reason := VerificationPassed;
          }
        case Suspended =>
        case SafeMode =>
      }
    }

    method ProbeHasFailed(at: int) returns (reason: Reason)
      modifies this
      ensures (snapshot, reason) == OnFailure(policy, old(snapshot), at)
    {
      reason := NoReason;
      if snapshot.state.Suspended? || snapshot.state.SafeMode? {
        return;
      }
      snapshot, reason := snapshot.(failures := (snapshot.failures + 1) % UINT32), Failed;
      if snapshot.state.Healthy? && snapshot.failures >= policy.threshold {
        snapshot, reason := snapshot.(state := Degraded, nextActionAt := at), FailureThreshold;
      } else if snapshot.state.Recovering? {
        snapshot := snapshot.(recoveringSince := 0);
        if snapshot.attempts >= policy.budget {
          snapshot, reason := snapshot.(state := SafeMode, safeUntil := Plus(at, policy.cooldown)), RecoveryBudget;
        } else {
          snapshot := snapshot.(state := Degraded);
        }
      }
    }

    method RecoveryBegins(at: int) returns (reason: Reason, approved: bool)
      modifies this
      ensures (snapshot, reason) == OnBegin(policy, old(snapshot), at)
      ensures approved == Approves(policy, old(snapshot), at)
    {
      reason, approved := NoReason, false;
      if !snapshot.state.Degraded? || at < snapshot.nextActionAt {
        return;
      }
      if snapshot.attempts >= policy.budget {
        snapshot, reason := snapshot.(state := SafeMode, safeUntil := Plus(at, policy.cooldown)), RecoveryBudget;
        return;
      }
      snapshot := snapshot.(attempts := snapshot.attempts + 1, state := Recovering, recoveringSince := at);
      var backoff := ComputeBackoff(policy, snapshot.attempts);
      snapshot := snapshot.(nextActionAt := Plus(at, backoff));
      reason, approved := RecoveryAllowed, true;
    }

    method Step(expected: nat, at: int, ev: Event) returns (r: Result)
      modifies this
      ensures (snapshot, r) == Recovery.Step(policy, old(snapshot), expected, at, ev)
    {
      if expected != snapshot.generation {
        return Err(StaleGeneration);
      }
      if at < snapshot.lastTick {
        return Err(NonMonotonicTick);
      }
      var before := snapshot;
      var reason, approved := NoReason, false;
      match ev {
        case Suspend =>
          snapshot, reason := snapshot.(state := Suspended, failures := 0, recoveringSince := 0), IntentionalSleep;
        case DependenciesReady =>
          if snapshot.state.Suspended? {
            ResetHealthy();
            reason := DepsReady;
          }
        case ProbeSucceeded => reason := ProbeHasSucceeded(at);
        case ProbeFailed => reason := ProbeHasFailed(at);
        case BeginRecovery => reason, approved := RecoveryBegins(at);
        case CooldownElapsed =>
          if snapshot.state.SafeMode? && at >= snapshot.safeUntil {
            snapshot, reason := snapshot.(state := Degraded, attempts := 0, nextActionAt := at, safeUntil := 0),
              Cooldown;
          }
        case OperatorResume =>
          if !snapshot.state.SafeMode? {
            return Err(ResumePrecondition);
          }
          snapshot := snapshot.(state := Degraded, attempts := 0, recoveringSince := 0, nextActionAt := at,
            safeUntil := 0);
          reason := Resumed;
      }
      snapshot := snapshot.(lastTick := at);
      if snapshot != before {
        snapshot := snapshot.(generation := snapshot.generation + 1);
      }
      r := Ok(Decision(before.state, snapshot.state, snapshot.generation, reason, approved));
    }
  }
}

/** What every run of the recovery machine keeps. */
module RecoveryTheorems {
  import opened Recovery

  // ----- How long a backoff is -----

  function Pow2(n: nat): int {
    if n == 0 then 1 else 2 * Pow2(n - 1)
  }

  function Min(a: int, b: int): int {
    if a < b then a else b
  }

  lemma {:induction false} Pow2Grows(n: nat, m: nat)
    requires n <= m
    ensures 1 <= Pow2(n) <= Pow2(m)
    decreases m
  {
    if n < m { Pow2Grows(n, m - 1); } else if n > 0 { Pow2Grows(n - 1, n - 1); }
  }

  lemma {:induction false} TimesGrows(b: int, x: int, y: int)
    requires b >= 0 && x <= y
    ensures b * x <= b * y
  {
  }

  lemma {:induction false} DoubledBounds(p: Policy, b: int, rounds: nat)
    requires 0 < b && 0 < p.max
    ensures Min(p.max, b * Pow2(rounds)) <= Doubled(p, b, rounds) <= p.max
    ensures b * Pow2(rounds) < p.max - 1 ==> Doubled(p, b, rounds) == b * Pow2(rounds)
    ensures rounds > 0 && b * Pow2(rounds) == p.max - 1 ==> Doubled(p, b, rounds) == p.max
    decreases rounds
  {
    if rounds > 0 {
      assert b * Pow2(rounds) == (b * 2) * Pow2(rounds - 1);
      if b < p.max / 2 {
        DoubledBounds(p, b * 2, rounds - 1);
        if rounds == 1 { assert Pow2(0) == 1; }
      } else {
        Pow2Grows(0, rounds - 1);
        TimesGrows(b * 2, 1, Pow2(rounds - 1));
      }
    }
  }

  /** The n-th backoff lies between min(max, base * 2^(n-1)) and the maximum. */
  lemma {:induction false} BackoffBounds(p: Policy, attempt: nat)
    requires ValidPolicy(p) && attempt > 0
    ensures 0 < Min(p.max, p.base * Pow2(attempt - 1)) <= Backoff(p, attempt) <= p.max
  {
    DoubledBounds(p, p.base, attempt - 1);
    Pow2Grows(0, attempt - 1);
    TimesGrows(p.base, 1, Pow2(attempt - 1));
  }

  /** It is exactly min(max, base * 2^(n-1)), except where doubling would land one short of the
      maximum: there it is the maximum itself. */
  lemma {:induction false} BackoffExactly(p: Policy, attempt: nat)
    requires ValidPolicy(p) && attempt > 0
    ensures Backoff(p, attempt) == Min(p.max, p.base * Pow2(attempt - 1)) <==>
      !(attempt > 1 && p.base * Pow2(attempt - 1) == p.max - 1)
  {
    DoubledBounds(p, p.base, attempt - 1);
    if attempt == 1 { assert Pow2(0) == 1; }
  }

  // ----- Runs -----

  /** Ticks are 64-bit integers. */
  type Tick = x: int | -INT64 <= x < INT64

  datatype Call = Call(expected: nat, at: Tick, event: Event)

  datatype Entered = Outside | Since(at: int)

  datatype Trace = Trace(snapshot: Snapshot, approvals: seq<int>, entered: Entered)

  /** A decision that ends an episode: whatever was approved before it no longer counts. */
  predicate Resets(ev: Event, d: Decision) {
    match ev
    case DependenciesReady => d.from.Suspended?
    case ProbeSucceeded => (d.from.Degraded? || d.from.Recovering?) && d.to.Healthy?
    case CooldownElapsed => d.from.SafeMode? && d.to.Degraded?
    case OperatorResume => true
    case _ => false
  }

  /** The ticks of the recoveries approved since the last reset, and when safe mode was entered. */
  function Observe(t: Trace, p: Policy, c: Call): Trace {
    var (s, r) := Step(p, t.snapshot, c.expected, c.at, c.event);
    if r.Err? then t.(snapshot := s)
    else
      var d := r.decision;
      Trace(s,
        if d.approved then t.approvals + [c.at] else if Resets(c.event, d) then [] else t.approvals,
        if d.to.SafeMode? then (if d.from.SafeMode? then t.entered else Since(c.at)) else Outside)
  }

  function Run(p: Policy, start: State, calls: seq<Call>): Trace {
    if calls == [] then Trace(NewSnapshot(start), [], Outside)
    else Observe(Run(p, start, calls[..|calls| - 1]), p, calls[|calls| - 1])
  }

  /** Consecutive approvals are the backoff apart wherever the addition that spaced them did not wrap. */
  predicate Spaced(p: Policy, approvals: seq<int>) {
    forall i :: 0 < i < |approvals| && approvals[i - 1] + Backoff(p, i) < INT64 ==>
      approvals[i] - approvals[i - 1] >= Backoff(p, i)
  }

  predicate Inv(p: Policy, t: Trace) {
    var s := t.snapshot;
    && s.attempts == |t.approvals| <= p.budget
    && 0 <= s.lastTick < INT64
    && (s.state.Healthy? ==> t.approvals == [])
    && (s.state.SafeMode? ==> s.attempts == p.budget || t.approvals == [])
    && (t.entered.Since? ==>
      s.state.SafeMode? && 0 <= t.entered.at <= s.lastTick && s.safeUntil == Plus(t.entered.at, p.cooldown))
    && (forall i :: 0 <= i < |t.approvals| ==> 0 <= t.approvals[i] <= s.lastTick)
    && Spaced(p, t.approvals)
    && (t.approvals != [] && !s.state.Suspended? ==>
      s.nextActionAt == Plus(t.approvals[|t.approvals| - 1], Backoff(p, |t.approvals|)))
  }

  lemma {:induction false} ApprovalKeepsInv(p: Policy, t: Trace, c: Call)
    requires ValidPolicy(p) && Inv(p, t) && c.event.BeginRecovery? && Approves(p, t.snapshot, c.at)
    requires c.expected == t.snapshot.generation && c.at >= t.snapshot.lastTick
    ensures Inv(p, Observe(t, p, c))
  {
    BackoffBounds(p, |t.approvals| + 1);
    var u := Observe(t, p, c);
    assert u.approvals == t.approvals + [c.at];
    forall i | 0 < i < |u.approvals| && u.approvals[i - 1] + Backoff(p, i) < INT64
      ensures u.approvals[i] - u.approvals[i - 1] >= Backoff(p, i)
    {
      if i < |t.approvals| { assert t.approvals[i] - t.approvals[i - 1] >= Backoff(p, i); }
    }
  }

  lemma {:induction false} ObserveKeepsInv(p: Policy, t: Trace, c: Call)
    requires ValidPolicy(p) && Inv(p, t)
    ensures Inv(p, Observe(t, p, c))
  {
    var r := Step(p, t.snapshot, c.expected, c.at, c.event).1;
    if r.Ok? && r.decision.approved { ApprovalKeepsInv(p, t, c); }
  }

  lemma {:induction false} RunKeepsInv(p: Policy, start: State, calls: seq<Call>)
    requires ValidPolicy(p)
    ensures Inv(p, Run(p, start, calls))
  {
    if calls != [] {
      RunKeepsInv(p, start, calls[..|calls| - 1]);
      ObserveKeepsInv(p, Run(p, start, calls[..|calls| - 1]), calls[|calls| - 1]);
    }
  }

  /** From a fresh snapshot, however events arrive: between resets at most `budget` recoveries are
      approved, and the i-th and the next are at least the i-th backoff apart unless adding that
      backoff to the tick of the i-th leaves the 64-bit range. */
  lemma {:induction false} BudgetAndSpacing(p: Policy, start: State, calls: seq<Call>, i: nat)
    requires ValidPolicy(p)
    ensures var t := Run(p, start, calls); var approvals := t.approvals;
      && t.snapshot.attempts == |approvals| <= p.budget
      && (t.snapshot.state.Healthy? ==> approvals == [])
      && (0 < i < |approvals| && approvals[i - 1] + Backoff(p, i) < INT64 ==>
          approvals[i] - approvals[i - 1] >= Backoff(p, i) >= Min(p.max, p.base * Pow2(i - 1)))
  {
    RunKeepsInv(p, start, calls);
    if i > 0 { BackoffBounds(p, i); }
  }

  lemma {:induction false} RunSnoc(p: Policy, start: State, calls: seq<Call>, c: Call)
    ensures Run(p, start, calls + [c]) == Observe(Run(p, start, calls), p, c)
  {
    assert (calls + [c])[..|calls + [c]| - 1] == calls;
  }

  /** A wrapped backoff is no backoff: whatever the run, the next recovery is approved without any
      time passing, after at most one failed probe. */
  lemma {:induction false} WrappedBackoffIsNoBackoff(
    p: Policy, start: State, calls: seq<Call>) returns (more: seq<Call>)
    requires ValidPolicy(p)
    requires var t := Run(p, start, calls);
      && 0 < |t.approvals| < p.budget && !t.snapshot.state.Suspended?
      && t.approvals[|t.approvals| - 1] + Backoff(p, |t.approvals|) >= INT64
    ensures var t := Run(p, start, calls);
      Run(p, start, calls + more).approvals == t.approvals + [t.snapshot.lastTick]
  {
    RunKeepsInv(p, start, calls);
    var t := Run(p, start, calls);
    BackoffBounds(p, |t.approvals|);
    var s := t.snapshot;
    if s.state.Recovering? {
      var fail := Call(s.generation, s.lastTick, ProbeFailed);
      RunSnoc(p, start, calls, fail);
      var u := Observe(t, p, fail);
      var begin := Call(u.snapshot.generation, s.lastTick, BeginRecovery);
      RunSnoc(p, start, calls + [fail], begin);
      more := [fail, begin];
      assert calls + more == calls + [fail] + [begin];
    } else {
      var begin := Call(s.generation, s.lastTick, BeginRecovery);
      RunSnoc(p, start, calls, begin);
      more := [begin];
    }
  }

  /** What every continuation of a run keeps between its newest approval and the next. */
  predicate NextIsSpaced(p: Policy, start: State, calls: seq<Call>, more: seq<Call>)
    requires Run(p, start, calls).approvals != []
  {
    var before, after := Run(p, start, calls).approvals, Run(p, start, calls + more).approvals;
    before < after ==> after[|before|] - before[|before| - 1] >= Backoff(p, |before|)
  }

  /** While another recovery is within budget, the backoff of the newest one is kept by every
      continuation exactly when its own addition stays within 64 bits. */
  lemma {:induction false} SpacingExactly(p: Policy, start: State, calls: seq<Call>)
    requires ValidPolicy(p)
    requires var t := Run(p, start, calls); 0 < |t.approvals| < p.budget && !t.snapshot.state.Suspended?
    ensures var approvals := Run(p, start, calls).approvals;
      (forall more :: NextIsSpaced(p, start, calls, more)) <==>
        approvals[|approvals| - 1] + Backoff(p, |approvals|) < INT64
  {
    var t := Run(p, start, calls);
    var n := |t.approvals|;
    if t.approvals[n - 1] + Backoff(p, n) < INT64 {
      forall more ensures NextIsSpaced(p, start, calls, more) {
        BudgetAndSpacing(p, start, calls + more, n);
      }
    } else {
      RunKeepsInv(p, start, calls);
      var more := WrappedBackoffIsNoBackoff(p, start, calls);
      assert t.approvals < t.approvals + [t.snapshot.lastTick];
      assert !NextIsSpaced(p, start, calls, more);
    }
  }

  /** It happens, and at any tick: three calls at one tick approve two recoveries whenever the first
      backoff, added to that tick, leaves the 64-bit range. */
  lemma {:induction false} BackoffLost(p: Policy, at: Tick)
    requires ValidPolicy(p) && p.budget >= 2 && at >= 0 && at + p.base >= INT64
    ensures exists calls :: Run(p, Degraded, calls).approvals == [at, at]
  {
    var begin := Call(0, at, BeginRecovery);
    assert Run(p, Degraded, []).snapshot == NewSnapshot(Degraded);
    RunSnoc(p, Degraded, [], begin);
    assert [] + [begin] == [begin];
    var t := Run(p, Degraded, [begin]);
    assert t.approvals == [at];
    BackoffBounds(p, 1);
    assert Backoff(p, 1) == p.base;
    var more := WrappedBackoffIsNoBackoff(p, Degraded, [begin]);
    assert Run(p, Degraded, [begin] + more).approvals == [at] + [at];
  }

  // ----- Safe mode -----

  /** An elapsed cooldown comes at least the cooldown after safe mode was entered. */
  predicate Served(p: Policy, t: Trace, c: Call)
    requires t.entered.Since?
  {
    c.event.CooldownElapsed? && !Observe(t, p, c).snapshot.state.SafeMode? ==> c.at >= t.entered.at + p.cooldown
  }

  /** On every run, whatever is called next, safe mode's cooldown is served exactly when its end lies
      within the 64-bit range; otherwise the very next call, at the same tick, ends it. */
  lemma {:induction false} CooldownServedExactly(p: Policy, start: State, calls: seq<Call>)
    requires ValidPolicy(p) && Run(p, start, calls).entered.Since?
    ensures var t := Run(p, start, calls);
      && ((forall c :: Served(p, t, c)) <==> t.entered.at + p.cooldown < INT64)
      && (t.entered.at + p.cooldown >= INT64 ==> exists c: Call :: c.at == t.snapshot.lastTick && !Served(p, t, c))
  {
    RunKeepsInv(p, start, calls);
    var t := Run(p, start, calls);
    if t.entered.at + p.cooldown < INT64 {
      forall c ensures Served(p, t, c) {}
    } else {
      assert !Served(p, t, Call(t.snapshot.generation, t.snapshot.lastTick, CooldownElapsed));
    }
  }

  /** It happens: with a budget of one, three calls at one tick go through safe mode and out again. */
  lemma {:induction false} CooldownLost(p: Policy, at: Tick)
    requires ValidPolicy(p) && p.budget == 1 && at >= 0 && at + p.cooldown >= INT64
    ensures exists calls, c ::
      Run(p, Degraded, calls).entered == Since(at) && !Served(p, Run(p, Degraded, calls), c) && c.at == at
  {
    var begin, fail := Call(0, at, BeginRecovery), Call(1, at, ProbeFailed);
    assert Run(p, Degraded, []).snapshot == NewSnapshot(Degraded);
    RunSnoc(p, Degraded, [], begin);
    assert [] + [begin] == [begin];
    RunSnoc(p, Degraded, [begin], fail);
    var calls := [begin] + [fail];
    CooldownServedExactly(p, Degraded, calls);
    var t := Run(p, Degraded, calls);
    assert !Served(p, t, Call(t.snapshot.generation, at, CooldownElapsed));
  }
}

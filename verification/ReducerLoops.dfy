/** The loops a reduction runs, each proved to compute its specification function. */
module ReducerLoops {
  import opened Facts
  import opened Acceptance
  import opened Reducer
  import opened Comparison
  import opened Reduction

  const COMPONENTS: seq<Component> :=
    [PhysicalNetwork, DefaultPath, Dns, ScopedRoutes, Transports, Relays, UserAccess, SessionExpiry]

  lemma EveryComponentListed(c: Component)
    ensures c in COMPONENTS
  {
    match c
    case PhysicalNetwork => assert COMPONENTS[0] == c;
    case DefaultPath => assert COMPONENTS[1] == c;
    case Dns => assert COMPONENTS[2] == c;
    case ScopedRoutes => assert COMPONENTS[3] == c;
    case Transports => assert COMPONENTS[4] == c;
    case Relays => assert COMPONENTS[5] == c;
    case UserAccess => assert COMPONENTS[6] == c;
    case SessionExpiry => assert COMPONENTS[7] == c;
  }

  lemma {:induction false} PrefixOutOfOrder(t: Tables, es: seq<Event>, n: nat)
    requires AllKnown(t) && n <= |es| && Fold(t, es[..n]).None?
    ensures Fold(t, es).None?
    decreases |es| - n
  {
    if n == |es| {
      assert es[..n] == es;
    } else {
      assert es[..n + 1][..n] == es[..n];
      PrefixOutOfOrder(t, es, n + 1);
    }
  }

  /** The event loop: stops at the first event that does not continue both orders. */
  method FoldBatch(start: Tables, es: seq<Event>) returns (r: Option<Tables>)
    requires AllKnown(start)
    ensures r == Fold(start, es)
  {
    var t := start;
    for i := 0 to |es|
      invariant Fold(start, es[..i]) == Some(t)
      invariant AllKnown(t)
    {
      assert es[..i + 1][..i] == es[..i];
      if !es[i].decision.Decided? || es[i].decision.fold != t.fold + 1 ||
         (es[i].decision.outcome.Accepted? && es[i].decision.host != t.host + 1) {
        PrefixOutOfOrder(start, es, i + 1);
        return None;
      }
      t := Apply(t, es[i]);
    }
    assert es[..|es|] == es;
    return Some(t);
  }

  function ObservedAmong(t: Tables, n: nat): set<Component>
    requires AllKnown(t) && n <= |COMPONENTS|
  {
    set c | c in COMPONENTS[..n] && c in Observed(t)
  }

  lemma {:induction false} MarkOneMore(t: Tables, cs: set<Component>, c: Component)
    requires AllKnown(t)
    ensures Mark(t, cs + {c}) ==
      Mark(t, cs).(components := Mark(t, cs).components[c := Mark(t, cs).components[c].(rebaseline := true)])
  {
    assert forall d: Component ::
      Mark(t, cs + {c}).components[d] == Mark(t, cs).components[c := Mark(t, cs).components[c].(rebaseline := true)][d];
    assert Mark(t, cs + {c}).components == Mark(t, cs).components[c := Mark(t, cs).components[c].(rebaseline := true)];
  }

  lemma {:induction false} MarkNothing(t: Tables)
    requires AllKnown(t)
    ensures Mark(t, {}) == t
  {
    assert Mark(t, {}).components == t.components;
  }

  lemma {:induction false} ObservedNext(t: Tables, n: nat)
    requires AllKnown(t) && n < |COMPONENTS|
    ensures ObservedAmong(t, n + 1) ==
      ObservedAmong(t, n) + (if COMPONENTS[n] in Observed(t) then {COMPONENTS[n]} else {})
  {
    assert COMPONENTS[..n + 1] == COMPONENTS[..n] + [COMPONENTS[n]];
  }

  lemma {:induction false} ObservedAll(t: Tables)
    requires AllKnown(t)
    ensures ObservedAmong(t, |COMPONENTS|) == Observed(t)
  {
    assert COMPONENTS[..|COMPONENTS|] == COMPONENTS;
    forall c | c in Observed(t) ensures c in COMPONENTS { EveryComponentListed(c); }
  }

  /** Withdrawing the assumption that observations survived, component by component. */
  method MarkRebaseline(t: Tables) returns (m: Tables)
    requires AllKnown(t)
    ensures m == Mark(t, Observed(t))
  {
    m := t;
    MarkNothing(t);
    assert ObservedAmong(t, 0) == {};
    for i := 0 to |COMPONENTS|
      invariant m == Mark(t, ObservedAmong(t, i))
    {
      var c := COMPONENTS[i];
      ObservedNext(t, i);
      if TimeSensitive(c) && t.components[c].host != 0 {
        MarkOneMore(t, ObservedAmong(t, i), c);
        m := m.(components := m.components[c := m.components[c].(rebaseline := true)]);
      } else {
        assert ObservedAmong(t, i + 1) == ObservedAmong(t, i);
      }
    }
    ObservedAll(t);
  }

  /** One reduction, run imperatively. */
  method ReduceBatch(input: Input) returns (r: Result)
    ensures r == Reduce(input)
  {
    if !ValidInput(input) {
      return Err(InvalidInput);
    }
    var t := StartTables(input);
    if Withdraws(input.prior, input.context) {
      t := MarkRebaseline(t);
    }
    var folded := FoldBatch(t, input.events);
    match folded {
      case None => return Err(OutOfOrder);
      case Some(u) => return Conclude(u, input.context, View(input.prior));
    }
  }
}

/** Restored equals live, reductions that never fail, and two gap-free orders. */
module RuntimeResults {
  import opened Facts
  import opened Acceptance
  import opened History
  import opened AcceptorTheorems
  import opened AcceptorResults
  import opened Reducer
  import opened Comparison
  import opened Reduction
  import opened ReductionTheorems
  import opened ReductionResults
  import opened RuntimeModel
  import opened RuntimeTheorems

  /** At every tick boundary the acceptor rebuilt from the snapshot's watermarks is the live one; it
      passes validation and gives the same decision about every later sequence of facts. */
  lemma {:induction false} RestoredIsLive(w: World, start: State, later: seq<Fact>)
    requires Inv(w, start) && w.pending == [] && w.snapshot.Some?
    ensures var restored := RestoredState(w.snapshot.value);
      && ValidState(restored)
      && restored == w.acceptor
      && Run(restored, later) == Run(w.acceptor, later)
  {
    assert w.events[..Folded(w)] == w.events;
    EveryStateCanBeRestored(start, FactsOf(w.events));
  }

  /** Fold positions are consecutive, and the host sequences of accepted facts are. */
  predicate GapFree(w: World, start: State) {
    && InOrder(start.host, start.fold, w.events)
    && w.acceptor.fold == start.fold + |w.events|
    && w.acceptor.host == start.host + AcceptedCount(w.events)
  }

  lemma {:induction false} OrdersAreGapFree(w: World, start: State)
    requires Inv(w, start)
    ensures GapFree(w, start)
  {
    TwoOrders(start, FactsOf(w.events));
  }

  /** Events of both domains, interleaved with ticks in any way, share one order. */
  lemma {:induction false} TwoGapFreeOrders(boot: string, host: nat, fold: nat, ops: seq<Operation>)
    ensures GapFree(Execute(Fresh(boot, host, fold), ops), State(host, fold, map[]))
  {
    RunKeepsInv(boot, host, fold, ops);
    OrdersAreGapFree(Execute(Fresh(boot, host, fold), ops), State(host, fold, map[]));
  }

  lemma {:induction false} StartStorable(w: World, start: State, x: Context)
    requires Inv(w, start) && ValidInput(TickInput(w, x))
    ensures StorableTables(MarkedStart(TickInput(w, x)))
  {
    StartTablesStorable(TickInput(w, x));
    MarkStorable(StartTables(TickInput(w, x)), Observed(StartTables(TickInput(w, x))));
  }

  lemma {:induction false} StartTablesStorable(input: Input)
    requires ValidInput(input)
    ensures StorableTables(StartTables(input))
  {
  }

  lemma {:induction false} MarkStorable(t: Tables, cs: set<Component>)
    requires StorableTables(t)
    ensures StorableTables(Mark(t, cs))
  {
    assert forall c: Component :: Mark(t, cs).components[c].corroborations == t.components[c].corroborations;
  }

  lemma {:induction false} PendingBounded(w: World, start: State)
    requires Inv(w, start)
    ensures Bounded(w.pending) && Foldable(w.pending)
  {
    RunBounded(start, FactsOf(w.events));
    BoundedSuffix(w.events, Folded(w));
  }

  lemma {:induction false} BoundedSuffix(es: seq<Event>, n: nat)
    requires Bounded(es) && AllAdmissible(FactsOf(es)) && n <= |es|
    ensures Bounded(es[n..]) && Foldable(es[n..])
  {
    forall i | 0 <= i < |es| - n ensures es[n..][i] == es[n + i] && ValidFact(es[n + i].fact) {
      assert Admissible(FactsOf(es)[n + i]);
    }
  }

  /** What a tick's caller can get wrong: the time context and the policy. */
  predicate GoodTick(w: World, x: Context) {
    && ValidContext(x.(boot := w.boot))
    && (w.snapshot.Some? && w.snapshot.value.boot == w.boot ==> w.snapshot.value.tick <= x.tick)
    && ValidPolicies(x.policies)
  }

  /** A tick succeeds exactly when its time context and policy are well formed: the events are never
      out of order and the snapshot is never refused. */
  lemma {:induction false} TickSucceeds(w: World, start: State, x: Context)
    requires Inv(w, start)
    ensures Reduce(TickInput(w, x)).Ok? <==> GoodTick(w, x)
  {
    if GoodTick(w, x) {
      GoodTickIsValid(w, start, x);
      GoodTickSucceeds(w, start, x);
    } else {
      BadTickFails(w, x);
    }
  }

  lemma {:induction false} GoodTickIsValid(w: World, start: State, x: Context)
    requires Inv(w, start) && GoodTick(w, x)
    ensures ValidInput(TickInput(w, x))
  {
    PendingBounded(w, start);
  }

  lemma {:induction false} BadTickFails(w: World, x: Context)
    requires !GoodTick(w, x)
    ensures Reduce(TickInput(w, x)).Err?
  {
  }

  lemma {:induction false} GoodTickSucceeds(w: World, start: State, x: Context)
    requires Inv(w, start) && ValidInput(TickInput(w, x)) && ValidPolicies(x.policies)
    ensures Reduce(TickInput(w, x)).Ok?
  {
    var input := TickInput(w, x);
    TickFolds(w, start, x);
    StartStorable(w, start, x);
    PendingBounded(w, start);
    FoldStorable(MarkedStart(input), w.pending);
    ConcludeSucceeds(Fold(MarkedStart(input), w.pending).value, input.context, View(input.prior));
  }
}

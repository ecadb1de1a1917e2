/** Continuing above what was issued after an unrecoverable restart. */
module Issued {
  import opened Facts
  import opened Acceptance
  import opened History
  import opened AcceptorTheorems
  import opened AcceptorResults
  import opened Reducer
  import opened Reduction
  import opened RuntimeModel
  import opened RuntimeTheorems
  import opened RuntimeResults
  import opened ReplayModel
  import opened ReplayTheorems
  import opened JournalOrder

  function Max(a: nat, b: nat): nat {
    if a > b then a else b
  }

  function NewestHost(rs: seq<Record>): nat {
    if rs == [] then 0 else rs[|rs| - 1].host
  }

  function NewestFold(rs: seq<Record>): nat {
    if rs == [] then 0 else rs[|rs| - 1].fold
  }

  /** Both numbers are read off the newest record of each journal only. */
  function HighestIssued(root: seq<Record>, user: seq<Record>): (nat, nat) {
    (Max(NewestHost(root), NewestHost(user)), Max(NewestFold(root), NewestFold(user)))
  }

  predicate FoldsUpTo(rs: seq<Record>, fold: nat) {
    forall i :: 0 <= i < |rs| ==> rs[i].fold <= fold
  }

  predicate HostsUpTo(rs: seq<Record>, host: nat) {
    forall i :: 0 <= i < |rs| ==> rs[i].host <= host
  }

  predicate FoldsAbove(rs: seq<Record>, fold: nat) {
    forall i :: 0 <= i < |rs| ==> rs[i].fold > fold
  }

  // ----- Fold positions -----

  lemma {:induction false} KeptFolds(es: seq<Event>, d: Domain, fold: nat)
    requires AllDecided(es) && Continuous(RecordsOf(es), fold)
    ensures FoldsUpTo(Kept(es, d), fold + |es|) && FoldsAbove(Kept(es, d), fold)
    ensures es != [] && es[|es| - 1].fact.domain == d ==> Kept(es, d) != [] && NewestFold(Kept(es, d)) == fold + |es|
    decreases |es|
  {
    if es != [] {
      var most := es[..|es| - 1];
      assert RecordsOf(most) == RecordsOf(es)[..|es| - 1];
      assert RecordsOf(es)[|es| - 1].fold == fold + |es|;
      KeptFolds(most, d, fold);
    }
  }

  lemma {:induction false} NewestOfConcat(a: seq<Record>, b: seq<Record>)
    ensures NewestFold(a + b) == if b == [] then NewestFold(a) else NewestFold(b)
    ensures NewestHost(a + b) == if b == [] then NewestHost(a) else NewestHost(b)
  {
    if b == [] { assert a + b == a; }
  }

  /** Over any number of lives that each start from nothing recovered: if every fold position the
      journals show is at most what they report as issued, a further life hands out only higher
      ones, and the same is true of the journals it leaves behind. */
  lemma {:induction false} FoldNeverReissued(
    oldRoot: seq<Record>, oldUser: seq<Record>, boot: string, ops: seq<Operation>)
    requires FoldsUpTo(oldRoot, HighestIssued(oldRoot, oldUser).1)
    requires FoldsUpTo(oldUser, HighestIssued(oldRoot, oldUser).1)
    ensures var (host, fold) := HighestIssued(oldRoot, oldUser);
      var w := Execute(Fresh(boot, host, fold), ops);
      var root, user := oldRoot + w.root, oldUser + w.user;
      && FoldsAbove(w.root, fold) && FoldsAbove(w.user, fold)
      && FoldsUpTo(root, HighestIssued(root, user).1) && FoldsUpTo(user, HighestIssued(root, user).1)
  {
    var (host, fold) := HighestIssued(oldRoot, oldUser);
    var w := Execute(Fresh(boot, host, fold), ops);
    RunKeepsJournals(Fresh(boot, host, fold), ops);
    MergedJournalsAreTheRun(boot, host, fold, ops);
    LifeFolds(oldRoot, oldUser, w.root, w.user, w.events, fold);
  }

  lemma {:induction false} LifeFolds(
    oldRoot: seq<Record>, oldUser: seq<Record>, root: seq<Record>, user: seq<Record>, es: seq<Event>, fold: nat)
    requires AllDecided(es) && Continuous(RecordsOf(es), fold) && root == Kept(es, Root) && user == Kept(es, User)
    requires fold == HighestIssued(oldRoot, oldUser).1 && FoldsUpTo(oldRoot, fold) && FoldsUpTo(oldUser, fold)
    ensures FoldsAbove(root, fold) && FoldsAbove(user, fold)
    ensures var top := HighestIssued(oldRoot + root, oldUser + user).1;
      FoldsUpTo(oldRoot + root, top) && FoldsUpTo(oldUser + user, top)
  {
    KeptFolds(es, Root, fold);
    KeptFolds(es, User, fold);
    NewestOfConcat(oldRoot, root);
    NewestOfConcat(oldUser, user);
    var top := HighestIssued(oldRoot + root, oldUser + user).1;
    assert es != [] ==> top >= fold + |es|;
    assert es == [] ==> top == fold;
  }

  // ----- Host sequences -----

  /** After the last accepted event, its own domain journalled nothing else. */
  predicate LastAcceptedIsNewest(es: seq<Event>) {
    if es == [] then false
    else if IsAccepted(es[|es| - 1]) then true
    else LastAcceptedIsNewest(es[..|es| - 1]) && LastAcceptedDomain(es[..|es| - 1]) != Some(es[|es| - 1].fact.domain)
  }

  function LastAcceptedDomain(es: seq<Event>): Option<Domain> {
    if es == [] then None
    else if IsAccepted(es[|es| - 1]) then Some(es[|es| - 1].fact.domain)
    else LastAcceptedDomain(es[..|es| - 1])
  }

  /** A journal's newest host sequence is the highest one issued exactly for the domain that was
      accepted last, while nothing else followed there. */
  lemma {:induction false} KeptHosts(es: seq<Event>, d: Domain, host: nat, fold: nat)
    requires AllDecided(es) && InOrder(host, fold, es)
    ensures HostsUpTo(Kept(es, d), host + AcceptedCount(es))
    ensures AcceptedCount(es) > 0 <==> LastAcceptedDomain(es).Some?
    ensures AcceptedCount(es) > 0 ==>
      (NewestHost(Kept(es, d)) == host + AcceptedCount(es) <==>
        LastAcceptedDomain(es) == Some(d) && LastAcceptedIsNewest(es))
    decreases |es|
  {
    if es != [] {
      var most, e := es[..|es| - 1], es[|es| - 1];
      InOrderShorter(host, fold, es);
      KeptHosts(most, d, host, fold);
      assert es[..|es| - 1] == most;
    }
  }

  lemma {:induction false} InOrderShorter(host: nat, fold: nat, es: seq<Event>)
    requires InOrder(host, fold, es) && es != []
    ensures InOrder(host, fold, es[..|es| - 1])
  {
    forall i | 0 <= i < |es| - 1 ensures es[..|es| - 1][..i] == es[..i] {}
  }

  lemma {:induction false} SomeoneHolds(es: seq<Event>, host: nat, fold: nat)
    requires AllDecided(es) && InOrder(host, fold, es) && AcceptedCount(es) > 0
    ensures exists d, i :: 0 <= i < |Kept(es, d)| && Kept(es, d)[i].host == host + AcceptedCount(es)
    decreases |es|
  {
    var most, e := es[..|es| - 1], es[|es| - 1];
    InOrderShorter(host, fold, es);
    var n := |Kept(most, e.fact.domain)|;
    assert Kept(es, e.fact.domain)[n] == RecordOf(e);
    if !IsAccepted(e) {
      SomeoneHolds(most, host, fold);
      var d, i :| 0 <= i < |Kept(most, d)| && Kept(most, d)[i].host == host + AcceptedCount(most);
      assert Kept(es, d)[i] == Kept(most, d)[i];
    }
  }

  /** The highest host sequence is still the newest record of some journal after another life: either
      the life accepted facts, and after the last of them its own journal received nothing else; or it
      accepted none, and a journal that ends in the highest received nothing at all. */
  predicate StillNewest(oldRoot: seq<Record>, oldUser: seq<Record>, w: World) {
    var host := HighestIssued(oldRoot, oldUser).0;
    if AcceptedCount(w.events) > 0 then LastAcceptedIsNewest(w.events)
    else host == 0 || (NewestHost(oldRoot) == host && w.root == []) || (NewestHost(oldUser) == host && w.user == [])
  }

  /** Over any number of lives that each start from nothing recovered: if every host sequence the
      journals show is at most what they report as issued, the same is true after a further life, and
      none is issued again, if and only if the highest is still the newest record of some journal. */
  lemma {:induction false} HostReissuedExactly(
    oldRoot: seq<Record>, oldUser: seq<Record>, boot: string, ops: seq<Operation>)
    requires HostsUpTo(oldRoot, HighestIssued(oldRoot, oldUser).0)
    requires HostsUpTo(oldUser, HighestIssued(oldRoot, oldUser).0)
    ensures var (host, fold) := HighestIssued(oldRoot, oldUser);
      var w := Execute(Fresh(boot, host, fold), ops);
      var root, user := oldRoot + w.root, oldUser + w.user; var issued := HighestIssued(root, user).0;
      HostsUpTo(root, issued) && HostsUpTo(user, issued) <==> StillNewest(oldRoot, oldUser, w)
  {
    var (host, fold) := HighestIssued(oldRoot, oldUser);
    var w := Execute(Fresh(boot, host, fold), ops);
    RunKeepsJournals(Fresh(boot, host, fold), ops);
    TwoGapFreeOrders(boot, host, fold, ops);
    HostsOfLives(oldRoot, oldUser, w.events, host, fold, w.root, w.user);
  }

  lemma {:induction false} HostsOfLives(
    oldRoot: seq<Record>, oldUser: seq<Record>, es: seq<Event>, host: nat, fold: nat, root: seq<Record>,
    user: seq<Record>)
    requires host == HighestIssued(oldRoot, oldUser).0 && HostsUpTo(oldRoot, host) && HostsUpTo(oldUser, host)
    requires AllDecided(es) && InOrder(host, fold, es) && root == Kept(es, Root) && user == Kept(es, User)
    ensures var issued := HighestIssued(oldRoot + root, oldUser + user).0;
      HostsUpTo(oldRoot + root, issued) && HostsUpTo(oldUser + user, issued) <==>
      if AcceptedCount(es) > 0 then LastAcceptedIsNewest(es)
      else host == 0 || (NewestHost(oldRoot) == host && root == []) || (NewestHost(oldUser) == host && user == [])
  {
    NewestOfConcat(oldRoot, root);
    NewestOfConcat(oldUser, user);
    KeptHosts(es, Root, host, fold);
    KeptHosts(es, User, host, fold);
    if AcceptedCount(es) > 0 {
      SomeoneHolds(es, host, fold);
      HostsOfLife(oldRoot, oldUser, es, host, fold, root, user);
    } else {
      NothingIssued(es, Root, host, fold);
      NothingIssued(es, User, host, fold);
      HostsOfIdleLife(oldRoot, oldUser, host, root, user);
    }
  }

  /** A life that accepted nothing journals only records without a host sequence. */
  lemma {:induction false} NothingIssued(es: seq<Event>, d: Domain, host: nat, fold: nat)
    requires AllDecided(es) && InOrder(host, fold, es) && AcceptedCount(es) == 0
    ensures HostsUpTo(Kept(es, d), 0)
    decreases |es|
  {
    if es != [] {
      InOrderShorter(host, fold, es);
      NothingIssued(es[..|es| - 1], d, host, fold);
    }
  }

  lemma {:induction false} HostsUpToConcat(a: seq<Record>, b: seq<Record>, host: nat)
    ensures HostsUpTo(a + b, host) <==> HostsUpTo(a, host) && HostsUpTo(b, host)
  {
    var all := a + b;
    if HostsUpTo(all, host) {
      forall i | 0 <= i < |a| ensures a[i].host <= host { assert all[i] == a[i]; }
      forall i | 0 <= i < |b| ensures b[i].host <= host { assert all[|a| + i] == b[i]; }
    }
  }

  lemma {:induction false} HostsOfIdleLife(
    oldRoot: seq<Record>, oldUser: seq<Record>, host: nat, root: seq<Record>, user: seq<Record>)
    requires host == HighestIssued(oldRoot, oldUser).0 && HostsUpTo(oldRoot, host) && HostsUpTo(oldUser, host)
    requires HostsUpTo(root, 0) && HostsUpTo(user, 0)
    ensures var issued := HighestIssued(oldRoot + root, oldUser + user).0;
      HostsUpTo(oldRoot + root, issued) && HostsUpTo(oldUser + user, issued) <==>
      host == 0 || (NewestHost(oldRoot) == host && root == []) || (NewestHost(oldUser) == host && user == [])
  {
    NewestOfConcat(oldRoot, root);
    NewestOfConcat(oldUser, user);
    var issued := HighestIssued(oldRoot + root, oldUser + user).0;
    HostsUpToConcat(oldRoot, root, issued);
    HostsUpToConcat(oldUser, user, issued);
    if NewestHost(oldRoot) == host && host > 0 { assert oldRoot[|oldRoot| - 1].host == host; }
    if NewestHost(oldUser) == host && host > 0 { assert oldUser[|oldUser| - 1].host == host; }
  }

  lemma {:induction false} HostsOfLife(
    oldRoot: seq<Record>, oldUser: seq<Record>, es: seq<Event>, host: nat, fold: nat, root: seq<Record>,
    user: seq<Record>)
    requires HostsUpTo(oldRoot, host) && HostsUpTo(oldUser, host)
    requires AllDecided(es) && InOrder(host, fold, es) && AcceptedCount(es) > 0
    requires root == Kept(es, Root) && user == Kept(es, User)
    ensures var issued := HighestIssued(oldRoot + root, oldUser + user).0;
      (HostsUpTo(oldRoot + root, issued) && HostsUpTo(oldUser + user, issued)) <==> LastAcceptedIsNewest(es)
  {
    var top, issued := host + AcceptedCount(es), HighestIssued(oldRoot + root, oldUser + user).0;
    KeptHosts(es, Root, host, fold);
    KeptHosts(es, User, host, fold);
    IssuedIsTop(es, host, fold, root, user, top, Max(NewestHost(root), NewestHost(user)));
    TopIsHeld(es, host, fold, root, user, top);
    HostsTogether(oldRoot, oldUser, root, user, host, top, issued);
  }

  /** Someone's journal holds the highest host sequence the life issued. */
  lemma {:induction false} TopIsHeld(
    es: seq<Event>, host: nat, fold: nat, root: seq<Record>, user: seq<Record>, top: nat)
    requires AllDecided(es) && InOrder(host, fold, es) && AcceptedCount(es) > 0 && root == Kept(es, Root)
    requires user == Kept(es, User)
    requires top == host + AcceptedCount(es)
    ensures (exists i :: 0 <= i < |root| && root[i].host == top) || (exists i :: 0 <= i < |user| && user[i].host == top)
  {
    SomeoneHolds(es, host, fold);
    var d, i :| 0 <= i < |Kept(es, d)| && Kept(es, d)[i].host == top;
    match d { case Root => assert root[i].host == top; case User => assert user[i].host == top; }
  }

  lemma {:induction false} HostsTogether(
    oldRoot: seq<Record>, oldUser: seq<Record>, root: seq<Record>, user: seq<Record>, host: nat, top: nat, issued: nat)
    requires HostsUpTo(oldRoot, host) && HostsUpTo(oldUser, host) && HostsUpTo(root, top) && HostsUpTo(user, top)
    requires host < top
    requires issued == HighestIssued(oldRoot + root, oldUser + user).0
    requires (exists i :: 0 <= i < |root| && root[i].host == top) ||
      (exists i :: 0 <= i < |user| && user[i].host == top)
    ensures HostsUpTo(oldRoot + root, issued) && HostsUpTo(oldUser + user, issued) <==>
      Max(NewestHost(root), NewestHost(user)) == top
  {
    NewestOfConcat(oldRoot, root);
    NewestOfConcat(oldUser, user);
    HostsUpToConcat(oldRoot, root, issued);
    HostsUpToConcat(oldUser, user, issued);
    NewestWithin(oldRoot, host);
    NewestWithin(oldUser, host);
    NewestWithin(root, top);
    NewestWithin(user, top);
    assert issued == top <==> Max(NewestHost(root), NewestHost(user)) == top;
  }

  lemma {:induction false} IssuedIsTop(
    es: seq<Event>, host: nat, fold: nat, root: seq<Record>, user: seq<Record>, top: nat, newest: nat)
    requires AllDecided(es) && InOrder(host, fold, es) && AcceptedCount(es) > 0 && root == Kept(es, Root)
    requires user == Kept(es, User)
    requires top == host + AcceptedCount(es) && newest == Max(NewestHost(root), NewestHost(user))
    ensures newest == top <==> LastAcceptedIsNewest(es)
  {
    KeptHosts(es, Root, host, fold);
    KeptHosts(es, User, host, fold);
    NewestWithin(root, top);
    NewestWithin(user, top);
    match LastAcceptedDomain(es).value {
      case Root => assert newest == top <==> LastAcceptedIsNewest(es);
      case User => assert newest == top <==> LastAcceptedIsNewest(es);
    }
  }

  lemma {:induction false} NewestWithin(rs: seq<Record>, host: nat)
    requires HostsUpTo(rs, host)
    ensures NewestHost(rs) <= host
  {
  }

  function Opening(f: Fact): SourceState {
    SourceState(f.boot, f.sequence, [Remembered(f.sequence, f.digest)], [], false, {}, 0)
  }

  lemma {:induction false} FirstIsAccepted(f: Fact)
    requires Admissible(f)
    ensures var (st, d) := Step(State(0, 0, map[]), f, f.domain);
      st == State(1, 1, map[f.source := Opening(f)]) && d.Decided? && d.outcome.Accepted? && d.host == 1
  {
    var s := FirstContact(f.boot);
    assert [] + [Remembered(f.sequence, f.digest)] == [Remembered(f.sequence, f.digest)];
    assert Admit(s, f).after == Opening(f);
  }

  lemma {:induction false} AgainIsDuplicate(f: Fact, st: State)
    requires Admissible(f) && f.source in st.sources && st.sources[f.source] == Opening(f)
    ensures var d := Step(st, f, f.domain).1; d.Decided? && d.outcome.Duplicate? && d.host == 0
  {
  }

  lemma {:induction false} PublishTwice(w: World, f: Fact, domain: Domain)
    ensures Publish(w, [f, f], domain) == Offer(Offer(w, f, domain), f, domain)
  {
    assert [f][..0] == [];
    assert [f, f][..1] == [f];
    assert Publish(w, [f], domain) == Offer(w, f, domain);
  }

  lemma {:induction false} OneOfTwo(a: Event, b: Event)
    requires IsAccepted(a) && !IsAccepted(b)
    ensures AcceptedCount([a, b]) == 1
  {
    assert [a, b][..1] == [a] && [a][..0] == [];
    assert AcceptedCount([a]) == 1;
  }

  /** A retry is enough: one fact offered twice leaves a journal whose newest record shows nothing issued. */
  lemma {:induction false} RetryHidesIssue(f: Fact)
    requires Admissible(f)
    ensures var w := Publish(Fresh(f.boot, 0, 0), [f, f], f.domain);
      HighestIssued(w.root, w.user).0 == 0 && AcceptedCount(w.events) == 1
  {
    var w := Fresh(f.boot, 0, 0);
    PublishTwice(w, f, f.domain);
    FirstIsAccepted(f);
    var (st, d) := Step(w.acceptor, f, f.domain);
    AgainIsDuplicate(f, st);
    var d' := Step(st, f, f.domain).1;
    OneOfTwo(Event(f, d), Event(f, d'));
    assert Publish(w, [f, f], f.domain).events == [Event(f, d), Event(f, d')];
  }
}

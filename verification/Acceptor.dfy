/** The acceptor itself: a mutable object whose every call is one step of the decision rule. */
module AcceptorObject {
  import opened Facts
  import opened Acceptance

  class Acceptor {
    var host: nat
    var fold: nat
    var sources: map<SourceId, SourceState>

    function View(): State
      reads this
    {
      State(host, fold, sources)
    }

    constructor ()
      ensures View() == State(0, 0, map[])
    {
      host, fold, sources := 0, 0, map[];
    }

    constructor FromState(state: State)
      ensures View() == state
    {
      host, fold, sources := state.host, state.fold, state.sources;
    }

    /** An acceptor resumes exactly from a state that validates. */
    static method Restore(state: State) returns (acceptor: Acceptor?)
      ensures acceptor == null <==> !ValidState(state)
      ensures acceptor != null ==> fresh(acceptor) && acceptor.View() == state
    {
      if ValidState(state) {
        acceptor := new Acceptor.FromState(state);
      } else {
        acceptor := null;
      }
    }

    method Accept(f: Fact, domain: Domain) returns (d: Decision)
      modifies this
      ensures (View(), d) == Step(old(View()), f, domain)
    {
      if !ValidFact(f) {
        return Rejected(InvalidFact);
      }
      var verdict := Classify(f, domain);
      match verdict {
        case DomainMismatch => return Rejected(CrossesDomain);
        case NotDeclared => return Rejected(Ownership);
        case Speaks(_) =>
      }
      d := DecideFact(f, verdict.role);
    }

    method DecideFact(f: Fact, role: Role) returns (d: Decision)
      modifies this
      ensures View() == Decide(old(View()), f, role).0
      ensures d == Decide(old(View()), f, role).1
    {
      ghost var s := Entering(old(View()), f);
      if f.source !in sources {
        sources := sources[f.source := FirstContact(f.boot)];
      }
      fold := fold + 1;
      if sources[f.source].boot != f.boot {
        sources := sources[f.source := NewBoot(f.boot, f.source)];
        d := AdmitFact(f, role);
        if d.reason.NoReason? || d.reason.SequenceGap? {
          d := d.(reason := BootChanged);
        }
        assert sources == old(sources)[f.source := Admit(NewBoot(f.boot, f.source), f).after];
      } else if f.sequence > sources[f.source].last {
        d := AdmitFact(f, role);
        assert sources == old(sources)[f.source := Admit(s, f).after];
      } else {
        d := ReplayFact(f, role);
        assert sources == old(sources)[f.source := Replay(s, f).after];
      }
      d := d.(fold := fold);
    }

    method AdmitFact(f: Fact, role: Role) returns (d: Decision)
      requires f.source in sources
      modifies this`host, this`sources
      ensures var a := Admit(old(sources[f.source]), f);
        && host == old(host) + 1
        && sources == old(sources)[f.source := a.after]
        && d == Decided(Accepted, a.reason, role, f.digest, host, 0, a.hole, a.cleared, a.after)
    {
      var s := sources[f.source];
      var reason, hole, cleared := NoReason, None, [];
      if s.last > 0 && f.sequence > s.last + 1 {
        var gap := Gap(s.last + 1, f.sequence - 1);
        s := NoteGap(s, gap, f.source);
        hole, reason := Some(gap), SequenceGap;
      }
      if f.baseline && s.pending != {} {
        s := s.(pending := s.pending - {f.component});
        if s.pending == {} {
          cleared := s.gaps;
          s := s.(gaps := [], overflow := false, conflicts := 0);
          reason := BaselineAccepted;
        } else if reason.NoReason? {
          reason := BaselinePending;
        }
      }
      assert s == Settled(Held(old(sources[f.source]), f), f);
      s := Remember(s, f);
      sources := sources[f.source := s];
      host := host + 1;
      d := Decided(Accepted, reason, role, f.digest, host, 0, hole, cleared, s);
    }

    static method NoteGap(s: SourceState, gap: Gap, id: SourceId) returns (t: SourceState)
      ensures t == RecordGap(s, gap, id)
    {
      var gaps := SortGaps(s.gaps + [gap]);
      t := s.(gaps := gaps);
      if |gaps| > MAX_GAP_RANGES {
        t := t.(gaps := gaps[|gaps| - MAX_GAP_RANGES..], overflow := true);
      }
      t := t.(pending := t.pending + Declared(id));
    }

    static method Remember(s: SourceState, f: Fact) returns (t: SourceState)
      ensures t == Advanced(s, f)
    {
      var recent := s.recent + [Remembered(f.sequence, f.digest)];
      if |recent| > RETRY_WINDOW {
        recent := recent[|recent| - RETRY_WINDOW..];
      }
      t := s.(last := f.sequence, recent := recent);
    }

    method ReplayFact(f: Fact, role: Role) returns (d: Decision)
      requires f.source in sources
      modifies this`sources
      ensures var r := Replay(old(sources[f.source]), f);
        && sources == old(sources)[f.source := r.after]
        && d == Decided(r.outcome, r.reason, role, f.digest, 0, 0, None, [], r.after)
    {
      var s := sources[f.source];
      var i := 0;
      while i < |s.recent|
        invariant 0 <= i <= |s.recent|
        invariant Recall(s.recent, f.sequence) == Recall(s.recent[i..], f.sequence)
      {
        var entry := s.recent[i];
        if entry.sequence == f.sequence {
          if entry.digest == f.digest {
            sources := sources[f.source := s];
            return Decided(Duplicate, ExactRetry, role, f.digest, 0, 0, None, [], s);
          }
          s := s.(conflicts := (s.conflicts + 1) % UINT32, pending := s.pending + Declared(f.source));
          sources := sources[f.source := s];
          return Decided(Conflict, IdentityReused, role, f.digest, 0, 0, None, [], s);
        }
        assert s.recent[i..][1..] == s.recent[i + 1..];
        i := i + 1;
      }
      var inside := false;
      for j := 0 to |s.gaps|
        invariant inside <==> InGap(s.gaps[..j], f.sequence)
      {
        inside := inside || s.gaps[j].from <= f.sequence <= s.gaps[j].to;
        assert s.gaps[..j + 1] == s.gaps[..j] + [s.gaps[j]];
      }
      assert s.gaps[..|s.gaps|] == s.gaps;
      sources := sources[f.source := s];
      d := Decided(Stale, if inside then BehindWatermark else BeyondRetry, role, f.digest, 0, 0, None, [], s);
    }
  }
}

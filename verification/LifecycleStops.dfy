/** A registered sync is found, leaves the engine, is stopped, and writes no more: by a deregistration of its account,
    and by a build that finds itself cancelled. */
module LifecycleStops {
  import opened Optional
  import opened Accounts
  import opened Lifecycle
  import opened LifecycleSafety
  import opened LifecyclePasses

  ghost predicate EngineOk(s: State) {
    SyncsOk(s) && forall i, j :: 0 <= i < j < |s.engine| ==> s.engine[i] != s.engine[j]
  }

  predicate IsOfAccount(s: State, c: nat, qq: string) { c in s.builds && s.builds[c].qq == qq }

  /** The first registered sync of an account stands at place `i`. */
  predicate FirstAt(engine: seq<nat>, builds: map<nat, Build>, qq: string, i: nat) {
    && i < |engine| && engine[i] in builds && builds[engine[i]].qq == qq
    && forall k :: 0 <= k < i ==> engine[k] !in builds || builds[engine[k]].qq != qq
  }

  lemma {:induction false} SomeIsFirst(engine: seq<nat>, builds: map<nat, Build>, qq: string, e: nat) returns (i: nat)
    requires e in engine && e in builds && builds[e].qq == qq
    ensures FirstAt(engine, builds, qq, i)
  {
    if engine[0] in builds && builds[engine[0]].qq == qq {
      i := 0;
    } else {
      var j := SomeIsFirst(engine[1..], builds, qq, e);
      i := j + 1;
    }
  }

  lemma {:induction false} FirstIsFound(engine: seq<nat>, builds: map<nat, Build>, qq: string, i: nat)
    requires FirstAt(engine, builds, qq, i)
    ensures FirstOf(engine, builds, qq) == Some(engine[i])
  {
    if i > 0 {
      assert FirstAt(engine[1..], builds, qq, i - 1);
      FirstIsFound(engine[1..], builds, qq, i - 1);
    }
  }

  lemma {:induction false} NoneIsFound(engine: seq<nat>, builds: map<nat, Build>, qq: string)
    requires forall e :: e in engine ==> e !in builds || builds[e].qq != qq
    ensures FirstOf(engine, builds, qq) == None
  {
    if engine != [] {
      NoneIsFound(engine[1..], builds, qq);
    }
  }

  lemma {:induction false} DropTakesOne(engine: seq<nat>, i: nat)
    requires i < |engine| && forall k :: 0 <= k < i ==> engine[k] != engine[i]
    ensures Drop(engine, Some(engine[i])) == engine[..i] + engine[i + 1..]
  {
    if i > 0 {
      DropTakesOne(engine[1..], i - 1);
      assert engine[..i] + engine[i + 1..] == [engine[0]] + (engine[1..][..i - 1] + engine[1..][i..]);
    }
  }

  /** Detaching takes the first registered sync of the account out of the engine and leaves the others in order; with
      none registered it takes nothing. */
  lemma DetachTakesFirst(s: State, a: Step, qq: string)
    requires Enabled(s, a) && EngineOk(s)
    requires (a.DeregDetach? && s.deregs[a.d].qq == qq) || (a.RetireDetach? && s.builds[a.b].qq == qq)
    ensures forall i: nat :: FirstAt(s.engine, s.builds, qq, i) ==>
              && Next(s, a).engine == s.engine[..i] + s.engine[i + 1..]
              && (a.DeregDetach? ==> Next(s, a).deregs[a.d].found == Some(s.engine[i]))
              && (a.RetireDetach? ==> Next(s, a).builds[a.b].pc == Stopping(Some(s.engine[i])))
    ensures (forall e :: e in s.engine ==> !IsOfAccount(s, e, qq)) ==>
              && Next(s, a).engine == s.engine
              && (a.DeregDetach? ==> Next(s, a).deregs[a.d].found == None)
              && (a.RetireDetach? ==> Next(s, a).builds[a.b].pc == Stopping(None))
  {
    forall i: nat | FirstAt(s.engine, s.builds, qq, i)
      ensures FirstOf(s.engine, s.builds, qq) == Some(s.engine[i])
      ensures Drop(s.engine, Some(s.engine[i])) == s.engine[..i] + s.engine[i + 1..]
    {
      FirstIsFound(s.engine, s.builds, qq, i);
      DropTakesOne(s.engine, i);
    }
    if forall e :: e in s.engine ==> !IsOfAccount(s, e, qq) {
      NoneIsFound(s.engine, s.builds, qq);
    }
  }

  // ---- The engine along a run ----

  lemma {:induction false} DropDistinct(engine: seq<nat>, x: Option<nat>)
    requires forall i, j :: 0 <= i < j < |engine| ==> engine[i] != engine[j]
    ensures forall i, j :: 0 <= i < j < |Drop(engine, x)| ==> Drop(engine, x)[i] != Drop(engine, x)[j]
  {
    if engine != [] && x.Some? && engine[0] != x.value {
      DropDistinct(engine[1..], x);
      DropLeaves(engine[1..], x);
      var rest := Drop(engine[1..], x);
      forall j | 0 <= j < |rest| ensures rest[j] != engine[0] {
        assert rest[j] in engine[1..];
      }
    }
  }

  /** What a step does to the engine: a new sync joins at the end, or at most one is dropped. */
  lemma EngineMoves(s: State, a: Step) returns (x: Option<nat>)
    requires Enabled(s, a)
    ensures Next(s, a).engine == if a.Register? then s.engine + [a.b] else Drop(s.engine, x)
  {
    x := None;
    if OfPoll(a) {
      PollFrame(s, a);
    } else if OfDereg(a) {
      x := DeregEngine(s, a);
    } else if !a.Register? {
      x := BuildEngine(s, a);
    }
  }

  lemma DeregEngine(s: State, a: Step) returns (x: Option<nat>)
    requires Enabled(s, a) && OfDereg(a)
    ensures Next(s, a).engine == Drop(s.engine, x)
  {
    x := if a.DeregDetach? then FirstOf(s.engine, s.builds, s.deregs[a.d].qq) else None;
  }

  lemma BuildEngine(s: State, a: Step) returns (x: Option<nat>)
    requires Enabled(s, a) && OfBuild(a) && !a.Register?
    ensures Next(s, a).engine == Drop(s.engine, x)
  {
    x := if a.RetireDetach? then FirstOf(s.engine, s.builds, s.builds[a.b].qq) else None;
  }

  lemma EngineStep(s: State, a: Step)
    requires Enabled(s, a) && EngineOk(s)
    ensures EngineOk(Next(s, a))
  {
    SyncsStep(s, a);
    var x := EngineMoves(s, a);
    if a.Register? {
      assert a.b !in s.syncs;
    } else {
      DropDistinct(s.engine, x);
    }
  }

  lemma {:induction false} EngineRun(s: State, steps: seq<Step>)
    requires IsRun(s, steps) && EngineOk(s)
    ensures EngineOk(Final(s, steps))
    decreases |steps|
  {
    if steps != [] {
      EngineStep(s, steps[0]);
      EngineRun(Next(s, steps[0]), steps[1..]);
    }
  }

  /** Registered once, and no longer in the engine. */
  predicate Gone(s: State, c: nat) { c in s.syncs && c !in s.engine }

  lemma SyncsGrow(s: State, a: Step)
    requires Enabled(s, a)
    ensures s.syncs <= Next(s, a).syncs && s.stopped <= Next(s, a).stopped
  {
    if OfPoll(a) {
      PollFrame(s, a);
    } else if OfDereg(a) {
      DeregFrame(s, a);
    } else {
      BuildFrame(s, a);
    }
  }

  lemma GoneStep(s: State, a: Step, c: nat)
    requires Enabled(s, a) && EngineOk(s) && Gone(s, c)
    ensures Gone(Next(s, a), c)
  {
    SyncsGrow(s, a);
    var x := EngineMoves(s, a);
    if a.Register? {
      assert a.b !in s.syncs;
    } else {
      DropLeaves(s.engine, x);
    }
  }

  lemma WritesNoMore(s: State, a: Step, c: nat)
    requires Enabled(s, a) && c in s.stopped
    ensures c in Next(s, a).stopped && (c in Next(s, a).applied ==> c in s.applied)
  {
    SyncsGrow(s, a);
    if OfPoll(a) {
      PollApplies(s, a);
    } else if OfDereg(a) {
      DeregFrame(s, a);
    } else {
      BuildFrame(s, a);
      if a.Swap? {
        SwapApplies(s, a.b);
      }
    }
  }

  /** A stopped sync never writes again, whatever happens. */
  lemma {:induction false} StoppedWritesNoMore(s: State, steps: seq<Step>, c: nat)
    requires IsRun(s, steps) && c in s.stopped
    ensures c in Final(s, steps).stopped && (c in Final(s, steps).applied ==> c in s.applied)
    decreases |steps|
  {
    if steps != [] {
      WritesNoMore(s, steps[0], c);
      StoppedWritesNoMore(Next(s, steps[0]), steps[1..], c);
    }
  }

  // ---- A deregistration and the sync it found ----

  predicate HasFound(s: State, d: nat, c: nat) {
    d in s.deregs && s.deregs[d].found == Some(c) && !s.deregs[d].pc.Checked?
  }

  lemma FoundStays(s: State, a: Step, d: nat, c: nat)
    requires Enabled(s, a) && HasFound(s, d, c)
    ensures HasFound(Next(s, a), d, c)
  {
    if OfPoll(a) {
      PollFrame(s, a);
    } else if OfBuild(a) {
      BuildLeaves(s, a);
    } else {
      DeregsStay(s, a);
      DeregMoves(s, a, d);
      if d == a.d {
        FoundOwn(s, a, c);
      }
    }
  }

  lemma FoundOwn(s: State, a: Step, c: nat)
    requires Enabled(s, a) && OfDereg(a) && HasFound(s, a.d, c)
    ensures HasFound(Next(s, a), a.d, c)
  {
  }

  /** Once the stop or the clear of a deregistration has happened, it stays so. */
  lemma PastStays(s: State, a: Step, d: nat)
    requires Enabled(s, a) && d in s.deregs
    ensures d in Next(s, a).deregs
    ensures s.deregs[d].PastStop() || a == DeregStop(d) ==> Next(s, a).deregs[d].PastStop()
    ensures s.deregs[d].PastClear() || a == DeregClear(d) ==> Next(s, a).deregs[d].PastClear()
  {
    if OfPoll(a) {
      PollFrame(s, a);
    } else if OfBuild(a) {
      BuildLeaves(s, a);
    } else {
      DeregsStay(s, a);
      DeregMoves(s, a, d);
      if d == a.d {
        PastOwn(s, a);
      }
    }
  }

  lemma PastOwn(s: State, a: Step)
    requires Enabled(s, a) && OfDereg(a) && a.d in s.deregs && a.d in Next(s, a).deregs
    ensures s.deregs[a.d].PastStop() || a.DeregStop? ==> Next(s, a).deregs[a.d].PastStop()
    ensures s.deregs[a.d].PastClear() || a.DeregClear? ==> Next(s, a).deregs[a.d].PastClear()
  {
  }

  lemma {:induction false} FoundAlong(s: State, steps: seq<Step>, d: nat, c: nat)
    requires IsRun(s, steps) && EngineOk(s) && HasFound(s, d, c) && Gone(s, c) && InertAt(s, s.deregs[d])
    ensures var t := Final(s, steps);
      && c !in t.engine
      && (DeregStop(d) in steps || s.deregs[d].PastStop() ==> c in t.stopped)
      && (DeregClear(d) in steps || s.deregs[d].PastClear() ==> c !in t.applied)
    decreases |steps|
  {
    if steps != [] {
      var a, t := steps[0], Next(s, steps[0]);
      EngineStep(s, a);
      FoundStays(s, a, d, c);
      GoneStep(s, a, c);
      RetiredAt(s, a, d);
      PastStays(s, a, d);
      FoundAlong(t, steps[1..], d, c);
      assert forall x :: x in steps <==> x == a || x in steps[1..];
    }
  }

  /** In every interleaving: if a sync of the deregistered account is registered when the deregistration detaches, then
      one such sync, the first, has left the engine for good, is stopped from its stop on, and has not written to the
      index from its clear on. */
  lemma DeregStopsItsSync(s0: State, before: seq<Step>, d: nat, after: seq<Step>) returns (c: nat)
    requires Initial(s0) && IsRun(s0, before) && Enabled(Final(s0, before), DeregDetach(d))
    requires IsRun(Next(Final(s0, before), DeregDetach(d)), after)
    requires var s := Final(s0, before); exists e :: e in s.engine && IsOfAccount(s, e, s.deregs[d].qq)
    ensures var s, t := Final(s0, before), Final(Next(Final(s0, before), DeregDetach(d)), after);
      && c in s.engine && c in s.builds && s.builds[c].qq == s.deregs[d].qq && c !in t.engine
      && (DeregStop(d) in after ==> c in t.stopped) && (DeregClear(d) in after ==> c !in t.applied)
  {
    var s := Final(s0, before);
    var e :| e in s.engine && IsOfAccount(s, e, s.deregs[d].qq);
    EngineRun(s0, before);
    var i := SomeIsFirst(s.engine, s.builds, s.deregs[d].qq, e);
    c := s.engine[i];
    var a := DeregDetach(d);
    DeregDooms(s, d, i);
    EngineStep(s, a);
    FoundAlong(Next(s, a), after, d, c);
  }

  lemma Without(engine: seq<nat>, i: nat)
    requires i < |engine| && forall j, k :: 0 <= j < k < |engine| ==> engine[j] != engine[k]
    ensures engine[i] !in engine[..i] + engine[i + 1..]
  {
  }

  lemma DeregDooms(s: State, d: nat, i: nat)
    requires Enabled(s, DeregDetach(d)) && EngineOk(s) && FirstAt(s.engine, s.builds, s.deregs[d].qq, i)
    ensures var t := Next(s, DeregDetach(d));
            HasFound(t, d, s.engine[i]) && Gone(t, s.engine[i]) && InertAt(t, t.deregs[d])
  {
    DetachTakesFirst(s, DeregDetach(d), s.deregs[d].qq);
    Without(s.engine, i);
    DeregFrame(s, DeregDetach(d));
    assert s.engine[i] in s.syncs;
  }

  // ---- A cancelled build and the sync it found ----

  /** The build is about to stop this sync, or it is stopped. */
  predicate Doomed(s: State, b: nat, c: nat) { At(s, b, Stopping(Some(c))) || c in s.stopped }

  lemma DoomedStep(s: State, a: Step, b: nat, c: nat)
    requires Enabled(s, a) && Doomed(s, b, c)
    ensures Doomed(Next(s, a), b, c) && (a == RetireStop(b) && At(s, b, Stopping(Some(c))) ==> c in Next(s, a).stopped)
  {
    SyncsGrow(s, a);
    BuildsStay(s, a);
    if OfPoll(a) {
      PollFrame(s, a);
    } else if OfDereg(a) {
      DeregFrame(s, a);
    } else if a.b != b {
      if b in s.builds {
        BuildMoves(s, a, b);
      }
    } else if At(s, b, Stopping(Some(c))) {
      assert a == RetireStop(b);
    }
  }

  lemma {:induction false} DoomedAlong(s: State, steps: seq<Step>, b: nat, c: nat)
    requires IsRun(s, steps) && EngineOk(s) && Gone(s, c) && Doomed(s, b, c)
    ensures c !in Final(s, steps).engine && (RetireStop(b) in steps ==> c in Final(s, steps).stopped)
    ensures c in s.stopped ==> c in Final(s, steps).stopped
    decreases |steps|
  {
    if steps != [] {
      var a := steps[0];
      EngineStep(s, a);
      GoneStep(s, a, c);
      DoomedStep(s, a, b, c);
      SyncsGrow(s, a);
      DoomedAlong(Next(s, a), steps[1..], b, c);
      assert forall x :: x in steps <==> x == a || x in steps[1..];
    }
  }

  /** In every interleaving: when a build that finds itself cancelled detaches, the first registered sync of its account
      leaves the engine for good, and it is stopped, and writes no more, from the build's stop on. */
  lemma RetireStopsItsSync(s0: State, before: seq<Step>, b: nat, after: seq<Step>) returns (c: nat)
    requires Initial(s0) && IsRun(s0, before) && Enabled(Final(s0, before), RetireDetach(b))
    requires IsRun(Next(Final(s0, before), RetireDetach(b)), after)
    requires var s := Final(s0, before); exists e :: e in s.engine && IsOfAccount(s, e, s.builds[b].qq)
    ensures var s, t := Final(s0, before), Final(Next(Final(s0, before), RetireDetach(b)), after);
      && c in s.engine && c in s.builds && s.builds[c].qq == s.builds[b].qq && c !in t.engine
      && (RetireStop(b) in after ==> c in t.stopped)
  {
    var s := Final(s0, before);
    var e :| e in s.engine && IsOfAccount(s, e, s.builds[b].qq);
    EngineRun(s0, before);
    var i := SomeIsFirst(s.engine, s.builds, s.builds[b].qq, e);
    c := s.engine[i];
    var a := RetireDetach(b);
    RetireDooms(s, b, i);
    EngineStep(s, a);
    DoomedAlong(Next(s, a), after, b, c);
  }

  lemma RetireDooms(s: State, b: nat, i: nat)
    requires Enabled(s, RetireDetach(b)) && EngineOk(s) && FirstAt(s.engine, s.builds, s.builds[b].qq, i)
    ensures var t := Next(s, RetireDetach(b)); Gone(t, s.engine[i]) && Doomed(t, b, s.engine[i])
  {
    DetachTakesFirst(s, RetireDetach(b), s.builds[b].qq);
    Without(s.engine, i);
    SyncsGrow(s, RetireDetach(b));
    BuildsStay(s, RetireDetach(b));
    assert s.engine[i] in s.syncs;
  }
}

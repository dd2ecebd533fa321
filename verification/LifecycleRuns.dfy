/** Runs from the beginning on which a ready account loses its index, and on which it is given foreign rows. */
module LifecycleRuns {
  import opened Optional
  import opened Accounts
  import opened Lifecycle
  import opened LifecycleSafety
  import opened LifecycleCalm
  import opened LifecyclePasses
  import opened LifecycleWitness

  // ---- Two deregistrations of one account ----

  lemma TwoGuarded(s: State, a: Step, b: Step, t: State, rest: seq<Step>)
    requires Leads(s, a, b, t) && IsRun(t, rest) && IsGuarded(t, rest)
    requires ResetOk(s, a) && ResetOk(Next(s, a), b)
    ensures IsRun(s, [a, b] + rest) && IsGuarded(s, [a, b] + rest)
    ensures Final(s, [a, b] + rest) == Final(t, rest)
  {
    Two(s, a, b, t, rest);
    assert ([a, b] + rest)[1..] == [b] + rest && ([b] + rest)[1..] == rest;
  }

  lemma SoleAccount(qq: string, was: Status, st: Status)
    ensures SetStatus([Account(qq, was)], qq, st) == [Account(qq, st)] && Remove([Account(qq, was)], qq) == []
  {
    assert [Account(qq, was)][1..] == [];
  }

  function D(bump: nat, pc: DeregPc): Dereg { Dereg("a", None, bump, pc) }

  const OLD := Build("a", 0, Over)
  const TWICE := FAILED.(deregs := map[1 := D(0, Detached), 2 := D(0, Checked)])
  const CLEARED := TWICE.(epoch := 1, deregs := map[1 := D(1, Cleared), 2 := D(0, Checked)])
  const BUMPED := CLEARED.(generation := 1, deregs := map[1 := D(1, Bumped), 2 := D(0, Checked)])
  const FORGOTTEN :=
    IDLE.(epoch := 1, generation := 1, history := [Reset], builds := map[1 := OLD],
          deregs := map[1 := D(1, Finished), 2 := D(0, Checked)])
  const NEXT :=
    FORGOTTEN.(accounts := [Account("b", Indexing)], builds := map[1 := OLD, 2 := Build("b", 1, Sampled)])
  const NEXT_INSTALLED :=
    NEXT.(base := Some(2), history := [Reset, Baseline(2, 1)], builds := map[1 := OLD, 2 := Build("b", 1, Installed)])
  const NEXT_READY :=
    NEXT_INSTALLED.(accounts := [Account("b", Ready)], engine := [2], syncs := {2},
                    builds := map[1 := OLD, 2 := Build("b", 1, Serving)])
  const NEXT_HALTED := NEXT_READY.(deregs := map[1 := D(1, Finished), 2 := D(0, Stopped)])

  lemma ReachTwice()
    ensures Leads(FAILED, DeregCheck(2, "a"), DeregDetach(1), TWICE)
  {
    var s := Next(FAILED, DeregCheck(2, "a"));
    assert s.deregs == map[1 := D(0, Checked), 2 := D(0, Checked)];
    assert Next(s, DeregDetach(1)).deregs == TWICE.deregs;
  }

  lemma ReachCleared()
    ensures Leads(TWICE, DeregStop(1), DeregClear(1), CLEARED)
  {
    assert Next(Next(TWICE, DeregStop(1)), DeregClear(1)).deregs == CLEARED.deregs;
  }

  lemma ReachBumped()
    ensures Leads(CLEARED, DeregClearHistory(1), DeregBump(1), BUMPED)
  {
    assert Next(Next(CLEARED, DeregClearHistory(1)), DeregBump(1)).deregs == BUMPED.deregs;
  }

  lemma ReachForgotten()
    ensures Leads(BUMPED, DeregPublish(1), DeregReset(1), FORGOTTEN)
  {
    var s := Next(BUMPED, DeregPublish(1));
    assert s.history == [] + [Reset] == [Reset];
    assert Next(s, DeregReset(1)).deregs == FORGOTTEN.deregs;
    SoleAccount("a", Error, Error);
  }

  lemma ReachNext()
    ensures Leads(FORGOTTEN, Claim(2, "b"), Sample(2), NEXT)
  {
    var s := Next(FORGOTTEN, Claim(2, "b"));
    assert s.accounts == NEXT.accounts && s.builds == map[1 := OLD, 2 := Build("b", 0, Requested)];
    assert Next(s, Sample(2)).builds == NEXT.builds;
  }

  lemma ReachNextInstalled()
    ensures Leads(NEXT, Swap(2), PublishBaseline(2), NEXT_INSTALLED)
  {
    var s := Next(NEXT, Swap(2));
    assert s.builds == map[1 := OLD, 2 := Build("b", 1, Swapped)];
    assert Next(s, PublishBaseline(2)).builds == NEXT_INSTALLED.builds;
    assert [Reset] + [Baseline(2, 1)] == NEXT_INSTALLED.history;
  }

  lemma ReachNextReady()
    ensures Leads(NEXT_INSTALLED, Register(2), SetReady(2), NEXT_READY)
  {
    var s := Next(NEXT_INSTALLED, Register(2));
    assert s.builds == map[1 := OLD, 2 := Build("b", 1, Registered)] && s.engine == [] + [2] == [2];
    assert s.syncs == {2};
    var t := Next(s, SetReady(2));
    assert t.builds == NEXT_READY.builds;
    SoleAccount("b", Indexing, Ready);
  }

  lemma ReachNextHalted()
    ensures Leads(NEXT_READY, DeregDetach(2), DeregStop(2), NEXT_HALTED)
  {
    assert NEXT_READY.engine[1..] == [];
    assert FirstOf([2], NEXT_READY.builds, "a") == None;
    assert Next(Next(NEXT_READY, DeregDetach(2)), DeregStop(2)).deregs == NEXT_HALTED.deregs;
  }

  lemma ClearedUnder() returns (steps: seq<Step>)
    ensures IsRun(NEXT_HALTED, steps) && IsGuarded(NEXT_HALTED, steps) && !ReadyOk(Final(NEXT_HALTED, steps))
  {
    var s := Next(NEXT_HALTED, DeregClear(2));
    assert s.base.None? && Account("b", Ready) in s.accounts;
    assert s.deregs == map[1 := D(1, Finished), 2 := D(2, Cleared)];
    assert !Indexed(s, "b") && !ClearedFor(s, "b");
    steps := Before(NEXT_HALTED, DeregClear(2), []);
    assert steps[1..] == [];
  }

  lemma FromNext() returns (steps: seq<Step>)
    ensures IsRun(NEXT, steps) && IsGuarded(NEXT, steps) && !ReadyOk(Final(NEXT, steps))
  {
    var rest := ClearedUnder();
    ReachNextHalted();
    TwoGuarded(NEXT_READY, DeregDetach(2), DeregStop(2), NEXT_HALTED, rest);
    rest := [DeregDetach(2), DeregStop(2)] + rest;
    ReachNextReady();
    TwoGuarded(NEXT_INSTALLED, Register(2), SetReady(2), NEXT_READY, rest);
    rest := [Register(2), SetReady(2)] + rest;
    ReachNextInstalled();
    TwoGuarded(NEXT, Swap(2), PublishBaseline(2), NEXT_INSTALLED, rest);
    steps := [Swap(2), PublishBaseline(2)] + rest;
  }

  lemma FromForgotten() returns (steps: seq<Step>)
    ensures IsRun(FORGOTTEN, steps) && IsGuarded(FORGOTTEN, steps) && !ReadyOk(Final(FORGOTTEN, steps))
  {
    var rest := FromNext();
    ReachNext();
    TwoGuarded(FORGOTTEN, Claim(2, "b"), Sample(2), NEXT, rest);
    steps := [Claim(2, "b"), Sample(2)] + rest;
  }

  lemma FromBumped() returns (steps: seq<Step>)
    ensures IsRun(BUMPED, steps) && IsGuarded(BUMPED, steps) && !ReadyOk(Final(BUMPED, steps))
  {
    var rest := FromForgotten();
    ReachForgotten();
    assert forall b :: !Live(Next(BUMPED, DeregPublish(1)), b);
    TwoGuarded(BUMPED, DeregPublish(1), DeregReset(1), FORGOTTEN, rest);
    steps := [DeregPublish(1), DeregReset(1)] + rest;
  }

  lemma FromTwice() returns (steps: seq<Step>)
    ensures IsRun(TWICE, steps) && IsGuarded(TWICE, steps) && !ReadyOk(Final(TWICE, steps))
  {
    var rest := FromBumped();
    ReachBumped();
    TwoGuarded(CLEARED, DeregClearHistory(1), DeregBump(1), BUMPED, rest);
    rest := [DeregClearHistory(1), DeregBump(1)] + rest;
    ReachCleared();
    TwoGuarded(TWICE, DeregStop(1), DeregClear(1), CLEARED, rest);
    steps := [DeregStop(1), DeregClear(1)] + rest;
  }

  /** Deregistrations do not exclude each other: two of one account may pass their check, and the second may clear
      the index after the first has let another account in. Every reset of this run is guarded, and yet it ends with
      a ready account whose index is gone. */
  lemma ReadyMayLoseItsIndex() returns (s0: State, steps: seq<Step>)
    ensures Initial(s0) && IsRun(s0, steps) && IsGuarded(s0, steps)
    ensures !ReadyOk(Final(s0, steps)) && !ReadyThroughout(s0, steps) && !ClearsOwn(s0, steps)
  {
    s0 := IDLE;
    steps := FromTwice();
    ReachTwice();
    TwoGuarded(FAILED, DeregCheck(2, "a"), DeregDetach(1), TWICE, steps);
    steps := [DeregCheck(2, "a"), DeregDetach(1)] + steps;
    ReachFailed();
    TwoGuarded(SAMPLED, BuildFails(1), DeregCheck(1, "a"), FAILED, steps);
    steps := [BuildFails(1), DeregCheck(1, "a")] + steps;
    ReachSampled();
    TwoGuarded(IDLE, Claim(1, "a"), Sample(1), SAMPLED, steps);
    steps := [Claim(1, "a"), Sample(1)] + steps;
    InitialInOrder(s0);
    ReadyFrom(s0, steps);
  }

  // ---- A sync registered after the clear ----

  lemma TwoCalm(s: State, a: Step, b: Step, t: State, rest: seq<Step>)
    requires Leads(s, a, b, t) && IsRun(t, rest) && IsCalm(t, rest)
    requires Calm(s, a) && Calm(Next(s, a), b)
    ensures IsRun(s, [a, b] + rest) && IsCalm(s, [a, b] + rest)
    ensures Final(s, [a, b] + rest) == Final(t, rest)
  {
    Two(s, a, b, t, rest);
    assert ([a, b] + rest)[1..] == [b] + rest && ([b] + rest)[1..] == rest;
  }

  const INSTALLED :=
    SAMPLED.(base := Some(1), history := [Baseline(1, 0)], builds := map[1 := Build("a", 0, Installed)])
  const DETACHED := INSTALLED.(deregs := map[1 := D(0, Detached)])
  const EMPTIED := DETACHED.(epoch := 1, base := None, deregs := map[1 := D(1, Cleared)])
  const STRAY := Build("a", 0, Registered)
  const LATE :=
    EMPTIED.(history := [], engine := [1], syncs := {1}, builds := map[1 := STRAY],
             deregs := map[1 := D(1, HistoryCleared)])
  const TOLD := LATE.(generation := 1, history := [Reset], deregs := map[1 := D(1, Published)])
  const OTHER :=
    TOLD.(accounts := [Account("b", Indexing)], deregs := map[1 := D(1, Finished)],
          builds := map[1 := STRAY, 2 := Build("b", 0, Requested)])
  const OTHER_SWAPPED :=
    OTHER.(base := Some(2), lock := Some(2), builds := map[1 := STRAY, 2 := Build("b", 1, Swapped)])
  const OTHER_REGISTERED :=
    OTHER_SWAPPED.(lock := None, history := [Reset, Baseline(2, 1)], engine := [1, 2], syncs := {1, 2},
                   builds := map[1 := STRAY, 2 := Build("b", 1, Registered)])
  const OTHER_READY :=
    OTHER_REGISTERED.(accounts := [Account("b", Ready)], polls := map[1 := Poll(1, Reading)],
                      builds := map[1 := STRAY, 2 := Build("b", 1, Serving)])

  lemma ReachInstalled()
    ensures Leads(SAMPLED, Swap(1), PublishBaseline(1), INSTALLED)
  {
    var s := Next(SAMPLED, Swap(1));
    assert s.builds == map[1 := Build("a", 0, Swapped)];
    assert Next(s, PublishBaseline(1)).builds == INSTALLED.builds && [] + [Baseline(1, 0)] == INSTALLED.history;
  }

  lemma ReachDetached()
    ensures Leads(INSTALLED, DeregCheck(1, "a"), DeregDetach(1), DETACHED)
  {
    var s := Next(INSTALLED, DeregCheck(1, "a"));
    assert s.deregs == map[1 := D(0, Checked)];
    assert Next(s, DeregDetach(1)).deregs == DETACHED.deregs;
  }

  lemma ReachEmptied()
    ensures Leads(DETACHED, DeregStop(1), DeregClear(1), EMPTIED)
  {
    assert Next(Next(DETACHED, DeregStop(1)), DeregClear(1)).deregs == EMPTIED.deregs;
  }

  lemma ReachLate()
    ensures Leads(EMPTIED, Register(1), DeregClearHistory(1), LATE)
  {
    var s := Next(EMPTIED, Register(1));
    assert s.builds == LATE.builds && s.engine == [] + [1] == [1] && s.syncs == {1};
    assert Next(s, DeregClearHistory(1)).deregs == LATE.deregs;
  }

  lemma ReachTold()
    ensures Leads(LATE, DeregBump(1), DeregPublish(1), TOLD)
  {
    var s := Next(LATE, DeregBump(1));
    assert Next(s, DeregPublish(1)).deregs == TOLD.deregs && [] + [Reset] == TOLD.history;
  }

  lemma ReachOther()
    ensures Leads(TOLD, DeregReset(1), Claim(2, "b"), OTHER)
  {
    SoleAccount("a", Indexing, Indexing);
    var s := Next(TOLD, DeregReset(1));
    assert s.accounts == [] && s.deregs == OTHER.deregs;
    var t := Next(s, Claim(2, "b"));
    assert t.accounts == OTHER.accounts && t.builds == OTHER.builds;
  }

  lemma ReachOtherSwapped()
    ensures Leads(OTHER, Sample(2), Swap(2), OTHER_SWAPPED)
  {
    var s := Next(OTHER, Sample(2));
    assert s.builds == map[1 := STRAY, 2 := Build("b", 1, Sampled)];
    assert Next(s, Swap(2)).builds == OTHER_SWAPPED.builds;
  }

  lemma ReachOtherRegistered()
    ensures Leads(OTHER_SWAPPED, PublishBaseline(2), Register(2), OTHER_REGISTERED)
  {
    var s := Next(OTHER_SWAPPED, PublishBaseline(2));
    assert s.builds == map[1 := STRAY, 2 := Build("b", 1, Installed)];
    assert s.history == [Reset] + [Baseline(2, 1)] == OTHER_REGISTERED.history;
    var t := Next(s, Register(2));
    assert t.builds == OTHER_REGISTERED.builds && t.engine == [1] + [2] == [1, 2] && t.syncs == {1} + {2} == {1, 2};
  }

  lemma ReachOtherReady()
    ensures Leads(OTHER_REGISTERED, SetReady(2), PollRead(1, 1), OTHER_READY)
  {
    var s := Next(OTHER_REGISTERED, SetReady(2));
    SoleAccount("b", Indexing, Ready);
    assert s.builds == OTHER_READY.builds;
    assert Next(s, PollRead(1, 1)).polls == OTHER_READY.polls;
  }

  lemma StrayApplies() returns (steps: seq<Step>)
    ensures IsRun(OTHER_READY, steps) && IsCalm(OTHER_READY, steps)
    ensures var t := Final(OTHER_READY, steps); !Clean(t) && t.accounts == [Account("b", Ready)]
  {
    var s := Next(OTHER_READY, PollApply(1));
    assert s.applied == [] + [1] && s.builds[2].qq == "b" && s.builds[1].qq == "a";
    assert 1 in s.applied && !IsOf(s, 1, Host(s));
    steps := Before(OTHER_READY, PollApply(1), []);
    assert steps[1..] == [];
  }

  lemma FromOther() returns (steps: seq<Step>)
    ensures IsRun(OTHER, steps) && IsCalm(OTHER, steps)
    ensures var t := Final(OTHER, steps); !Clean(t) && t.accounts == [Account("b", Ready)]
  {
    var rest := StrayApplies();
    ReachOtherReady();
    TwoCalm(OTHER_REGISTERED, SetReady(2), PollRead(1, 1), OTHER_READY, rest);
    rest := [SetReady(2), PollRead(1, 1)] + rest;
    ReachOtherRegistered();
    TwoCalm(OTHER_SWAPPED, PublishBaseline(2), Register(2), OTHER_REGISTERED, rest);
    rest := [PublishBaseline(2), Register(2)] + rest;
    ReachOtherSwapped();
    TwoCalm(OTHER, Sample(2), Swap(2), OTHER_SWAPPED, rest);
    steps := [Sample(2), Swap(2)] + rest;
  }

  lemma FromTold() returns (steps: seq<Step>)
    ensures IsRun(TOLD, steps) && IsCalm(TOLD, steps)
    ensures var t := Final(TOLD, steps); !Clean(t) && t.accounts == [Account("b", Ready)]
  {
    var rest := FromOther();
    ReachOther();
    assert !DeregRunning(Next(TOLD, DeregReset(1)));
    TwoCalm(TOLD, DeregReset(1), Claim(2, "b"), OTHER, rest);
    steps := [DeregReset(1), Claim(2, "b")] + rest;
  }

  lemma FromEmptied() returns (steps: seq<Step>)
    ensures IsRun(EMPTIED, steps) && IsCalm(EMPTIED, steps)
    ensures var t := Final(EMPTIED, steps); !Clean(t) && t.accounts == [Account("b", Ready)]
  {
    var rest := FromTold();
    ReachTold();
    TwoCalm(LATE, DeregBump(1), DeregPublish(1), TOLD, rest);
    rest := [DeregBump(1), DeregPublish(1)] + rest;
    ReachLate();
    TwoCalm(EMPTIED, Register(1), DeregClearHistory(1), LATE, rest);
    steps := [Register(1), DeregClearHistory(1)] + rest;
  }

  lemma FromSampled() returns (steps: seq<Step>)
    ensures IsRun(SAMPLED, steps) && IsCalm(SAMPLED, steps)
    ensures var t := Final(SAMPLED, steps); !Clean(t) && t.accounts == [Account("b", Ready)]
  {
    var rest := FromEmptied();
    ReachEmptied();
    TwoCalm(DETACHED, DeregStop(1), DeregClear(1), EMPTIED, rest);
    rest := [DeregStop(1), DeregClear(1)] + rest;
    ReachDetached();
    assert !BuildRequested(INSTALLED);
    TwoCalm(INSTALLED, DeregCheck(1, "a"), DeregDetach(1), DETACHED, rest);
    rest := [DeregCheck(1, "a"), DeregDetach(1)] + rest;
    ReachInstalled();
    TwoCalm(SAMPLED, Swap(1), PublishBaseline(1), INSTALLED, rest);
    steps := [Swap(1), PublishBaseline(1)] + rest;
  }

  /** A build registers its sync before it finds that it has been deregistered. Until it retires it, the sync passes
      like any other, and its rows enter whatever index has been installed since, even in a calm run. */
  lemma StraySyncMixesRows() returns (s0: State, steps: seq<Step>)
    ensures Initial(s0) && IsRun(s0, steps) && IsCalm(s0, steps) && !IsHosted(s0, steps)
    ensures !Clean(Final(s0, steps)) && Final(s0, steps).accounts == [Account("b", Ready)]
  {
    s0 := IDLE;
    var rest := FromSampled();
    ReachSampled();
    assert !DeregRunning(IDLE);
    TwoCalm(IDLE, Claim(1, "a"), Sample(1), SAMPLED, rest);
    steps := [Claim(1, "a"), Sample(1)] + rest;
    if IsHosted(s0, steps) {
      HostedRunIsClean(s0, steps);
    }
  }
}

/** Runs from the beginning that bind two accounts. */
module LifecycleWitness {
  import opened Optional
  import opened Accounts
  import opened Lifecycle
  import opened LifecycleSafety

  /** Two steps lead from `s` to `t`. */
  predicate Leads(s: State, a: Step, b: Step, t: State) {
    Enabled(s, a) && Enabled(Next(s, a), b) && Next(Next(s, a), b) == t
  }

  lemma Two(s: State, a: Step, b: Step, t: State, rest: seq<Step>)
    requires Leads(s, a, b, t) && IsRun(t, rest)
    ensures IsRun(s, [a, b] + rest) && Final(s, [a, b] + rest) == Final(t, rest)
  {
    var steps := Before(Next(s, a), b, rest);
    steps := Before(s, a, steps);
    assert steps == [a, b] + rest;
  }

  const IDLE := State([], {}, 0, 0, None, [], None, [], [], {}, {}, map[], map[], map[])

  // ---- A build that samples after the clear ----

  const CHECKED :=
    IDLE.(accounts := [Account("a", Indexing)], builds := map[1 := Build("a", 0, Requested)],
          deregs := map[1 := Dereg("a", None, 0, Checked)])
  const HALTED := CHECKED.(deregs := map[1 := Dereg("a", None, 0, Stopped)])
  const SAMPLED_LATE :=
    IDLE.(accounts := [Account("a", Indexing)], epoch := 1, builds := map[1 := Build("a", 1, Sampled)],
          deregs := map[1 := Dereg("a", None, 1, Cleared)])

  lemma ReachChecked()
    ensures Leads(IDLE, Claim(1, "a"), DeregCheck(1, "a"), CHECKED)
  {
    var s := Next(IDLE, Claim(1, "a"));
    assert s.accounts == CHECKED.accounts && s.builds == CHECKED.builds;
  }

  lemma ReachHalted()
    ensures Leads(CHECKED, DeregDetach(1), DeregStop(1), HALTED)
  {
    assert Next(Next(CHECKED, DeregDetach(1)), DeregStop(1)).deregs == HALTED.deregs;
  }

  lemma ReachSampledLate()
    ensures Leads(HALTED, DeregClear(1), Sample(1), SAMPLED_LATE)
  {
    var s := Next(HALTED, DeregClear(1));
    assert s.deregs == SAMPLED_LATE.deregs && Next(s, Sample(1)).builds == SAMPLED_LATE.builds;
  }

  lemma LateInOrder()
    ensures Live(SAMPLED_LATE, 1) && OrderInv(SAMPLED_LATE)
  {
  }

  lemma FromHalted() returns (steps: seq<Step>)
    ensures IsRun(HALTED, steps) && !OneBound(Final(HALTED, steps).accounts)
    ensures [DeregClear(1), Sample(1)] <= steps
  {
    LateInOrder();
    var rest := ThenReset(SAMPLED_LATE, 1, 1);
    ReachSampledLate();
    Two(HALTED, DeregClear(1), Sample(1), SAMPLED_LATE, rest);
    steps := [DeregClear(1), Sample(1)] + rest;
  }

  /** The epoch is sampled inside the spawned build: a deregistration may begin before that, and clear before it
      samples. The build then passes for current, and its outcome binds its account beside another one. */
  lemma UncalmRunBindsTwo() returns (s0: State, steps: seq<Step>)
    ensures Initial(s0) && IsRun(s0, steps) && !OneBound(Final(s0, steps).accounts)
    ensures [Claim(1, "a"), DeregCheck(1, "a"), DeregDetach(1), DeregStop(1), DeregClear(1), Sample(1)] <= steps
  {
    s0 := IDLE;
    steps := FromHalted();
    ReachHalted();
    ReachChecked();
    Two(CHECKED, DeregDetach(1), DeregStop(1), HALTED, steps);
    steps := [DeregDetach(1), DeregStop(1)] + steps;
    Two(IDLE, Claim(1, "a"), DeregCheck(1, "a"), CHECKED, steps);
    steps := [Claim(1, "a"), DeregCheck(1, "a")] + steps;
  }

  // ---- From a clear beside a live build ----

  ghost predicate Beside(s: State, d: nat, b: nat) {
    OrderInv(s) && Live(s, b) && d in s.deregs && s.builds[b].qq == s.deregs[d].qq
  }

  lemma StaysBeside(s: State, a: Step, d: nat, b: nat)
    requires a in {DeregClearHistory(d), DeregBump(d), DeregPublish(d)}
    requires Enabled(s, a) && Beside(s, d, b)
    ensures Beside(Next(s, a), d, b)
  {
    OrderStep(s, a);
  }

  /** The deregistration runs on to its reset while the build is still live, and then two accounts get bound. */
  lemma ThenReset(s: State, d: nat, b: nat) returns (steps: seq<Step>)
    requires DeregAt(s, d, Cleared) && Beside(s, d, b)
    ensures IsRun(s, steps) && !OneBound(Final(s, steps).accounts)
  {
    StaysBeside(s, DeregClearHistory(d), d, b);
    var rest := ThenBump(Next(s, DeregClearHistory(d)), d, b);
    steps := Before(s, DeregClearHistory(d), rest);
  }

  lemma ThenBump(s: State, d: nat, b: nat) returns (steps: seq<Step>)
    requires DeregAt(s, d, HistoryCleared) && Beside(s, d, b)
    ensures IsRun(s, steps) && !OneBound(Final(s, steps).accounts)
  {
    StaysBeside(s, DeregBump(d), d, b);
    var rest := ThenPublish(Next(s, DeregBump(d)), d, b);
    steps := Before(s, DeregBump(d), rest);
  }

  lemma ThenPublish(s: State, d: nat, b: nat) returns (steps: seq<Step>)
    requires DeregAt(s, d, Bumped) && Beside(s, d, b)
    ensures IsRun(s, steps) && !OneBound(Final(s, steps).accounts)
  {
    StaysBeside(s, DeregPublish(d), d, b);
    var rest := AtReset(Next(s, DeregPublish(d)), d, b);
    steps := Before(s, DeregPublish(d), rest);
  }

  lemma AtReset(s: State, d: nat, b: nat) returns (steps: seq<Step>)
    requires DeregAt(s, d, Published) && Beside(s, d, b)
    ensures IsRun(s, steps) && !OneBound(Final(s, steps).accounts)
  {
    var tail := ResetBesideLiveBindsTwo(s, d);
    steps := [DeregReset(d)] + tail;
  }

  // ---- An account in error, claimed again between the clear and the reset ----

  const SAMPLED :=
    IDLE.(accounts := [Account("a", Indexing)], builds := map[1 := Build("a", 0, Sampled)])
  const FAILED :=
    IDLE.(accounts := [Account("a", Error)], builds := map[1 := Build("a", 0, Over)],
          deregs := map[1 := Dereg("a", None, 0, Checked)])
  const FAILED_HALTED := FAILED.(deregs := map[1 := Dereg("a", None, 0, Stopped)])
  const RECLAIMED :=
    IDLE.(accounts := [Account("a", Indexing)], epoch := 1,
          builds := map[1 := Build("a", 0, Over), 2 := Build("a", 0, Requested)],
          deregs := map[1 := Dereg("a", None, 1, Cleared)])

  lemma ReachSampled()
    ensures Leads(IDLE, Claim(1, "a"), Sample(1), SAMPLED)
  {
    var s := Next(IDLE, Claim(1, "a"));
    assert s.accounts == SAMPLED.accounts && s.builds == map[1 := Build("a", 0, Requested)];
    assert Next(s, Sample(1)).builds == SAMPLED.builds;
  }

  lemma ReachFailed()
    ensures Leads(SAMPLED, BuildFails(1), DeregCheck(1, "a"), FAILED)
  {
    var s := Next(SAMPLED, BuildFails(1));
    assert s.accounts == FAILED.accounts && s.builds == FAILED.builds;
    assert Next(s, DeregCheck(1, "a")).deregs == FAILED.deregs;
  }

  lemma ReachFailedHalted()
    ensures Leads(FAILED, DeregDetach(1), DeregStop(1), FAILED_HALTED)
  {
    assert Next(Next(FAILED, DeregDetach(1)), DeregStop(1)).deregs == FAILED_HALTED.deregs;
  }

  lemma ReachReclaimed()
    ensures Leads(FAILED_HALTED, DeregClear(1), Claim(2, "a"), RECLAIMED)
  {
    var s := Next(FAILED_HALTED, DeregClear(1));
    assert s.deregs == RECLAIMED.deregs;
    var t := Next(s, Claim(2, "a"));
    assert t.accounts == RECLAIMED.accounts && t.builds == RECLAIMED.builds;
  }

  lemma ReclaimedInOrder()
    ensures Live(RECLAIMED, 2) && OrderInv(RECLAIMED)
  {
  }

  lemma FromFailed() returns (steps: seq<Step>)
    ensures IsRun(FAILED, steps) && !OneBound(Final(FAILED, steps).accounts)
    ensures [DeregDetach(1), DeregStop(1), DeregClear(1), Claim(2, "a")] <= steps
  {
    ReclaimedInOrder();
    var rest := ThenReset(RECLAIMED, 1, 2);
    ReachReclaimed();
    ReachFailedHalted();
    Two(FAILED_HALTED, DeregClear(1), Claim(2, "a"), RECLAIMED, rest);
    rest := [DeregClear(1), Claim(2, "a")] + rest;
    Two(FAILED, DeregDetach(1), DeregStop(1), FAILED_HALTED, rest);
    steps := [DeregDetach(1), DeregStop(1)] + rest;
  }

  /** An account in error is still bound, so it can be deregistered, and it can be claimed again until it is
      reset. The new claim's build is then live while its account is reset. */
  lemma ReclaimRunBindsTwo() returns (s0: State, steps: seq<Step>)
    ensures Initial(s0) && IsRun(s0, steps) && !OneBound(Final(s0, steps).accounts)
    ensures [Claim(1, "a"), Sample(1), BuildFails(1),
             DeregCheck(1, "a"), DeregDetach(1), DeregStop(1), DeregClear(1), Claim(2, "a")] <= steps
  {
    s0 := IDLE;
    steps := FromFailed();
    ReachFailed();
    ReachSampled();
    Two(SAMPLED, BuildFails(1), DeregCheck(1, "a"), FAILED, steps);
    steps := [BuildFails(1), DeregCheck(1, "a")] + steps;
    Two(IDLE, Claim(1, "a"), Sample(1), SAMPLED, steps);
    steps := [Claim(1, "a"), Sample(1)] + steps;
  }
}

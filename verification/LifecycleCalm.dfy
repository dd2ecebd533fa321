/** The environment the program relies on: registrations do not overlap a deregistration, and every build has
    sampled the epoch before the next one begins. Its runs are orderly. */
module LifecycleCalm {
  import opened Optional
  import opened Accounts
  import opened Lifecycle
  import opened LifecycleSafety

  predicate IsCalm(s: State, steps: seq<Step>)
    requires IsRun(s, steps)
    decreases |steps|
  {
    steps == [] || (Calm(s, steps[0]) && IsCalm(Next(s, steps[0]), steps[1..]))
  }

  /** What a running deregistration was before a step that starts none. */
  lemma RunningWas(s: State, a: Step, d: nat)
    requires Enabled(s, a) && !a.DeregCheck?
    requires d in Next(s, a).deregs && Next(s, a).deregs[d].Running()
    ensures d in s.deregs && s.deregs[d].Running() && Next(s, a).deregs[d].qq == s.deregs[d].qq
    ensures Next(s, a).deregs[d].PastClear() ==> s.deregs[d].PastClear() || a.DeregClear?
  {
    if OfPoll(a) {
      PollFrame(s, a);
    } else if OfBuild(a) {
      BuildLeaves(s, a);
    } else {
      DeregMoves(s, a, d);
      DeregProgress(s, a);
    }
  }

  /** Where no build has yet to sample, no step that claims nothing changes the epoch of a build. */
  lemma EpochsRest(s: State, a: Step, b: nat)
    requires Enabled(s, a) && !a.Claim? && b in Next(s, a).builds
    requires forall c :: c in s.builds ==> !s.builds[c].pc.Requested?
    ensures b in s.builds && Next(s, a).builds[b].epoch == s.builds[b].epoch
    ensures !Next(s, a).builds[b].pc.Requested?
  {
    if OfPoll(a) {
      PollFrame(s, a);
    } else if OfDereg(a) {
      DeregFrame(s, a);
    } else {
      BuildMoves(s, a, b);
      if b == a.b {
        EpochMoves(s, a);
        NotRequested(s, a);
      }
    }
  }

  lemma NotRequested(s: State, a: Step)
    requires Enabled(s, a) && OfBuild(a) && !a.Claim?
    ensures a.b in Next(s, a).builds && !Next(s, a).builds[a.b].pc.Requested?
  {
  }

  lemma EpochWas(s: State, a: Step)
    requires Enabled(s, a)
    ensures Next(s, a).epoch == if a.DeregClear? then s.epoch + 1 else s.epoch
  {
    if OfPoll(a) {
      PollFrame(s, a);
    } else if OfDereg(a) {
      DeregFrame(s, a);
    } else {
      BuildLeaves(s, a);
    }
  }

  predicate IsBound(accs: Accounts, qq: string) { exists x :: x in accs && x.Bound() && x.qq == qq }

  lemma BoundOutcome(s: State, a: Step, b: nat, x: Account)
    requires a == BuildFails(b) || a == SetReady(b)
    requires Enabled(s, a) && OrderInv(s) && x in Next(s, a).accounts && x.Bound()
    ensures IsBound(s.accounts, x.qq)
  {
    if s.builds[b].epoch == s.epoch {
      OutcomeAccounts(s, a, b);
      assert Account(s.builds[b].qq, Indexing).Bound();
    }
  }

  /** A step binds no account that was not bound, but by a claim. */
  lemma BoundWas(s: State, a: Step, x: Account)
    requires Enabled(s, a) && !a.Claim? && OrderInv(s) && x in Next(s, a).accounts && x.Bound()
    ensures IsBound(s.accounts, x.qq)
  {
    if a.BuildFails? || a.SetReady? {
      BoundOutcome(s, a, a.b, x);
    } else if a.DeregReset? {
      ResetUnbinds(s.accounts, s.scanned, s.deregs[a.d].qq);
    } else if Quiet(a) {
      QuietKeeps(s, a);
    } else if a.DeregClear? {
      DeregFrame(s, a);
    }
  }

  lemma DeregsStep(s: State, a: Step)
    requires Enabled(s, a) && Calm(s, a) && OrderInv(s) && DeregsOk(s)
    ensures DeregsOk(Next(s, a))
  {
    if a.Claim? {
      BuildLeaves(s, a);
    } else if a.DeregCheck? {
      CheckDeregs(s, a.d, a.qq);
    } else {
      var t := Next(s, a);
      forall d | d in t.deregs && t.deregs[d].Running()
        ensures d in s.deregs && s.deregs[d].Running() && t.deregs[d].qq == s.deregs[d].qq
      {
        RunningWas(s, a, d);
      }
      forall d, b | d in t.deregs && t.deregs[d].Running() && b in t.builds
        ensures !t.builds[b].pc.Requested? && (t.deregs[d].PastClear() ==> t.builds[b].epoch != t.epoch)
      {
        RunningWas(s, a, d);
        EpochsRest(s, a, b);
        EpochWas(s, a);
      }
      forall d, x | d in t.deregs && t.deregs[d].Running() && x in t.accounts && x.Bound()
        ensures x.qq == t.deregs[d].qq
      {
        BoundWas(s, a, x);
      }
    }
  }

  lemma CheckDeregs(s: State, d: nat, qq: string)
    requires Enabled(s, DeregCheck(d, qq)) && Calm(s, DeregCheck(d, qq)) && OrderInv(s) && DeregsOk(s)
    ensures DeregsOk(Next(s, DeregCheck(d, qq)))
  {
    var t := Next(s, DeregCheck(d, qq));
    assert t.builds == s.builds && t.accounts == s.accounts && t.epoch == s.epoch;
  }

  /** A calm step resets no account beside a live build, and clears no index under another ready account. */
  lemma CalmIsOrderly(s: State, a: Step)
    requires Enabled(s, a) && OrderInv(s) && DeregsOk(s)
    ensures ResetOk(s, a) && ClearOk(s, a)
  {
    if a.DeregReset? {
      assert s.deregs[a.d].Running() && s.deregs[a.d].PastClear();
    } else if a.DeregClear? {
      assert s.deregs[a.d].Running();
    }
  }

  lemma {:induction false} CalmFrom(s: State, steps: seq<Step>)
    requires IsRun(s, steps) && IsCalm(s, steps) && OrderInv(s) && DeregsOk(s)
    ensures IsGuarded(s, steps) && ClearsOwn(s, steps)
    decreases |steps|
  {
    if steps != [] {
      CalmIsOrderly(s, steps[0]);
      DeregsStep(s, steps[0]);
      OrderStep(s, steps[0]);
      CalmFrom(Next(s, steps[0]), steps[1..]);
    }
  }

  /** Every calm run meets both guards. */
  lemma CalmRunIsOrderly(s0: State, steps: seq<Step>)
    requires Initial(s0) && IsRun(s0, steps) && IsCalm(s0, steps)
    ensures IsGuarded(s0, steps) && ClearsOwn(s0, steps)
  {
    InitialInOrder(s0);
    CalmFrom(s0, steps);
  }

  /** In every calm interleaving at most one account is past waiting for its key, and a ready account's
      index is the one in the store unless a deregistration has already cleared it. */
  lemma OneBindingAndReadyIsIndexed(s0: State, steps: seq<Step>)
    requires Initial(s0) && IsRun(s0, steps) && IsCalm(s0, steps)
    ensures OneBound(Final(s0, steps).accounts)
    ensures ReadyOk(Final(s0, steps)) && ReadyIsIndexed(Final(s0, steps))
  {
    CalmRunIsOrderly(s0, steps);
    GuardedRunBindsOne(s0, steps);
    InitialInOrder(s0);
    ReadyFrom(s0, steps);
    var s := Final(s0, steps);
    forall x | x in s.accounts && x.status.Ready? && !PastAClear(s) ensures Indexed(s, x.qq) {
      assert !ClearedFor(s, x.qq);
    }
  }
}

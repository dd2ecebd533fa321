/** Safety of the account lifecycle over whole runs. */
module LifecycleSafety {
  import opened Optional
  import opened Accounts
  import opened Lifecycle

  // ---- Whole runs ----

  predicate IsRun(s: State, steps: seq<Step>)
    decreases |steps|
  {
    steps == [] || (Enabled(s, steps[0]) && IsRun(Next(s, steps[0]), steps[1..]))
  }

  function Final(s: State, steps: seq<Step>): State
    requires IsRun(s, steps)
    decreases |steps|
  {
    if steps == [] then s else Final(Next(s, steps[0]), steps[1..])
  }

  lemma Before(s: State, a: Step, rest: seq<Step>) returns (steps: seq<Step>)
    requires Enabled(s, a) && IsRun(Next(s, a), rest)
    ensures steps == [a] + rest && IsRun(s, steps) && Final(s, steps) == Final(Next(s, a), rest)
  {
    steps := [a] + rest;
    assert steps[1..] == rest;
  }

  // ---- In every interleaving ----

  ghost predicate AnyInv(s: State) { Consistent(s) && NoGhostBaseline(s) && RetiredIsInert(s) }

  lemma {:induction false} RunKeeps(s: State, steps: seq<Step>)
    requires IsRun(s, steps) && AnyInv(s)
    ensures AnyInv(Final(s, steps))
    decreases |steps|
  {
    if steps != [] {
      ConsistentStep(s, steps[0]);
      NoGhostStep(s, steps[0]);
      RetiredStep(s, steps[0]);
      RunKeeps(Next(s, steps[0]), steps[1..]);
    }
  }

  /** In every interleaving: past a deregistration's history clear the replay buffer holds no older
      baseline, and the sync it stopped never touches conversations or watermarks after its clear. */
  lemma NoGhostAndInert(s0: State, steps: seq<Step>)
    requires Initial(s0) && IsRun(s0, steps)
    ensures NoGhostBaseline(Final(s0, steps)) && RetiredIsInert(Final(s0, steps))
  {
    RunKeeps(s0, steps);
  }

  /** In every interleaving: once a deregistration cleared the index, no build that sampled the epoch
      before its bump installs an index, publishes a baseline, or writes an account's state. */
  lemma NoResurrection(s0: State, steps: seq<Step>, a: Step, b: nat, d: nat)
    requires Initial(s0) && IsRun(s0, steps)
    requires var s := Final(s0, steps);
      && Enabled(s, a) && a in {Swap(b), PublishBaseline(b), BuildFails(b), SetReady(b)}
      && d in s.deregs && s.deregs[d].PastClear() && s.builds[b].epoch < s.deregs[d].bump
    ensures var s, t := Final(s0, steps), Next(Final(s0, steps), a);
      t.base == s.base && t.applied == s.applied && t.history == s.history && t.accounts == s.accounts
  {
    RunKeeps(s0, steps);
  }

  // ---- One binding, as long as no reset happens beside a live build ----

  lemma ResetUnbinds(accs: Accounts, scanned: set<string>, qq: string)
    requires Distinct(accs)
    ensures Distinct(ResetAccount(accs, scanned, qq))
    ensures forall a :: a in ResetAccount(accs, scanned, qq) && a.Bound() ==> a in accs && a.qq != qq
    ensures forall a :: a in accs && a.qq != qq ==> a in ResetAccount(accs, scanned, qq)
  {
    RemoveRemoves(accs, qq);
    SetStatusSets(accs, qq, AwaitingKey);
  }

  /** Only a claim makes a build live, no step changes what account a build is for, and a clear leaves only
      those live that have yet to sample. */
  lemma LiveShrinks(s: State, a: Step, b: nat)
    requires Enabled(s, a) && EpochsOk(s) && !a.Claim? && Live(Next(s, a), b)
    ensures Live(s, b) && Next(s, a).builds[b].qq == s.builds[b].qq
    ensures a.DeregClear? ==> s.builds[b].pc.Requested?
    ensures Next(s, a).builds[b].Holding() && !a.Swap? ==> s.builds[b].Holding()
  {
    if OfPoll(a) {
      PollFrame(s, a);
    } else if OfDereg(a) {
      DeregFrame(s, a);
    } else {
      BuildLeaves(s, a);
      BuildMoves(s, a, b);
      if b == a.b {
        OwnLive(s, a);
      }
    }
  }

  lemma OwnLive(s: State, a: Step)
    requires Enabled(s, a) && OfBuild(a) && !a.Claim? && Live(Next(s, a), a.b)
    ensures Live(s, a.b) && (Next(s, a).builds[a.b].Holding() && !a.Swap? ==> s.builds[a.b].Holding())
  {
  }

  /** A step that writes neither the account list nor the index nor the epoch. */
  predicate Quiet(a: Step) {
    !(a.Claim? || a.Swap? || a.BuildFails? || a.SetReady? || a.DeregClear? || a.DeregReset?)
  }

  lemma QuietKeeps(s: State, a: Step)
    requires Enabled(s, a) && Quiet(a)
    ensures Next(s, a).accounts == s.accounts && Next(s, a).base == s.base && Next(s, a).epoch == s.epoch
  {
  }

  /** Where the account list stays and nothing new is live, the live builds stay in order. */
  lemma LiveOkShrinks(s: State, t: State)
    requires LiveOk(s) && t.accounts == s.accounts && t.base == s.base
    requires forall b :: Live(t, b) ==> Live(s, b) && t.builds[b].qq == s.builds[b].qq
    requires forall b :: Live(t, b) && t.builds[b].Holding() ==> s.builds[b].Holding()
    ensures LiveOk(t)
  {
  }

  lemma AllLiveWere(s: State, a: Step)
    requires Enabled(s, a) && EpochsOk(s) && !a.Claim?
    ensures var t := Next(s, a);
      && (forall b :: Live(t, b) ==> Live(s, b) && t.builds[b].qq == s.builds[b].qq)
      && (!a.Swap? ==> forall b :: Live(t, b) && t.builds[b].Holding() ==> s.builds[b].Holding())
  {
    var t := Next(s, a);
    forall b | Live(t, b)
      ensures Live(s, b) && t.builds[b].qq == s.builds[b].qq
      ensures !a.Swap? && t.builds[b].Holding() ==> s.builds[b].Holding()
    {
      LiveShrinks(s, a, b);
    }
  }

  lemma QuietLive(s: State, a: Step)
    requires Enabled(s, a) && Quiet(a) && OrderInv(s)
    ensures LiveOk(Next(s, a)) && AccountsOk(Next(s, a))
  {
    QuietKeeps(s, a);
    AllLiveWere(s, a);
    LiveOkShrinks(s, Next(s, a));
  }

  /** A claim is won only when no build is live. */
  lemma ClaimFindsNoneLive(s: State, b: nat, qq: string)
    requires Enabled(s, Claim(b, qq)) && AccountsOk(s) && LiveOk(s)
    ensures BeginIndexing(s.accounts, qq).1.Claimed? ==> forall c :: !Live(s, c)
  {
    ClaimKeepsOneBound(s.accounts, qq);
    if BeginIndexing(s.accounts, qq).1.Claimed? {
      forall c ensures !Live(s, c) {
        if Live(s, c) {
          assert Account(s.builds[c].qq, Indexing).Bound();
        }
      }
    }
  }

  lemma ClaimLive(s: State, b: nat, qq: string)
    requires Enabled(s, Claim(b, qq)) && AccountsOk(s) && LiveOk(s)
    ensures LiveOk(Next(s, Claim(b, qq))) && AccountsOk(Next(s, Claim(b, qq)))
  {
    ClaimKeepsOneBound(s.accounts, qq);
    ClaimFindsNoneLive(s, b, qq);
    var t := Next(s, Claim(b, qq));
    if t != s {
      forall c | Live(t, c) ensures c == b {
        assert Live(s, c) || c == b;
      }
    }
  }

  /** A live build writes its outcome: its account was the one bound, and indexing. */
  lemma OutcomeAccounts(s: State, a: Step, b: nat)
    requires a == BuildFails(b) || a == SetReady(b)
    requires Enabled(s, a) && AccountsOk(s) && LiveOk(s) && s.builds[b].epoch == s.epoch
    ensures AccountsOk(Next(s, a)) && Account(s.builds[b].qq, Indexing) in s.accounts
    ensures forall x :: x in Next(s, a).accounts && x.Bound() ==>
              x == Account(s.builds[b].qq, if a.SetReady? then Ready else Error)
  {
    assert Live(s, b);
    assert Account(s.builds[b].qq, Indexing).Bound();
    SetStatusSets(s.accounts, s.builds[b].qq, if a.SetReady? then Ready else Error);
  }

  lemma OutcomeLive(s: State, a: Step, b: nat)
    requires a == BuildFails(b) || a == SetReady(b)
    requires Enabled(s, a) && OrderInv(s)
    ensures LiveOk(Next(s, a)) && AccountsOk(Next(s, a))
  {
    var t := Next(s, a);
    if s.builds[b].epoch == s.epoch {
      OutcomeAccounts(s, a, b);
      assert Live(s, b);
      forall c ensures !Live(t, c) {
        if Live(t, c) {
          LiveShrinks(s, a, c);
        }
      }
    } else {
      AllLiveWere(s, a);
      LiveOkShrinks(s, t);
    }
  }

  lemma SwapLive(s: State, b: nat)
    requires Enabled(s, Swap(b)) && OrderInv(s)
    ensures LiveOk(Next(s, Swap(b))) && AccountsOk(Next(s, Swap(b)))
  {
    var a, t := Swap(b), Next(s, Swap(b));
    AllLiveWere(s, a);
    if s.builds[b].epoch == s.epoch {
      assert Live(s, b);
    } else {
      forall c | Live(t, c) && t.builds[c].Holding() ensures s.builds[c].Holding() {
        BuildMoves(s, a, c);
      }
      LiveOkShrinks(s, t);
    }
  }

  lemma ClearLive(s: State, d: nat)
    requires Enabled(s, DeregClear(d)) && OrderInv(s)
    ensures LiveOk(Next(s, DeregClear(d))) && AccountsOk(Next(s, DeregClear(d)))
  {
    var t := Next(s, DeregClear(d));
    forall c | Live(t, c)
      ensures Live(s, c) && t.builds[c].qq == s.builds[c].qq && !t.builds[c].Holding()
    {
      LiveShrinks(s, DeregClear(d), c);
    }
  }

  lemma ResetLive(s: State, d: nat)
    requires Enabled(s, DeregReset(d)) && OrderInv(s) && ResetOk(s, DeregReset(d))
    ensures LiveOk(Next(s, DeregReset(d))) && AccountsOk(Next(s, DeregReset(d)))
  {
    var t := Next(s, DeregReset(d));
    ResetUnbinds(s.accounts, s.scanned, s.deregs[d].qq);
    forall c | Live(t, c) ensures Live(s, c) && t.builds[c] == s.builds[c] {
      LiveShrinks(s, DeregReset(d), c);
    }
  }

  lemma LoudLive(s: State, a: Step)
    requires Enabled(s, a) && OrderInv(s) && ResetOk(s, a) && !Quiet(a)
    ensures LiveOk(Next(s, a)) && AccountsOk(Next(s, a))
  {
    match a
    case Claim(b, qq) => ClaimLive(s, b, qq);
    case Swap(b) => SwapLive(s, b);
    case BuildFails(b) => OutcomeLive(s, a, b);
    case SetReady(b) => OutcomeLive(s, a, b);
    case DeregClear(d) => ClearLive(s, d);
    case DeregReset(d) => ResetLive(s, d);
  }

  lemma OrderStep(s: State, a: Step)
    requires Enabled(s, a) && OrderInv(s) && ResetOk(s, a)
    ensures OrderInv(Next(s, a))
  {
    ConsistentStep(s, a);
    if Quiet(a) {
      QuietLive(s, a);
    } else {
      LoudLive(s, a);
    }
  }

  /** Every reset of the run happens with no build of that account live. */
  ghost predicate IsGuarded(s: State, steps: seq<Step>)
    requires IsRun(s, steps)
    decreases |steps|
  {
    steps == [] || (ResetOk(s, steps[0]) && IsGuarded(Next(s, steps[0]), steps[1..]))
  }

  lemma {:induction false} GuardedRunKeeps(s: State, steps: seq<Step>)
    requires IsRun(s, steps) && IsGuarded(s, steps) && OrderInv(s)
    ensures OrderInv(Final(s, steps))
    decreases |steps|
  {
    if steps != [] {
      OrderStep(s, steps[0]);
      GuardedRunKeeps(Next(s, steps[0]), steps[1..]);
    }
  }

  lemma InitialInOrder(s: State)
    requires Initial(s)
    ensures OrderInv(s)
  {
  }

  /** In every run whose resets are guarded, at most one account is past waiting for its key. */
  lemma GuardedRunBindsOne(s0: State, steps: seq<Step>)
    requires Initial(s0) && IsRun(s0, steps) && IsGuarded(s0, steps)
    ensures OneBound(Final(s0, steps).accounts)
  {
    InitialInOrder(s0);
    GuardedRunKeeps(s0, steps);
  }

  // ---- And no longer: a reset beside a live build can be followed by two bindings ----

  lemma {:induction false} Unused(m: set<nat>) returns (n: nat)
    ensures forall k :: k in m ==> k < n
    decreases m
  {
    if m == {} {
      n := 0;
    } else {
      var k :| k in m;
      var rest := Unused(m - {k});
      n := if rest <= k then k + 1 else rest;
      assert forall j :: j in m ==> j == k || j in m - {k};
    }
  }

  /** Two accounts past waiting. */
  lemma BoundTwice(accs: Accounts, x: Account, y: Account)
    requires x in accs && y in accs && x.Bound() && y.Bound() && x != y
    ensures !OneBound(accs)
  {
  }

  lemma FailsBeside(s: State, b: nat, other: Account)
    requires At(s, b, Sampled) && s.builds[b].epoch == s.epoch && Distinct(s.accounts)
    requires other in s.accounts && other.Bound() && other.qq != s.builds[b].qq
    ensures Enabled(s, BuildFails(b)) && !OneBound(Next(s, BuildFails(b)).accounts)
  {
    var qq := s.builds[b].qq;
    SetStatusSets(s.accounts, qq, Error);
    BoundTwice(Next(s, BuildFails(b)).accounts, Account(qq, Error), other);
  }

  lemma ServesBeside(s: State, b: nat, other: Account)
    requires At(s, b, Registered) && s.builds[b].epoch == s.epoch && Distinct(s.accounts)
    requires other in s.accounts && other.Bound() && other.qq != s.builds[b].qq
    ensures Enabled(s, SetReady(b)) && !OneBound(Next(s, SetReady(b)).accounts)
  {
    var qq := s.builds[b].qq;
    SetStatusSets(s.accounts, qq, Ready);
    BoundTwice(Next(s, SetReady(b)).accounts, Account(qq, Ready), other);
  }

  /** Whatever a live build has left to do, it ends by writing its account's state. */
  lemma LiveOutcome(s: State, b: nat, other: Account) returns (steps: seq<Step>)
    requires Live(s, b) && Distinct(s.accounts)
    requires other in s.accounts && other.Bound() && other.qq != s.builds[b].qq
    ensures IsRun(s, steps) && !OneBound(Final(s, steps).accounts)
    decreases match s.builds[b].pc case Requested => 4 case Swapped => 3 case Installed => 2 case _ => 1
  {
    match s.builds[b].pc
    case Requested =>
      var rest := LiveOutcome(Next(s, Sample(b)), b, other);
      steps := Before(s, Sample(b), rest);
    case Sampled =>
      FailsBeside(s, b, other);
      steps := Before(s, BuildFails(b), []);
    case Swapped =>
      var rest := LiveOutcome(Next(s, PublishBaseline(b)), b, other);
      steps := Before(s, PublishBaseline(b), rest);
    case Installed =>
      var rest := LiveOutcome(Next(s, Register(b)), b, other);
      steps := Before(s, Register(b), rest);
    case Registered =>
      ServesBeside(s, b, other);
      steps := Before(s, SetReady(b), []);
  }

  lemma ClaimsBeside(s: State, b: nat, c: nat, other: string)
    requires Live(s, b) && c !in s.builds && Distinct(s.accounts) && other != s.builds[b].qq
    requires forall x :: x in s.accounts ==> !x.Bound()
    ensures var t := Next(s, Claim(c, other));
      && Live(t, b) && t.builds[b] == s.builds[b] && Distinct(t.accounts) && Account(other, Indexing) in t.accounts
  {
    ClaimKeepsOneBound(s.accounts, other);
  }

  /** A reset beside a live build of the same account has a continuation that binds two. */
  lemma ResetBesideLiveBindsTwo(s: State, d: nat) returns (steps: seq<Step>)
    requires OrderInv(s) && Enabled(s, DeregReset(d)) && !ResetOk(s, DeregReset(d))
    ensures IsRun(s, [DeregReset(d)] + steps) && !OneBound(Final(s, [DeregReset(d)] + steps).accounts)
  {
    var b :| Live(s, b) && s.builds[b].qq == s.deregs[d].qq;
    var qq, t := s.builds[b].qq, Next(s, DeregReset(d));
    assert Account(qq, Indexing).Bound();
    ResetUnbinds(s.accounts, s.scanned, qq);
    assert Live(t, b) && t.builds[b] == s.builds[b];
    var c := Unused(t.builds.Keys);
    var other := qq + "0";
    ClaimsBeside(t, b, c, other);
    var rest := LiveOutcome(Next(t, Claim(c, other)), b, Account(other, Indexing));
    steps := Before(t, Claim(c, other), rest);
    var all := Before(s, DeregReset(d), steps);
  }

  lemma Splice(steps: seq<Step>, k: nat, more: seq<Step>)
    requires steps != [] && k < |steps|
    ensures [steps[0]] + (steps[1..][..k] + more) == steps[..k + 1] + more
  {
  }

  /** A run with an unguarded reset can, from there, be continued to two bindings: the guard is exact. */
  lemma {:induction false} UnguardedFrom(s: State, steps: seq<Step>) returns (n: nat, more: seq<Step>)
    requires IsRun(s, steps) && !IsGuarded(s, steps) && OrderInv(s)
    ensures n <= |steps| && IsRun(s, steps[..n] + more) && !OneBound(Final(s, steps[..n] + more).accounts)
    decreases |steps|
  {
    var a := steps[0];
    if !ResetOk(s, a) {
      n := 1;
      more := ResetBesideLiveBindsTwo(s, a.d);
      assert steps[..1] == [a];
    } else {
      OrderStep(s, a);
      var k;
      k, more := UnguardedFrom(Next(s, a), steps[1..]);
      n := k + 1;
      Splice(steps, k, more);
      var all := Before(s, a, steps[1..][..k] + more);
    }
  }

  lemma UnguardedRunCanBindTwo(s0: State, steps: seq<Step>) returns (n: nat, more: seq<Step>)
    requires Initial(s0) && IsRun(s0, steps) && !IsGuarded(s0, steps)
    ensures n <= |steps| && IsRun(s0, steps[..n] + more) && !OneBound(Final(s0, steps[..n] + more).accounts)
  {
    InitialInOrder(s0);
    n, more := UnguardedFrom(s0, steps);
  }

  // ---- A ready account's index ----

  lemma SameReady(s: State, t: State)
    requires ReadyOk(s) && t.base == s.base && t.epoch == s.epoch
    requires forall x :: x in t.accounts && x.status.Ready? ==> x in s.accounts
    requires forall b :: b in s.builds && s.builds[b].pc.Serving? ==> b in t.builds && t.builds[b] == s.builds[b]
    requires forall x :: x in t.accounts && x.status.Ready? && ClearedFor(s, x.qq) ==> ClearedFor(t, x.qq)
    ensures ReadyOk(t)
  {
    forall x | x in t.accounts && x.status.Ready? ensures Indexed(t, x.qq) || ClearedFor(t, x.qq) {
      if Indexed(s, x.qq) {
        var b :| b in s.builds && s.builds[b].pc.Serving? && s.builds[b].qq == x.qq
                 && s.builds[b].epoch == s.epoch && s.base == Some(b);
        assert t.builds[b] == s.builds[b];
      }
    }
  }

  lemma ServingStays(s: State, a: Step)
    requires Enabled(s, a)
    ensures forall b :: b in s.builds && s.builds[b].pc.Serving? ==>
              b in Next(s, a).builds && Next(s, a).builds[b] == s.builds[b]
  {
    BuildsStay(s, a);
    forall b | b in s.builds && s.builds[b].pc.Serving? ensures Next(s, a).builds[b] == s.builds[b] {
      if OfPoll(a) {
        PollFrame(s, a);
      } else if OfDereg(a) {
        DeregFrame(s, a);
      } else {
        BuildMoves(s, a, b);
      }
    }
  }

  lemma RunsOn(s: State, a: Step, d: nat)
    requires Enabled(s, a) && d in s.deregs && s.deregs[d].Running() && s.deregs[d].PastClear()
    requires a.DeregReset? ==> d != a.d
    ensures d in Next(s, a).deregs
    ensures var n := Next(s, a).deregs[d]; n.Running() && n.PastClear() && n.qq == s.deregs[d].qq
  {
    if OfPoll(a) {
      PollFrame(s, a);
    } else if OfBuild(a) {
      BuildLeaves(s, a);
    } else {
      DeregRunsOn(s, a, d);
    }
  }

  lemma DeregRunsOn(s: State, a: Step, d: nat)
    requires Enabled(s, a) && OfDereg(a) && d in s.deregs && s.deregs[d].PastClear()
    requires a.DeregReset? ==> d != a.d
    ensures d in Next(s, a).deregs
    ensures var n := Next(s, a).deregs[d];
            (s.deregs[d].Running() ==> n.Running()) && n.PastClear() && n.qq == s.deregs[d].qq
  {
    DeregsStay(s, a);
    DeregMoves(s, a, d);
    if d == a.d {
      DeregProgress(s, a);
    }
  }

  lemma ClearedStays(s: State, a: Step, qq: string)
    requires Enabled(s, a) && ClearedFor(s, qq) && (a.DeregReset? ==> s.deregs[a.d].qq != qq)
    ensures ClearedFor(Next(s, a), qq)
  {
    var d :| d in s.deregs && s.deregs[d].Running() && s.deregs[d].PastClear() && s.deregs[d].qq == qq;
    var t := Next(s, a);
    RunsOn(s, a, d);
    assert t.deregs[d].Running() && t.deregs[d].PastClear() && t.deregs[d].qq == qq;
  }

  /** Steps that make no account ready and leave base and epoch alone. */
  lemma ReadyStays(s: State, a: Step)
    requires Enabled(s, a) && ReadyOk(s)
    requires Next(s, a).base == s.base && Next(s, a).epoch == s.epoch
    requires forall x :: x in Next(s, a).accounts && x.status.Ready? ==>
               x in s.accounts && (a.DeregReset? ==> s.deregs[a.d].qq != x.qq)
    ensures ReadyOk(Next(s, a))
  {
    ServingStays(s, a);
    forall x | x in Next(s, a).accounts && x.status.Ready? && ClearedFor(s, x.qq)
      ensures ClearedFor(Next(s, a), x.qq)
    {
      ClearedStays(s, a, x.qq);
    }
    SameReady(s, Next(s, a));
  }

  lemma OutcomeReady(s: State, a: Step, b: nat)
    requires a == BuildFails(b) || a == SetReady(b)
    requires Enabled(s, a) && OrderInv(s) && ReadyOk(s)
    ensures ReadyOk(Next(s, a))
  {
    if s.builds[b].epoch == s.epoch {
      OutcomeAccounts(s, a, b);
      assert Live(s, b);
      if a.SetReady? {
        assert s.builds[b].Holding();
        assert Indexed(Next(s, a), s.builds[b].qq);
      }
    } else {
      ReadyStays(s, a);
    }
  }

  lemma SwapReady(s: State, b: nat)
    requires Enabled(s, Swap(b)) && OrderInv(s) && ReadyOk(s)
    ensures ReadyOk(Next(s, Swap(b)))
  {
    if s.builds[b].epoch == s.epoch {
      assert Live(s, b) && Account(s.builds[b].qq, Indexing).Bound();
    } else {
      ReadyStays(s, Swap(b));
    }
  }

  lemma ClaimReady(s: State, b: nat, qq: string)
    requires Enabled(s, Claim(b, qq)) && OrderInv(s) && ReadyOk(s)
    ensures ReadyOk(Next(s, Claim(b, qq)))
  {
    ClaimKeepsOneBound(s.accounts, qq);
    SetStatusSets(s.accounts, qq, Indexing);
    ReadyStays(s, Claim(b, qq));
  }

  lemma ResetReady(s: State, d: nat)
    requires Enabled(s, DeregReset(d)) && OrderInv(s) && ReadyOk(s)
    ensures ReadyOk(Next(s, DeregReset(d)))
  {
    ResetUnbinds(s.accounts, s.scanned, s.deregs[d].qq);
    ReadyStays(s, DeregReset(d));
  }

  /** Clearing the index keeps every ready account accounted for if and only if no other account is ready
      under it. */
  lemma ClearReady(s: State, d: nat)
    requires Enabled(s, DeregClear(d)) && ReadyOk(s)
    ensures ReadyOk(Next(s, DeregClear(d))) <==> ClearOk(s, DeregClear(d))
  {
    var t := Next(s, DeregClear(d));
    assert t.deregs[d].Running() && t.deregs[d].PastClear() && t.deregs[d].qq == s.deregs[d].qq;
    forall x | x in s.accounts && x.status.Ready?
      ensures ClearedFor(t, x.qq) <==> x.qq == s.deregs[d].qq || ClearedFor(s, x.qq)
      ensures !Indexed(t, x.qq)
    {
      if ClearedFor(s, x.qq) {
        ClearedStays(s, DeregClear(d), x.qq);
      }
      if ClearedFor(t, x.qq) && x.qq != s.deregs[d].qq {
        var e :| e in t.deregs && t.deregs[e].Running() && t.deregs[e].PastClear() && t.deregs[e].qq == x.qq;
        assert s.deregs[e] == t.deregs[e];
      }
    }
  }

  lemma LoudReady(s: State, a: Step)
    requires Enabled(s, a) && OrderInv(s) && ReadyOk(s) && !Quiet(a) && !a.DeregClear?
    ensures ReadyOk(Next(s, a))
  {
    match a
    case Claim(b, qq) => ClaimReady(s, b, qq);
    case Swap(b) => SwapReady(s, b);
    case BuildFails(b) => OutcomeReady(s, a, b);
    case SetReady(b) => OutcomeReady(s, a, b);
    case DeregReset(d) => ResetReady(s, d);
  }

  lemma ReadyStep(s: State, a: Step)
    requires Enabled(s, a) && OrderInv(s) && ReadyOk(s)
    ensures ReadyOk(Next(s, a)) <==> ClearOk(s, a)
  {
    if a.DeregClear? {
      ClearReady(s, a.d);
    } else if Quiet(a) {
      QuietKeeps(s, a);
      ReadyStays(s, a);
    } else {
      LoudReady(s, a);
    }
  }

  /** Every clear of the run leaves no other account ready under it. */
  ghost predicate ClearsOwn(s: State, steps: seq<Step>)
    requires IsRun(s, steps)
    decreases |steps|
  {
    steps == [] || (ClearOk(s, steps[0]) && ClearsOwn(Next(s, steps[0]), steps[1..]))
  }

  ghost predicate ReadyThroughout(s: State, steps: seq<Step>)
    requires IsRun(s, steps)
    decreases |steps|
  {
    ReadyOk(s) && (steps == [] || ReadyThroughout(Next(s, steps[0]), steps[1..]))
  }

  lemma {:induction false} ReadyFrom(s: State, steps: seq<Step>)
    requires IsRun(s, steps) && IsGuarded(s, steps) && OrderInv(s) && ReadyOk(s)
    ensures ReadyThroughout(s, steps) <==> ClearsOwn(s, steps)
    ensures ClearsOwn(s, steps) ==> ReadyOk(Final(s, steps))
    decreases |steps|
  {
    if steps != [] {
      var t := Next(s, steps[0]);
      OrderStep(s, steps[0]);
      ReadyStep(s, steps[0]);
      if ClearOk(s, steps[0]) {
        ReadyFrom(t, steps[1..]);
      } else {
        assert !ReadyThroughout(t, steps[1..]);
      }
    }
  }

  /** In a run whose resets are guarded: at every state a ready account's index is in the store, unless a
      deregistration of it has cleared it, if and only if every clear leaves no other account ready. */
  lemma ReadyIsIndexedExactlyWhen(s0: State, steps: seq<Step>)
    requires Initial(s0) && IsRun(s0, steps) && IsGuarded(s0, steps)
    ensures ReadyThroughout(s0, steps) <==> ClearsOwn(s0, steps)
  {
    InitialInOrder(s0);
    ReadyFrom(s0, steps);
  }
}

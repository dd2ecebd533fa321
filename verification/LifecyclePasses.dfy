/** Whose passes extend the index: the account's own, as long as no sync that nobody has stopped is left behind. */
module LifecyclePasses {
  import opened Optional
  import opened Accounts
  import opened Lifecycle
  import opened LifecycleSafety
  import opened LifecycleCalm

  /** Syncs come from installed builds, and only they are registered, found, stopped or asked to pass. */
  ghost predicate SyncsOk(s: State) {
    && (forall c :: c in s.syncs ==> c in s.builds && PastInstall(s.builds[c].pc))
    && s.stopped <= s.syncs && (forall c :: c in s.engine ==> c in s.syncs)
    && (forall b :: b in s.builds && s.builds[b].pc.Stopping? ==> OneOf(s.syncs, s.builds[b].pc.found))
    && (forall d :: d in s.deregs ==> OneOf(s.syncs, s.deregs[d].found))
    && (forall p :: p in s.polls ==> s.polls[p].sync in s.syncs)
  }

  predicate PastInstall(pc: BuildPc) { !(pc.Requested? || pc.Sampled? || pc.Swapped? || pc.Installed?) }

  predicate OneOf(syncs: set<nat>, found: Option<nat>) { found.Some? ==> found.value in syncs }

  lemma {:induction false} FoundIsRegistered(engine: seq<nat>, builds: map<nat, Build>, qq: string)
    ensures var found := FirstOf(engine, builds, qq); found.Some? ==> found.value in engine
  {
    if engine != [] {
      FoundIsRegistered(engine[1..], builds, qq);
    }
  }

  lemma {:induction false} DropLeaves(engine: seq<nat>, x: Option<nat>)
    ensures forall c :: c in Drop(engine, x) ==> c in engine
  {
    if engine != [] {
      DropLeaves(engine[1..], x);
    }
  }

  lemma OwnPasses(s: State, a: Step)
    requires Enabled(s, a) && OfPoll(a) && SyncsOk(s)
    ensures forall p :: p in Next(s, a).polls ==> Next(s, a).polls[p].sync in s.syncs
  {
  }

  lemma OwnFound(s: State, a: Step)
    requires Enabled(s, a) && OfDereg(a) && SyncsOk(s)
    ensures var t := Next(s, a);
      && (a.d in t.deregs ==> OneOf(s.syncs, t.deregs[a.d].found))
      && t.stopped <= s.syncs && (forall c :: c in t.engine ==> c in s.syncs)
  {
    if a.DeregDetach? {
      FoundIsRegistered(s.engine, s.builds, s.deregs[a.d].qq);
      DropLeaves(s.engine, FirstOf(s.engine, s.builds, s.deregs[a.d].qq));
    }
  }

  lemma OwnEngine(s: State, a: Step)
    requires Enabled(s, a) && OfBuild(a) && SyncsOk(s)
    ensures var t := Next(s, a);
      && t.stopped <= s.syncs && (forall c :: c in t.engine ==> c in t.syncs)
      && (a.b in t.builds && t.builds[a.b].pc.Stopping? ==> OneOf(s.syncs, t.builds[a.b].pc.found))
  {
    if a.RetireDetach? {
      FoundIsRegistered(s.engine, s.builds, s.builds[a.b].qq);
      DropLeaves(s.engine, FirstOf(s.engine, s.builds, s.builds[a.b].qq));
    }
  }

  lemma OwnInstall(s: State, a: Step)
    requires Enabled(s, a) && OfBuild(a) && a.b in s.builds
    ensures a.b in Next(s, a).builds
    ensures PastInstall(s.builds[a.b].pc) || a.Register? ==> PastInstall(Next(s, a).builds[a.b].pc)
  {
  }

  lemma SyncsStep(s: State, a: Step)
    requires Enabled(s, a) && SyncsOk(s)
    ensures SyncsOk(Next(s, a))
  {
    if OfPoll(a) {
      PollFrame(s, a);
      OwnPasses(s, a);
    } else if OfDereg(a) {
      SyncsDereg(s, a);
    } else {
      SyncsBuild(s, a);
    }
  }

  lemma SyncsDereg(s: State, a: Step)
    requires Enabled(s, a) && OfDereg(a) && SyncsOk(s)
    ensures SyncsOk(Next(s, a))
  {
    DeregFrame(s, a);
    OwnFound(s, a);
    forall d | d in Next(s, a).deregs ensures OneOf(s.syncs, Next(s, a).deregs[d].found) {
      DeregMoves(s, a, d);
    }
  }

  lemma SyncsBuild(s: State, a: Step)
    requires Enabled(s, a) && OfBuild(a) && SyncsOk(s)
    ensures SyncsOk(Next(s, a))
  {
    var t := Next(s, a);
    BuildLeaves(s, a);
    BuildFrame(s, a);
    BuildsStay(s, a);
    OwnEngine(s, a);
    forall b | b in t.builds && t.builds[b].pc.Stopping? ensures OneOf(t.syncs, t.builds[b].pc.found) {
      BuildMoves(s, a, b);
    }
    forall c | c in t.syncs ensures c in t.builds && PastInstall(t.builds[c].pc) {
      BuildMoves(s, a, c);
      if c == a.b {
        OwnInstall(s, a);
      }
    }
  }

  // ---- Loose syncs and the host of the index ----

  /** A registered sync that nobody has stopped. */
  predicate Loose(s: State, c: nat) { c in s.syncs && c !in s.stopped }

  predicate IsOf(s: State, c: nat, qq: Option<string>) { c in s.builds && qq == Some(s.builds[c].qq) }

  /** The account whose index the store holds. */
  function Host(s: State): Option<string> {
    if s.base.Some? && s.base.value in s.builds then Some(s.builds[s.base.value].qq) else None
  }

  /** Everything in the store is of one account; a cleared store has seen no pass. */
  ghost predicate Clean(s: State) { forall c :: c in s.applied ==> IsOf(s, c, Host(s)) }

  /** An index is installed only over loose syncs of its own account, cleared only when none is loose, and a sync is
      registered only for the index that is there. */
  ghost predicate HostOk(s: State, a: Step)
    requires Enabled(s, a)
  {
    match a
    case Swap(b) => s.builds[b].epoch == s.epoch ==> forall c :: Loose(s, c) ==> IsOf(s, c, Some(s.builds[b].qq))
    case DeregClear(_) => forall c :: !Loose(s, c)
    case Register(b) => IsOf(s, b, Host(s))
    case _ => true
  }

  ghost predicate LooseIsHosted(s: State) { forall c :: Loose(s, c) ==> IsOf(s, c, Host(s)) }

  ghost predicate HostInv(s: State) { Consistent(s) && SyncsOk(s) && LooseIsHosted(s) && Clean(s) }

  /** Who a build or a sync is of never changes. */
  lemma OwnersStay(s: State, a: Step, c: nat)
    requires Enabled(s, a) && c in s.builds
    ensures c in Next(s, a).builds && Next(s, a).builds[c].qq == s.builds[c].qq
  {
    BuildsStay(s, a);
    if OfPoll(a) {
      PollFrame(s, a);
    } else if OfDereg(a) {
      DeregFrame(s, a);
    } else {
      BuildMoves(s, a, c);
    }
  }

  lemma HostStays(s: State, a: Step)
    requires Enabled(s, a) && Next(s, a).base == s.base && (s.base.Some? ==> s.base.value in s.builds)
    ensures Host(Next(s, a)) == Host(s)
  {
    if s.base.Some? {
      OwnersStay(s, a, s.base.value);
    }
  }

  ghost predicate BaseIsBuilt(s: State) {
    s.base.Some? ==> s.base.value in s.builds && s.builds[s.base.value].epoch == s.epoch
                     && !s.builds[s.base.value].pc.Requested?
  }

  lemma BaseStep(s: State, a: Step)
    requires Enabled(s, a) && BaseIsBuilt(s)
    ensures BaseIsBuilt(Next(s, a))
  {
    if OfPoll(a) {
      PollFrame(s, a);
    } else if OfDereg(a) {
      DeregFrame(s, a);
    } else {
      BuildLeaves(s, a);
      BuildFrame(s, a);
      BuildsStay(s, a);
      var base := Next(s, a).base;
      if a.Swap? {
        SwapApplies(s, a.b);
      }
      if base.Some? {
        BuildMoves(s, a, base.value);
        if base.value == a.b {
          EpochMoves(s, a);
          NotRequested(s, a);
        }
      }
    }
  }

  lemma LooseWere(s: State, a: Step, c: nat)
    requires Enabled(s, a) && Loose(Next(s, a), c)
    ensures Loose(s, c) || a == Register(c)
  {
    if OfPoll(a) {
      PollFrame(s, a);
    } else if OfDereg(a) {
      DeregFrame(s, a);
    } else {
      BuildFrame(s, a);
    }
  }

  /** Steps that leave the base alone. */
  lemma HostKept(s: State, a: Step)
    requires Enabled(s, a) && BaseIsBuilt(s) && HostInv(s) && HostOk(s, a) && Next(s, a).base == s.base
    requires forall c :: c in Next(s, a).applied ==> c in s.applied || Loose(s, c)
    ensures LooseIsHosted(Next(s, a)) && Clean(Next(s, a))
  {
    HostStays(s, a);
    forall c | c in s.builds ensures c in Next(s, a).builds && Next(s, a).builds[c].qq == s.builds[c].qq {
      OwnersStay(s, a, c);
    }
    forall c | Loose(Next(s, a), c) ensures Loose(s, c) || IsOf(s, c, Host(s)) {
      LooseWere(s, a, c);
    }
    HostFrame(s, Next(s, a));
  }

  lemma HostFrame(s: State, t: State)
    requires LooseIsHosted(s) && Clean(s) && Host(t) == Host(s)
    requires forall c :: c in s.builds ==> c in t.builds && t.builds[c].qq == s.builds[c].qq
    requires forall c :: Loose(t, c) ==> Loose(s, c) || IsOf(s, c, Host(s))
    requires forall c :: c in t.applied ==> c in s.applied || Loose(s, c)
    ensures LooseIsHosted(t) && Clean(t)
  {
  }

  lemma HostSwap(s: State, b: nat)
    requires Enabled(s, Swap(b)) && BaseIsBuilt(s) && HostInv(s) && HostOk(s, Swap(b))
    ensures LooseIsHosted(Next(s, Swap(b))) && Clean(Next(s, Swap(b)))
  {
    var a := Swap(b);
    SwapApplies(s, b);
    if s.builds[b].epoch == s.epoch {
      OwnersStay(s, a, b);
      forall c | Loose(Next(s, a), c) ensures IsOf(Next(s, a), c, Host(Next(s, a))) {
        LooseWere(s, a, c);
        OwnersStay(s, a, c);
      }
    } else {
      HostKept(s, a);
    }
  }

  lemma HostStep(s: State, a: Step)
    requires Enabled(s, a) && BaseIsBuilt(s) && HostInv(s) && HostOk(s, a)
    ensures HostInv(Next(s, a))
  {
    ConsistentStep(s, a);
    SyncsStep(s, a);
    if a.Swap? {
      HostSwap(s, a.b);
    } else if a.DeregClear? {
      DeregFrame(s, a);
      forall c ensures !Loose(Next(s, a), c) {
        if Loose(Next(s, a), c) {
          LooseWere(s, a, c);
        }
      }
    } else {
      if OfPoll(a) {
        PollFrame(s, a);
        PollApplies(s, a);
      } else if OfDereg(a) {
        DeregFrame(s, a);
      } else {
        BuildFrame(s, a);
      }
      HostKept(s, a);
    }
  }

  ghost predicate IsHosted(s: State, steps: seq<Step>)
    requires IsRun(s, steps)
    decreases |steps|
  {
    steps == [] || (HostOk(s, steps[0]) && IsHosted(Next(s, steps[0]), steps[1..]))
  }

  lemma {:induction false} HostedFrom(s: State, steps: seq<Step>)
    requires IsRun(s, steps) && IsHosted(s, steps) && BaseIsBuilt(s) && HostInv(s)
    ensures HostInv(Final(s, steps))
    decreases |steps|
  {
    if steps != [] {
      BaseStep(s, steps[0]);
      HostStep(s, steps[0]);
      HostedFrom(Next(s, steps[0]), steps[1..]);
    }
  }

  /** In every run that leaves no sync loose under another account's index, every pass that has extended the index
      in the store is of the account that index is of, and none has extended a cleared store. */
  lemma HostedRunIsClean(s0: State, steps: seq<Step>)
    requires Initial(s0) && IsRun(s0, steps) && IsHosted(s0, steps)
    ensures Clean(Final(s0, steps))
  {
    HostedFrom(s0, steps);
  }

  // ---- And no longer ----

  /** A loose sync reads and applies: its rows enter whatever index is there. */
  lemma LoosePasses(s: State, c: nat) returns (steps: seq<Step>)
    requires Loose(s, c) && s.lock.None? && !IsOf(s, c, Host(s)) && (s.base.Some? ==> s.base.value in s.builds)
    ensures IsRun(s, steps) && !Clean(Final(s, steps))
  {
    var p := Unused(s.polls.Keys);
    var t := Next(s, PollRead(p, c));
    PollFrame(s, PollRead(p, c));
    var u := Next(t, PollApply(p));
    PollFrame(t, PollApply(p));
    assert c in u.applied && !IsOf(u, c, Host(u));
    var last := Before(t, PollApply(p), []);
    steps := Before(s, PollRead(p, c), last);
  }

  lemma ReleaseKeeps(s: State, x: nat)
    requires Enabled(s, PublishBaseline(x)) && BaseIsBuilt(s) && LockOk(s)
    ensures var t := Next(s, PublishBaseline(x));
            t.lock.None? && t.syncs == s.syncs && t.stopped == s.stopped && t.base == s.base && Host(t) == Host(s)
  {
    HostStays(s, PublishBaseline(x));
  }

  /** From any state with a sync loose under an index that is not its own. */
  lemma ForeignPassExtends(s: State, c: nat) returns (steps: seq<Step>)
    requires Consistent(s) && SyncsOk(s) && BaseIsBuilt(s) && Loose(s, c) && !IsOf(s, c, Host(s))
    ensures IsRun(s, steps) && !Clean(Final(s, steps))
  {
    if s.lock.None? {
      steps := LoosePasses(s, c);
    } else {
      var x := s.lock.value;
      assert At(s, x, Swapped);
      var t := Next(s, PublishBaseline(x));
      ReleaseKeeps(s, x);
      OwnersStay(s, PublishBaseline(x), c);
      BaseStep(s, PublishBaseline(x));
      steps := LoosePasses(t, c);
      steps := Before(s, PublishBaseline(x), steps);
    }
  }

  /** What the step leaves behind: a sync loose under an index that is not its own. */
  lemma LeftBehind(s: State, a: Step) returns (c: nat)
    requires Enabled(s, a) && HostInv(s) && BaseIsBuilt(s) && !HostOk(s, a)
    ensures Loose(Next(s, a), c) && !IsOf(Next(s, a), c, Host(Next(s, a)))
  {
    var t := Next(s, a);
    match a
    case Swap(b) => c := SwapLeaves(s, b);
    case DeregClear(d) => c := ClearLeaves(s, d);
    case Register(b) =>
      c := b;
      BuildFrame(s, a);
      HostStays(s, a);
      OwnersStay(s, a, b);
  }

  lemma SwapLeaves(s: State, b: nat) returns (c: nat)
    requires Enabled(s, Swap(b)) && HostInv(s) && !HostOk(s, Swap(b))
    ensures var t := Next(s, Swap(b)); Loose(t, c) && !IsOf(t, c, Host(t))
  {
    c :| Loose(s, c) && !IsOf(s, c, Some(s.builds[b].qq));
    BuildFrame(s, Swap(b));
    SwapApplies(s, b);
    OwnersStay(s, Swap(b), b);
    OwnersStay(s, Swap(b), c);
  }

  lemma ClearLeaves(s: State, d: nat) returns (c: nat)
    requires Enabled(s, DeregClear(d)) && !HostOk(s, DeregClear(d))
    ensures Loose(Next(s, DeregClear(d)), c) && Host(Next(s, DeregClear(d))) == None
  {
    c :| Loose(s, c);
  }

  lemma {:induction false} UnhostedFrom(s: State, steps: seq<Step>) returns (n: nat, more: seq<Step>)
    requires IsRun(s, steps) && !IsHosted(s, steps) && BaseIsBuilt(s) && HostInv(s)
    ensures n <= |steps| && IsRun(s, steps[..n] + more) && !Clean(Final(s, steps[..n] + more))
    decreases |steps|
  {
    var a := steps[0];
    BaseStep(s, a);
    if !HostOk(s, a) {
      n := 1;
      ConsistentStep(s, a);
      SyncsStep(s, a);
      var c := LeftBehind(s, a);
      more := ForeignPassExtends(Next(s, a), c);
      assert steps[..1] == [a];
      var all := Before(s, a, more);
    } else {
      HostStep(s, a);
      var k;
      k, more := UnhostedFrom(Next(s, a), steps[1..]);
      n := k + 1;
      Splice(steps, k, more);
      var all := Before(s, a, steps[1..][..k] + more);
    }
  }

  /** Every other run has a beginning that can be continued to a store with a foreign pass in it. */
  lemma UnhostedRunCanMix(s0: State, steps: seq<Step>) returns (n: nat, more: seq<Step>)
    requires Initial(s0) && IsRun(s0, steps) && !IsHosted(s0, steps)
    ensures n <= |steps| && IsRun(s0, steps[..n] + more) && !Clean(Final(s0, steps[..n] + more))
  {
    n, more := UnhostedFrom(s0, steps);
  }

  // ---- What that means for the account in use ----

  /** With guarded resets and clears as well: the store of a ready account is its own through and through, unless a
      deregistration of it has cleared it. */
  lemma ReadyStoreIsOwn(s0: State, steps: seq<Step>, x: Account)
    requires Initial(s0) && IsRun(s0, steps) && IsGuarded(s0, steps) && ClearsOwn(s0, steps) && IsHosted(s0, steps)
    requires x in Final(s0, steps).accounts && x.status.Ready? && !ClearedFor(Final(s0, steps), x.qq)
    ensures var s := Final(s0, steps); Host(s) == Some(x.qq) && forall c :: c in s.applied ==> IsOf(s, c, Some(x.qq))
  {
    InitialInOrder(s0);
    ReadyFrom(s0, steps);
    HostedRunIsClean(s0, steps);
    assert Indexed(Final(s0, steps), x.qq);
  }

  ghost predicate HostIsBound(s: State) { Host(s).Some? ==> IsBound(s.accounts, Host(s).value) }

  /** The bound account stays bound by every step but its reset. */
  lemma BoundStays(s: State, a: Step, qq: string)
    requires Enabled(s, a) && OrderInv(s) && !a.DeregReset? && IsBound(s.accounts, qq)
    ensures IsBound(Next(s, a).accounts, qq)
  {
    var x :| x in s.accounts && x.Bound() && x.qq == qq;
    if a.Claim? {
      ClaimBinds(s, a.b, a.qq, x);
    } else if a.BuildFails? || a.SetReady? {
      var st := if a.SetReady? then Ready else Error;
      SetStatusSets(s.accounts, s.builds[a.b].qq, st);
      assert Account(s.builds[a.b].qq, st).Bound();
    } else if Quiet(a) {
      QuietKeeps(s, a);
    } else if a.DeregClear? {
      DeregFrame(s, a);
    }
  }

  lemma ClaimBinds(s: State, b: nat, qq: string, x: Account)
    requires Enabled(s, Claim(b, qq)) && AccountsOk(s) && x in s.accounts && x.Bound()
    ensures IsBound(Next(s, Claim(b, qq)).accounts, x.qq)
  {
    ClaimKeepsOneBound(s.accounts, qq);
    if BeginIndexing(s.accounts, qq).1.Claimed? {
      assert x == Account(qq, Error) && Account(qq, Indexing).Bound();
    }
  }

  /** Another account becomes the host only by a swap. */
  lemma HostWas(s: State, a: Step)
    requires Enabled(s, a) && BaseIsBuilt(s) && !a.Swap?
    ensures Host(Next(s, a)).Some? ==> Host(Next(s, a)) == Host(s) && !a.DeregClear?
  {
    if OfPoll(a) {
      PollFrame(s, a);
    } else if OfDereg(a) {
      DeregFrame(s, a);
    } else {
      BuildFrame(s, a);
    }
    if !a.DeregClear? {
      HostStays(s, a);
    }
  }

  lemma SwapBound(s: State, b: nat)
    requires Enabled(s, Swap(b)) && OrderInv(s) && BaseIsBuilt(s) && HostIsBound(s)
    ensures HostIsBound(Next(s, Swap(b)))
  {
    var a := Swap(b);
    SwapApplies(s, b);
    OwnersStay(s, a, b);
    if s.builds[b].epoch == s.epoch {
      assert Live(s, b) && Account(s.builds[b].qq, Indexing).Bound();
      BoundStays(s, a, s.builds[b].qq);
    } else {
      HostStays(s, a);
      if Host(s).Some? {
        BoundStays(s, a, Host(s).value);
      }
    }
  }

  lemma HostBoundStep(s: State, a: Step)
    requires Enabled(s, a) && OrderInv(s) && DeregsOk(s) && BaseIsBuilt(s) && HostIsBound(s)
    ensures HostIsBound(Next(s, a))
  {
    if a.Swap? {
      SwapBound(s, a.b);
    } else {
      HostWas(s, a);
      if a.DeregReset? {
        assert s.deregs[a.d].Running() && s.deregs[a.d].PastClear() && s.base.None?;
      } else if Host(Next(s, a)).Some? {
        BoundStays(s, a, Host(s).value);
      }
    }
  }

  lemma {:induction false} CalmHostedFrom(s: State, steps: seq<Step>)
    requires IsRun(s, steps) && IsCalm(s, steps)
    requires OrderInv(s) && DeregsOk(s) && BaseIsBuilt(s) && HostIsBound(s)
    ensures OrderInv(Final(s, steps)) && HostIsBound(Final(s, steps))
    decreases |steps|
  {
    if steps != [] {
      CalmIsOrderly(s, steps[0]);
      DeregsStep(s, steps[0]);
      OrderStep(s, steps[0]);
      BaseStep(s, steps[0]);
      HostBoundStep(s, steps[0]);
      CalmHostedFrom(Next(s, steps[0]), steps[1..]);
    }
  }

  /** In a calm run that leaves no sync loose, every pass that has extended the index is of the bound account. */
  lemma OnlyOwnPasses(s0: State, steps: seq<Step>, c: nat, x: Account)
    requires Initial(s0) && IsRun(s0, steps) && IsCalm(s0, steps) && IsHosted(s0, steps)
    requires c in Final(s0, steps).applied && x in Final(s0, steps).accounts && x.Bound()
    ensures c in Final(s0, steps).builds && Final(s0, steps).builds[c].qq == x.qq
  {
    InitialInOrder(s0);
    CalmHostedFrom(s0, steps);
    HostedRunIsClean(s0, steps);
    var s := Final(s0, steps);
    assert IsOf(s, c, Host(s)) && IsBound(s.accounts, Host(s).value);
  }
}

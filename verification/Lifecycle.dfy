/** Registration, deregistration and sync passes as interleaved steps (src/server/mod.rs, src/sync/mod.rs).
    A step is one critical section; the store's write lock is held from an install's swap to its publish. */
module Lifecycle {
  import opened Optional
  import opened Accounts

  /** Builds are named by number; the sync a build registers carries its build's number. */
  datatype BuildPc =
    | Requested | Sampled | Swapped | Installed | Registered | Retiring | Stopping(found: Option<nat>) | Serving | Over

  datatype Build = Build(qq: string, epoch: nat, pc: BuildPc) {
    predicate Active() { pc.Sampled? || Holding() }
    predicate Holding() { pc.Swapped? || pc.Installed? || pc.Registered? }
  }

  datatype DeregPc = Checked | Detached | Stopped | Cleared | HistoryCleared | Bumped | Published | Finished

  /** `bump`: the epoch the clear moved to, once it has happened. */
  datatype Dereg = Dereg(qq: string, found: Option<nat>, bump: nat, pc: DeregPc) {
    predicate Running() { !pc.Finished? }
    predicate PastStop() { !pc.Checked? && !pc.Detached? }
    predicate PastClear() { PastStop() && !pc.Stopped? }
    predicate PastHistory() { PastClear() && !pc.Cleared? }
  }

  datatype PollPc = Reading | Publishing | Done

  datatype Poll = Poll(sync: nat, pc: PollPc)

  datatype Event = Baseline(build: nat, epoch: nat) | Reset | NewRows(sync: nat)

  const HISTORY_MAX := 1000

  function Push(h: seq<Event>, e: Event): seq<Event> {
    if |h| < HISTORY_MAX then h + [e] else h[1..] + [e]
  }

  /** `base` is the build whose index the store holds; `applied` the syncs whose passes wrote to it since; `syncs`
      the builds that have registered one. */
  datatype State = State(
    accounts: Accounts, scanned: set<string>,
    epoch: nat, generation: nat,
    base: Option<nat>, applied: seq<nat>, lock: Option<nat>,
    history: seq<Event>,
    engine: seq<nat>, stopped: set<nat>, syncs: set<nat>,
    builds: map<nat, Build>, deregs: map<nat, Dereg>, polls: map<nat, Poll>)

  predicate Initial(s: State) {
    && Distinct(s.accounts) && (forall a :: a in s.accounts ==> !a.Bound())
    && s.base.None? && s.applied == [] && s.lock.None? && s.history == []
    && s.engine == [] && s.stopped == {} && s.syncs == {}
    && s.builds == map[] && s.deregs == map[] && s.polls == map[]
  }

  datatype Step =
    | Claim(b: nat, qq: string) | Sample(b: nat) | Swap(b: nat) | PublishBaseline(b: nat)
    | BuildFails(b: nat) | Register(b: nat) | SetReady(b: nat) | RetireDetach(b: nat) | RetireStop(b: nat)
    | DeregCheck(d: nat, qq: string) | DeregDetach(d: nat) | DeregStop(d: nat) | DeregClear(d: nat)
    | DeregClearHistory(d: nat) | DeregBump(d: nat) | DeregPublish(d: nat) | DeregReset(d: nat)
    | PollRead(p: nat, sync: nat) | PollApply(p: nat) | PollPublish(p: nat)

  predicate At(s: State, b: nat, pc: BuildPc) { b in s.builds && s.builds[b].pc == pc }

  predicate DeregAt(s: State, d: nat, pc: DeregPc) { d in s.deregs && s.deregs[d].pc == pc }

  predicate Enabled(s: State, a: Step) {
    match a
    case Claim(b, _) => b !in s.builds
    case Sample(b) => At(s, b, Requested)
    case Swap(b) => At(s, b, Sampled) && s.lock.None?
    case PublishBaseline(b) => At(s, b, Swapped)
    case BuildFails(b) => At(s, b, Sampled)
    case Register(b) => At(s, b, Installed)
    case SetReady(b) => At(s, b, Registered)
    case RetireDetach(b) => At(s, b, Retiring)
    case RetireStop(b) => b in s.builds && s.builds[b].pc.Stopping?
    case DeregCheck(d, _) => d !in s.deregs
    case DeregDetach(d) => DeregAt(s, d, Checked)
    case DeregStop(d) => DeregAt(s, d, Detached)
    case DeregClear(d) => DeregAt(s, d, Stopped) && s.lock.None?
    case DeregClearHistory(d) => DeregAt(s, d, Cleared)
    case DeregBump(d) => DeregAt(s, d, HistoryCleared)
    case DeregPublish(d) => DeregAt(s, d, Bumped)
    case DeregReset(d) => DeregAt(s, d, Published)
    case PollRead(p, sync) => p !in s.polls && sync in s.syncs
    case PollApply(p) => p in s.polls && s.polls[p].pc.Reading? && s.lock.None?
    case PollPublish(p) => p in s.polls && s.polls[p].pc.Publishing?
  }

  function Move(s: State, b: nat, pc: BuildPc): State
    requires b in s.builds
  {
    s.(builds := s.builds[b := s.builds[b].(pc := pc)])
  }

  function MoveDereg(s: State, d: nat, pc: DeregPc): State
    requires d in s.deregs
  {
    s.(deregs := s.deregs[d := s.deregs[d].(pc := pc)])
  }

  /** `SyncEngine::unregister`: the first registered sync of that account leaves the engine. */
  function FirstOf(engine: seq<nat>, builds: map<nat, Build>, qq: string): Option<nat> {
    if engine == [] then None
    else if engine[0] in builds && builds[engine[0]].qq == qq then Some(engine[0])
    else FirstOf(engine[1..], builds, qq)
  }

  function Drop(engine: seq<nat>, x: Option<nat>): seq<nat> {
    if engine == [] || x.None? then engine
    else if engine[0] == x.value then engine[1..] else [engine[0]] + Drop(engine[1..], x)
  }

  function Halt(stopped: set<nat>, x: Option<nat>): set<nat> { if x.Some? then stopped + {x.value} else stopped }

  /** `set_account_state_if_current`: the epoch test and the write are one critical section. */
  function SetIfCurrent(s: State, b: nat, st: Status): Accounts
    requires b in s.builds
  {
    if s.builds[b].epoch == s.epoch then SetStatus(s.accounts, s.builds[b].qq, st) else s.accounts
  }

  function Next(s: State, a: Step): State
    requires Enabled(s, a)
  {
    match a
    case Claim(b, qq) =>
      var (accs, out) := BeginIndexing(s.accounts, qq);
      if out.Claimed? then s.(accounts := accs, builds := s.builds[b := Build(qq, 0, Requested)]) else s
    case Sample(b) => s.(builds := s.builds[b := s.builds[b].(epoch := s.epoch, pc := Sampled)])
    case Swap(b) =>
      if s.builds[b].epoch != s.epoch then Move(s, b, Over)
      else Move(s, b, Swapped).(base := Some(b), applied := [], lock := Some(b))
    case PublishBaseline(b) =>
      Move(s, b, Installed).(history := Push(s.history, Baseline(b, s.builds[b].epoch)), lock := None)
    case BuildFails(b) => Move(s, b, Over).(accounts := SetIfCurrent(s, b, Error))
    case Register(b) => Move(s, b, Registered).(engine := s.engine + [b], syncs := s.syncs + {b})
    case SetReady(b) =>
      if s.builds[b].epoch == s.epoch then Move(s, b, Serving).(accounts := SetIfCurrent(s, b, Ready))
      else Move(s, b, Retiring)
    case RetireDetach(b) =>
      var found := FirstOf(s.engine, s.builds, s.builds[b].qq);
      Move(s, b, Stopping(found)).(engine := Drop(s.engine, found))
    case RetireStop(b) => Move(s, b, Over).(stopped := Halt(s.stopped, s.builds[b].pc.found))
    case DeregCheck(d, qq) =>
      var bound := BoundAccount(s.accounts);
      if bound.Some? && bound.value.qq == qq then s.(deregs := s.deregs[d := Dereg(qq, None, 0, Checked)]) else s
    case DeregDetach(d) =>
      var found := FirstOf(s.engine, s.builds, s.deregs[d].qq);
      s.(engine := Drop(s.engine, found), deregs := s.deregs[d := s.deregs[d].(found := found, pc := Detached)])
    case DeregStop(d) => MoveDereg(s, d, Stopped).(stopped := Halt(s.stopped, s.deregs[d].found))
    case DeregClear(d) =>
      s.(epoch := s.epoch + 1, base := None, applied := [],
         deregs := s.deregs[d := s.deregs[d].(bump := s.epoch + 1, pc := Cleared)])
    case DeregClearHistory(d) => MoveDereg(s, d, HistoryCleared).(history := [])
    case DeregBump(d) => MoveDereg(s, d, Bumped).(generation := s.generation + 1)
    case DeregPublish(d) => MoveDereg(s, d, Published).(history := Push(s.history, Reset))
    case DeregReset(d) =>
      MoveDereg(s, d, Finished).(accounts := ResetAccount(s.accounts, s.scanned, s.deregs[d].qq))
    case PollRead(p, sync) => s.(polls := s.polls[p := Poll(sync, Reading)])
    case PollApply(p) =>
      var sync := s.polls[p].sync;
      if sync in s.stopped then s.(polls := s.polls[p := Poll(sync, Done)])
      else s.(applied := s.applied + [sync], polls := s.polls[p := Poll(sync, Publishing)])
    case PollPublish(p) =>
      s.(history := Push(s.history, NewRows(s.polls[p].sync)), polls := s.polls[p := s.polls[p].(pc := Done)])
  }

  // ---- What every interleaving keeps ----

  ghost predicate EpochsOk(s: State) { forall b :: b in s.builds ==> s.builds[b].epoch <= s.epoch }

  ghost predicate BumpsOk(s: State) {
    forall d :: d in s.deregs && s.deregs[d].PastClear() ==> s.deregs[d].bump <= s.epoch
  }

  /** The lock is held by exactly the build that has swapped its index in, under the current epoch. */
  ghost predicate LockOk(s: State) {
    && (forall b: nat :: At(s, b, Swapped) <==> s.lock == Some(b))
    && (s.lock.Some? ==> s.lock.value in s.builds && s.builds[s.lock.value].epoch == s.epoch)
  }

  ghost predicate Consistent(s: State) { EpochsOk(s) && BumpsOk(s) && LockOk(s) }

  /** The replay buffer holds no baseline older than a deregistration that cleared it. */
  ghost predicate NoGhostBaseline(s: State) {
    forall d, e :: d in s.deregs && s.deregs[d].PastHistory() && e in s.history && e.Baseline? ==>
      e.epoch >= s.deregs[d].bump
  }

  /** A sync a deregistration found is stopped, and once the index is cleared it never wrote to it again. */
  ghost predicate RetiredIsInert(s: State) { forall d :: d in s.deregs ==> InertAt(s, s.deregs[d]) }

  ghost predicate InertAt(s: State, d: Dereg) {
    d.found.Some? && d.PastStop() ==>
      d.found.value in s.stopped && (d.PastClear() ==> d.found.value !in s.applied)
  }

  // ---- What each kind of step leaves alone ----

  predicate OfPoll(a: Step) { a.PollRead? || a.PollApply? || a.PollPublish? }

  predicate OfDereg(a: Step) {
    || a.DeregCheck? || a.DeregDetach? || a.DeregStop? || a.DeregClear?
    || a.DeregClearHistory? || a.DeregBump? || a.DeregPublish? || a.DeregReset?
  }

  predicate OfBuild(a: Step) { !OfPoll(a) && !OfDereg(a) }

  lemma PollFrame(s: State, a: Step)
    requires Enabled(s, a) && OfPoll(a)
    ensures var t := Next(s, a); t == s.(applied := t.applied, history := t.history, polls := t.polls)
  {
  }

  lemma DeregFrame(s: State, a: Step)
    requires Enabled(s, a) && OfDereg(a)
    ensures var t := Next(s, a);
      && t.builds == s.builds && t.polls == s.polls && t.lock == s.lock && t.syncs == s.syncs && t.scanned == s.scanned
      && (!a.DeregReset? ==> t.accounts == s.accounts) && s.stopped <= t.stopped
      && if a.DeregClear? then t.epoch == s.epoch + 1 && t.base == None && t.applied == []
         else t.epoch == s.epoch && t.base == s.base && t.applied == s.applied
  {
  }

  /** A step of a deregistration moves that one on. */
  lemma DeregMoves(s: State, a: Step, d: nat)
    requires Enabled(s, a) && OfDereg(a) && d in Next(s, a).deregs
    ensures d != a.d ==> d in s.deregs && Next(s, a).deregs[d] == s.deregs[d]
    ensures !a.DeregCheck? ==> d in s.deregs && Next(s, a).deregs[d].qq == s.deregs[d].qq
    ensures a.DeregCheck? && d == a.d ==> d !in s.deregs && Next(s, a).deregs[d].pc == Checked
  {
  }

  lemma DeregsStay(s: State, a: Step)
    requires Enabled(s, a) && OfDereg(a)
    ensures s.deregs.Keys <= Next(s, a).deregs.Keys
  {
  }

  lemma DeregProgress(s: State, a: Step)
    requires Enabled(s, a) && OfDereg(a) && !a.DeregCheck?
    ensures var m, n := s.deregs[a.d], Next(s, a).deregs[a.d];
      && m.Running() && (n.Running() <==> !a.DeregReset?) && (n.PastClear() <==> m.PastClear() || a.DeregClear?)
      && n.bump == if a.DeregClear? then s.epoch + 1 else m.bump
  {
  }

  lemma BuildLeaves(s: State, a: Step)
    requires Enabled(s, a) && OfBuild(a)
    ensures var t := Next(s, a);
      t.deregs == s.deregs && t.polls == s.polls && t.epoch == s.epoch && t.scanned == s.scanned
  {
  }

  lemma BuildFrame(s: State, a: Step)
    requires Enabled(s, a) && OfBuild(a)
    ensures var t := Next(s, a);
      && s.stopped <= t.stopped && (!a.RetireStop? ==> t.stopped == s.stopped)
      && t.syncs == (if a.Register? then s.syncs + {a.b} else s.syncs)
      && (!a.Swap? ==> t.base == s.base && t.applied == s.applied)
      && (!a.Swap? && !a.PublishBaseline? ==> t.lock == s.lock)
  {
  }

  /** A step of a build moves that one on. */
  lemma BuildMoves(s: State, a: Step, b: nat)
    requires Enabled(s, a) && OfBuild(a) && b in Next(s, a).builds
    ensures b != a.b || !a.Claim? ==> b in s.builds && Next(s, a).builds[b].qq == s.builds[b].qq
    ensures b != a.b ==> Next(s, a).builds[b] == s.builds[b]
    ensures a.Claim? && b == a.b ==> b !in s.builds && Next(s, a).builds[b].pc == Requested
  {
  }

  lemma BuildsStay(s: State, a: Step)
    requires Enabled(s, a)
    ensures s.builds.Keys <= Next(s, a).builds.Keys
  {
    if OfPoll(a) {
      PollFrame(s, a);
    } else if OfDereg(a) {
      DeregFrame(s, a);
    } else {
      OwnStays(s, a);
    }
  }

  lemma OwnStays(s: State, a: Step)
    requires Enabled(s, a) && OfBuild(a)
    ensures s.builds.Keys <= Next(s, a).builds.Keys
  {
  }

  lemma EpochMoves(s: State, a: Step)
    requires Enabled(s, a) && OfBuild(a) && a.b in Next(s, a).builds
    ensures Next(s, a).builds[a.b].epoch
         == if a.Claim? then 0 else if a.Sample? then s.epoch else s.builds[a.b].epoch
  {
  }

  lemma EpochsStep(s: State, a: Step)
    requires Enabled(s, a) && EpochsOk(s)
    ensures EpochsOk(Next(s, a))
  {
    if OfPoll(a) {
      PollFrame(s, a);
    } else if OfDereg(a) {
      DeregFrame(s, a);
    } else {
      BuildLeaves(s, a);
      BuildFrame(s, a);
      forall b | b in Next(s, a).builds ensures Next(s, a).builds[b].epoch <= s.epoch {
        BuildMoves(s, a, b);
        if b == a.b {
          EpochMoves(s, a);
        }
      }
    }
  }

  lemma BumpsStep(s: State, a: Step)
    requires Enabled(s, a) && BumpsOk(s)
    ensures BumpsOk(Next(s, a))
  {
    if OfPoll(a) {
      PollFrame(s, a);
    } else if OfBuild(a) {
      BuildLeaves(s, a);
      BuildFrame(s, a);
    } else {
      DeregFrame(s, a);
      forall d | d in Next(s, a).deregs && Next(s, a).deregs[d].PastClear()
        ensures Next(s, a).deregs[d].bump <= Next(s, a).epoch
      {
        DeregMoves(s, a, d);
        if !a.DeregCheck? {
          DeregProgress(s, a);
        }
      }
    }
  }

  lemma LockFrame(s: State, t: State)
    requires LockOk(s) && t.lock == s.lock && (s.lock.Some? ==> t.epoch == s.epoch)
    requires forall b: nat :: At(t, b, Swapped) <==> At(s, b, Swapped)
    requires forall b: nat :: At(s, b, Swapped) ==>
               b in t.builds && t.builds[b].epoch == s.builds[b].epoch
    ensures LockOk(t)
  {
  }

  lemma SwappedMoves(s: State, a: Step)
    requires Enabled(s, a) && OfBuild(a) && !a.Swap? && !a.PublishBaseline?
    ensures !At(s, a.b, Swapped) && !At(Next(s, a), a.b, Swapped)
  {
  }

  lemma LockStep(s: State, a: Step)
    requires Enabled(s, a) && LockOk(s)
    ensures LockOk(Next(s, a))
  {
    if OfPoll(a) {
      PollFrame(s, a);
      LockFrame(s, Next(s, a));
    } else if OfDereg(a) {
      DeregFrame(s, a);
      LockFrame(s, Next(s, a));
    } else {
      BuildLeaves(s, a);
      BuildFrame(s, a);
      BuildsStay(s, a);
      forall b | b in Next(s, a).builds && b != a.b ensures b in s.builds && Next(s, a).builds[b] == s.builds[b] {
        BuildMoves(s, a, b);
      }
      if a.Swap? {
        LockSwap(s, a.b);
      } else if a.PublishBaseline? {
        LockRelease(s, a.b);
      } else {
        SwappedMoves(s, a);
        LockFrame(s, Next(s, a));
      }
    }
  }

  lemma LockSwap(s: State, b: nat)
    requires Enabled(s, Swap(b)) && LockOk(s)
    ensures LockOk(Next(s, Swap(b)))
  {
  }

  lemma LockRelease(s: State, b: nat)
    requires Enabled(s, PublishBaseline(b)) && LockOk(s)
    ensures LockOk(Next(s, PublishBaseline(b)))
  {
  }

  lemma ConsistentStep(s: State, a: Step)
    requires Enabled(s, a) && Consistent(s)
    ensures Consistent(Next(s, a))
  {
    EpochsStep(s, a);
    BumpsStep(s, a);
    LockStep(s, a);
  }

  lemma PushHolds(h: seq<Event>, e: Event, x: Event)
    ensures x in Push(h, e) ==> x in h || x == e
  {
  }

  /** Baselines come from builds alone. */
  lemma HistoryMoves(s: State, a: Step, e: Event)
    requires Enabled(s, a) && e in Next(s, a).history && e.Baseline?
    ensures e in s.history || (a.PublishBaseline? && e == Baseline(a.b, s.builds[a.b].epoch))
    ensures !a.DeregClearHistory?
  {
    match a
    case PublishBaseline(b) => PushHolds(s.history, Baseline(b, s.builds[b].epoch), e);
    case DeregPublish(d) => PushHolds(s.history, Reset, e);
    case PollPublish(p) => PushHolds(s.history, NewRows(s.polls[p].sync), e);
    case _ =>
  }

  lemma PastHistoryMoves(s: State, a: Step)
    requires Enabled(s, a) && OfDereg(a) && !a.DeregClearHistory? && !a.DeregCheck?
    ensures var m, n := s.deregs[a.d], Next(s, a).deregs[a.d];
            n.PastHistory() ==> m.PastHistory() && n.bump == m.bump
  {
  }

  /** Past its history clear, what a deregistration was before a step that was not that clear. */
  lemma PastHistoryWas(s: State, a: Step, d: nat)
    requires Enabled(s, a) && !a.DeregClearHistory? && d in Next(s, a).deregs && Next(s, a).deregs[d].PastHistory()
    ensures d in s.deregs && s.deregs[d].PastHistory() && Next(s, a).deregs[d].bump == s.deregs[d].bump
  {
    if OfPoll(a) {
      PollFrame(s, a);
    } else if OfBuild(a) {
      BuildLeaves(s, a);
    } else {
      DeregMoves(s, a, d);
      if !a.DeregCheck? {
        PastHistoryMoves(s, a);
      }
    }
  }

  lemma NoGhostStep(s: State, a: Step)
    requires Enabled(s, a) && Consistent(s) && NoGhostBaseline(s)
    ensures NoGhostBaseline(Next(s, a))
  {
    forall d, e | d in Next(s, a).deregs && Next(s, a).deregs[d].PastHistory()
                  && e in Next(s, a).history && e.Baseline?
      ensures e.epoch >= Next(s, a).deregs[d].bump
    {
      HistoryMoves(s, a, e);
      PastHistoryWas(s, a, d);
      if e !in s.history {
        assert At(s, a.b, Swapped) && s.deregs[d].PastClear();
      }
    }
  }

  lemma InertFrame(s: State, t: State, d: Dereg)
    requires InertAt(s, d) && s.stopped <= t.stopped
    requires d.found.Some? && d.found.value in s.stopped && d.found.value !in s.applied ==> d.found.value !in t.applied
    ensures InertAt(t, d)
  {
  }

  /** A pass of a stopped sync applies nothing. */
  lemma PollApplies(s: State, a: Step)
    requires Enabled(s, a) && OfPoll(a)
    ensures forall c :: c in Next(s, a).applied ==>
              c in s.applied || (a.PollApply? && c == s.polls[a.p].sync && c !in s.stopped)
  {
  }

  lemma SwapApplies(s: State, b: nat)
    requires Enabled(s, Swap(b))
    ensures var t := Next(s, Swap(b));
      if s.builds[b].epoch == s.epoch then t.base == Some(b) && t.applied == []
      else t.base == s.base && t.applied == s.applied
  {
  }

  lemma RetiredOwn(s: State, a: Step)
    requires Enabled(s, a) && OfDereg(a) && !a.DeregCheck? && InertAt(s, s.deregs[a.d])
    ensures InertAt(Next(s, a), Next(s, a).deregs[a.d])
  {
  }

  lemma RetiredAt(s: State, a: Step, d: nat)
    requires Enabled(s, a) && d in Next(s, a).deregs && (d in s.deregs ==> InertAt(s, s.deregs[d]))
    ensures InertAt(Next(s, a), Next(s, a).deregs[d])
  {
    if OfPoll(a) {
      PollFrame(s, a);
      PollApplies(s, a);
      InertFrame(s, Next(s, a), s.deregs[d]);
    } else if OfBuild(a) {
      BuildLeaves(s, a);
      BuildFrame(s, a);
      if a.Swap? {
        SwapApplies(s, a.b);
      }
      InertFrame(s, Next(s, a), s.deregs[d]);
    } else {
      DeregMoves(s, a, d);
      if d != a.d {
        DeregFrame(s, a);
        InertFrame(s, Next(s, a), s.deregs[d]);
      } else if !a.DeregCheck? {
        RetiredOwn(s, a);
      }
    }
  }

  lemma RetiredStep(s: State, a: Step)
    requires Enabled(s, a) && RetiredIsInert(s)
    ensures RetiredIsInert(Next(s, a))
  {
    forall d | d in Next(s, a).deregs ensures InertAt(Next(s, a), Next(s, a).deregs[d]) {
      RetiredAt(s, a, d);
    }
  }

  // ---- What orderly interleavings keep ----

  /** A build that can still become visible. */
  predicate Live(s: State, b: nat) {
    b in s.builds && (s.builds[b].pc.Requested? || (s.builds[b].Active() && s.builds[b].epoch == s.epoch))
  }

  /** No account is reset while a build of it can still become visible. */
  ghost predicate ResetOk(s: State, a: Step)
    requires Enabled(s, a)
  {
    a.DeregReset? ==> forall b :: Live(s, b) ==> s.builds[b].qq != s.deregs[a.d].qq
  }

  /** A deregistration of this account has cleared the index and not finished. */
  predicate ClearedFor(s: State, qq: string) {
    exists d :: d in s.deregs && s.deregs[d].Running() && s.deregs[d].PastClear() && s.deregs[d].qq == qq
  }

  /** No index is cleared under an account that is ready, but for its own deregistrations. */
  ghost predicate ClearOk(s: State, a: Step)
    requires Enabled(s, a)
  {
    a.DeregClear? ==>
      forall x :: x in s.accounts && x.status.Ready? ==> x.qq == s.deregs[a.d].qq || ClearedFor(s, x.qq)
  }

  ghost predicate AccountsOk(s: State) { Distinct(s.accounts) && OneBound(s.accounts) }

  /** Live builds: at most one, its account is bound and indexing, and from the swap on the store is its. */
  ghost predicate LiveOk(s: State) {
    && (forall b :: Live(s, b) ==> Account(s.builds[b].qq, Indexing) in s.accounts)
    && (forall b, c :: Live(s, b) && Live(s, c) ==> b == c)
    && (forall b :: Live(s, b) && s.builds[b].Holding() ==> s.base == Some(b))
  }

  ghost predicate OrderInv(s: State) { Consistent(s) && AccountsOk(s) && LiveOk(s) }

  /** Some build served this account under the current epoch, and the store still holds its index. */
  ghost predicate Indexed(s: State, qq: string) {
    exists b :: b in s.builds && s.builds[b].pc.Serving? && s.builds[b].qq == qq
                && s.builds[b].epoch == s.epoch && s.base == Some(b)
  }

  /** A ready account's index is in the store unless a deregistration of that very account has cleared it. */
  ghost predicate ReadyOk(s: State) {
    forall x :: x in s.accounts && x.status.Ready? ==> Indexed(s, x.qq) || ClearedFor(s, x.qq)
  }

  // ---- Calm interleavings ----

  predicate DeregRunning(s: State) { exists d :: d in s.deregs && s.deregs[d].Running() }

  predicate PastAClear(s: State) { exists d :: d in s.deregs && s.deregs[d].Running() && s.deregs[d].PastClear() }

  predicate BuildRequested(s: State) { exists b :: b in s.builds && s.builds[b].pc.Requested? }

  /** No registration while a deregistration runs, and every build has sampled the epoch before the next
      deregistration begins. */
  predicate Calm(s: State, a: Step) {
    && (a.Claim? ==> !DeregRunning(s))
    && (a.DeregCheck? ==> !BuildRequested(s))
  }

  ghost predicate DeregsOk(s: State) {
    && (forall d, b :: d in s.deregs && s.deregs[d].Running() && b in s.builds ==> !s.builds[b].pc.Requested?)
    && (forall d, a :: d in s.deregs && s.deregs[d].Running() && a in s.accounts && a.Bound() ==>
          a.qq == s.deregs[d].qq)
    && (forall d, b :: d in s.deregs && s.deregs[d].Running() && s.deregs[d].PastClear() && b in s.builds ==>
          s.builds[b].epoch != s.epoch)
  }

  ghost predicate ReadyIsIndexed(s: State) {
    !PastAClear(s) ==> forall a :: a in s.accounts && a.status.Ready? ==> Indexed(s, a.qq)
  }
}

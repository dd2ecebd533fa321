/** Who writes an account's state, and in which order the steps of a run come. */
module LifecycleTurns {
  import opened Optional
  import opened Accounts
  import opened Lifecycle
  import opened LifecycleSafety
  import opened LifecycleStory

  // ---- Accounts ----

  /** The account build `b` was claimed for. */
  function ClaimedFor(steps: seq<Step>, b: nat): string {
    if steps == [] then ""
    else
      var a := steps[|steps| - 1];
      if a.Claim? && a.b == b then a.qq else ClaimedFor(steps[..|steps| - 1], b)
  }

  /** The account deregistration `d` was checked for. */
  function CheckedFor(steps: seq<Step>, d: nat): string {
    if steps == [] then ""
    else
      var a := steps[|steps| - 1];
      if a.DeregCheck? && a.d == d then a.qq else CheckedFor(steps[..|steps| - 1], d)
  }

  lemma QqMoves(s: State, a: Step, b: nat)
    requires Enabled(s, a) && b in Next(s, a).builds
    ensures if a.Claim? && a.b == b then Next(s, a).builds[b].qq == a.qq
            else b in s.builds && Next(s, a).builds[b].qq == s.builds[b].qq
  {
    if OfPoll(a) {
      PollFrame(s, a);
    } else if OfDereg(a) {
      DeregFrame(s, a);
    } else {
      BuildMoves(s, a, b);
    }
  }

  lemma DeregQqMoves(s: State, a: Step, d: nat)
    requires Enabled(s, a) && d in Next(s, a).deregs
    ensures if a.DeregCheck? && a.d == d then Next(s, a).deregs[d].qq == a.qq
            else d in s.deregs && Next(s, a).deregs[d].qq == s.deregs[d].qq
  {
    if OfPoll(a) {
      PollFrame(s, a);
    } else if OfBuild(a) {
      BuildLeaves(s, a);
    } else {
      DeregMoves(s, a, d);
    }
  }

  lemma {:induction false} ClaimTold(s0: State, steps: seq<Step>, b: nat)
    requires Initial(s0) && IsRun(s0, steps) && b in Final(s0, steps).builds
    ensures Final(s0, steps).builds[b].qq == ClaimedFor(steps, b)
    decreases |steps|
  {
    if steps != [] {
      var n := |steps| - 1;
      AllButLast(s0, steps);
      QqMoves(Final(s0, steps[..n]), steps[n], b);
      if !(steps[n].Claim? && steps[n].b == b) {
        ClaimTold(s0, steps[..n], b);
      }
    }
  }

  lemma {:induction false} CheckTold(s0: State, steps: seq<Step>, d: nat)
    requires Initial(s0) && IsRun(s0, steps) && d in Final(s0, steps).deregs
    ensures Final(s0, steps).deregs[d].qq == CheckedFor(steps, d)
    decreases |steps|
  {
    if steps != [] {
      var n := |steps| - 1;
      AllButLast(s0, steps);
      DeregQqMoves(Final(s0, steps[..n]), steps[n], d);
      if !(steps[n].DeregCheck? && steps[n].d == d) {
        CheckTold(s0, steps[..n], d);
      }
    }
  }

  /** The first account that is past waiting stands at place `i`. */
  predicate FirstBoundAt(accs: Accounts, i: nat) {
    i < |accs| && !accs[i].status.AwaitingKey? && forall k :: 0 <= k < i ==> accs[k].status.AwaitingKey?
  }

  lemma {:induction false} BoundIsFirst(accs: Accounts, i: nat)
    requires FirstBoundAt(accs, i)
    ensures BoundAccount(accs) == Some(accs[i])
  {
    if i > 0 {
      BoundIsFirst(accs[1..], i - 1);
    }
  }

  lemma {:induction false} SomeBoundIsFirst(accs: Accounts) returns (i: nat)
    requires BoundAccount(accs).Some?
    ensures FirstBoundAt(accs, i) && BoundAccount(accs) == Some(accs[i])
  {
    if accs[0].Bound() {
      i := 0;
    } else {
      var j := SomeBoundIsFirst(accs[1..]);
      i := j + 1;
    }
  }

  /** A claim of `qq` can be won: the first account past waiting, if there is one, is this one after a failure. */
  ghost predicate Winnable(accs: Accounts, qq: string) {
    forall i: nat :: FirstBoundAt(accs, i) ==> accs[i] == Account(qq, Error)
  }

  lemma WinnableIsClaimed(accs: Accounts, qq: string)
    ensures BeginIndexing(accs, qq).1.Claimed? <==> Winnable(accs, qq)
  {
    if BoundAccount(accs).Some? {
      var i := SomeBoundIsFirst(accs);
      assert FirstBoundAt(accs, i);
      forall j: nat | FirstBoundAt(accs, j) ensures j == i {
      }
    } else {
      forall i: nat | FirstBoundAt(accs, i) ensures false {
        BoundIsFirst(accs, i);
      }
    }
  }

  /** What a step writes about an account: its new status, or that it is forgotten. */
  datatype Write = Write(qq: string, status: Option<Status>)

  ghost predicate Writes(accs: Accounts, scanned: set<string>, steps: seq<Step>, a: Step, w: Write) {
    match a
    case Claim(_, qq) => Winnable(accs, qq) && w == Write(qq, Some(Indexing))
    case SetReady(b) => Current(steps, b) && w == Write(ClaimedFor(steps, b), Some(Ready))
    case BuildFails(b) => Current(steps, b) && w == Write(ClaimedFor(steps, b), Some(Error))
    case DeregReset(d) =>
      && w.qq == CheckedFor(steps, d)
      && (if w.qq in scanned then w.status == Some(AwaitingKey) && exists x :: x in accs && x.qq == w.qq
          else w.status == None)
    case _ => false
  }

  ghost predicate Written(accs: Accounts, accs': Accounts, w: Write) {
    forall x :: x in accs' <==> (x in accs && x.qq != w.qq) || (x.qq == w.qq && w.status == Some(x.status))
  }

  lemma DistinctMoves(s: State, a: Step)
    requires Enabled(s, a) && Distinct(s.accounts)
    ensures Distinct(Next(s, a).accounts)
  {
    if OfPoll(a) {
      PollFrame(s, a);
    } else if OfDereg(a) {
      DeregFrame(s, a);
      if a.DeregReset? {
        ResetUnbinds(s.accounts, s.scanned, s.deregs[a.d].qq);
      }
    } else if a.Claim? {
      SetStatusSets(s.accounts, a.qq, Indexing);
    } else if a.SetReady? {
      SetStatusSets(s.accounts, s.builds[a.b].qq, Ready);
    } else if a.BuildFails? {
      SetStatusSets(s.accounts, s.builds[a.b].qq, Error);
    }
  }

  lemma ScannedMoves(s: State, a: Step)
    requires Enabled(s, a)
    ensures Next(s, a).scanned == s.scanned
  {
  }

  lemma {:induction false} StaysDistinct(s0: State, steps: seq<Step>)
    requires IsRun(s0, steps) && Distinct(s0.accounts)
    ensures Distinct(Final(s0, steps).accounts) && Final(s0, steps).scanned == s0.scanned
    decreases |steps|
  {
    if steps != [] {
      DistinctMoves(s0, steps[0]);
      ScannedMoves(s0, steps[0]);
      StaysDistinct(Next(s0, steps[0]), steps[1..]);
    }
  }

  lemma ClaimWrites(s: State, b: nat, qq: string)
    requires Enabled(s, Claim(b, qq)) && Distinct(s.accounts)
    ensures var t := Next(s, Claim(b, qq));
      && (Winnable(s.accounts, qq) ==> Written(s.accounts, t.accounts, Write(qq, Some(Indexing))) && b in t.builds)
      && (!Winnable(s.accounts, qq) ==> t == s)
  {
    WinnableIsClaimed(s.accounts, qq);
    SetStatusSets(s.accounts, qq, Indexing);
  }

  lemma OutcomeWrites(s: State, a: Step)
    requires Enabled(s, a) && (a.SetReady? || a.BuildFails?) && Distinct(s.accounts)
    ensures var t := Next(s, a);
      if s.builds[a.b].epoch == s.epoch then
        Written(s.accounts, t.accounts, Write(s.builds[a.b].qq, Some(if a.SetReady? then Ready else Error)))
      else t.accounts == s.accounts
  {
    SetStatusSets(s.accounts, s.builds[a.b].qq, if a.SetReady? then Ready else Error);
  }

  lemma ResetWrites(s: State, d: nat)
    requires Enabled(s, DeregReset(d)) && Distinct(s.accounts)
    ensures var t, qq := Next(s, DeregReset(d)), s.deregs[d].qq;
      if qq !in s.scanned then Written(s.accounts, t.accounts, Write(qq, None))
      else if exists x :: x in s.accounts && x.qq == qq then
        Written(s.accounts, t.accounts, Write(qq, Some(AwaitingKey)))
      else t.accounts == s.accounts
  {
    RemoveRemoves(s.accounts, s.deregs[d].qq);
    SetStatusSets(s.accounts, s.deregs[d].qq, AwaitingKey);
  }

  predicate WritesAccounts(a: Step) { a.Claim? || a.SetReady? || a.BuildFails? || a.DeregReset? }

  lemma OthersWriteNothing(s: State, a: Step)
    requires Enabled(s, a) && !WritesAccounts(a)
    ensures Next(s, a).accounts == s.accounts
  {
  }

  /** What a step does to the accounts is what it writes, if it writes anything. */
  ghost predicate AsWritten(accs: Accounts, accs': Accounts, scanned: set<string>, steps: seq<Step>, a: Step) {
    && (forall w :: Writes(accs, scanned, steps, a, w) ==> Written(accs, accs', w))
    && ((forall w :: !Writes(accs, scanned, steps, a, w)) ==> accs' == accs)
  }

  lemma ClaimAsWritten(s: State, steps: seq<Step>, b: nat, qq: string)
    requires Enabled(s, Claim(b, qq)) && Distinct(s.accounts)
    ensures AsWritten(s.accounts, Next(s, Claim(b, qq)).accounts, s.scanned, steps, Claim(b, qq))
  {
    ClaimWrites(s, b, qq);
    var w := Write(qq, Some(Indexing));
    assert Writes(s.accounts, s.scanned, steps, Claim(b, qq), w) <==> Winnable(s.accounts, qq);
  }

  lemma OutcomeAsWritten(s: State, steps: seq<Step>, a: Step)
    requires Enabled(s, a) && (a.SetReady? || a.BuildFails?) && Distinct(s.accounts)
    requires s.builds[a.b].qq == ClaimedFor(steps, a.b)
    requires s.builds[a.b].epoch == s.epoch <==> Current(steps, a.b)
    ensures AsWritten(s.accounts, Next(s, a).accounts, s.scanned, steps, a)
  {
    OutcomeWrites(s, a);
    var w := Write(ClaimedFor(steps, a.b), Some(if a.SetReady? then Ready else Error));
    assert Writes(s.accounts, s.scanned, steps, a, w) <==> Current(steps, a.b);
  }

  lemma ResetAsWritten(s: State, steps: seq<Step>, d: nat)
    requires Enabled(s, DeregReset(d)) && Distinct(s.accounts) && s.deregs[d].qq == CheckedFor(steps, d)
    ensures AsWritten(s.accounts, Next(s, DeregReset(d)).accounts, s.scanned, steps, DeregReset(d))
  {
    ResetWrites(s, d);
    var qq := CheckedFor(steps, d);
    assert qq !in s.scanned ==> Writes(s.accounts, s.scanned, steps, DeregReset(d), Write(qq, None));
    assert qq in s.scanned && (exists x :: x in s.accounts && x.qq == qq) ==>
        Writes(s.accounts, s.scanned, steps, DeregReset(d), Write(qq, Some(AwaitingKey)));
  }

  /** In every run: a won claim makes its account indexing; the end of a build makes it ready or failed, unless an index
      was cleared since it sampled; a finished deregistration makes it wait again if it is scanned, and forgets it
      otherwise. Nothing else writes an account, and nothing writes any other. */
  lemma AccountsTold(s0: State, steps: seq<Step>, a: Step)
    requires Initial(s0) && IsRun(s0, steps) && Enabled(Final(s0, steps), a)
    ensures AsWritten(Final(s0, steps).accounts, Next(Final(s0, steps), a).accounts, s0.scanned, steps, a)
  {
    var s := Final(s0, steps);
    StaysDistinct(s0, steps);
    if a.Claim? {
      ClaimAsWritten(s, steps, a.b, a.qq);
    } else if a.SetReady? || a.BuildFails? {
      ClaimTold(s0, steps, a.b);
      CurrentTold(s0, steps, a.b);
      OutcomeAsWritten(s, steps, a);
    } else if a.DeregReset? {
      CheckTold(s0, steps, a.d);
      ResetAsWritten(s, steps, a.d);
    } else {
      OthersWriteNothing(s, a);
    }
  }

  /** A deregistration begins exactly when the first account past waiting is its own. */
  lemma DeregBegins(s: State, d: nat, qq: string)
    requires Enabled(s, DeregCheck(d, qq))
    ensures var t := Next(s, DeregCheck(d, qq));
      d in t.deregs <==> exists i: nat :: FirstBoundAt(s.accounts, i) && s.accounts[i].qq == qq
  {
    if BoundAccount(s.accounts).Some? {
      var i := SomeBoundIsFirst(s.accounts);
      assert FirstBoundAt(s.accounts, i);
      forall j: nat | FirstBoundAt(s.accounts, j) ensures j == i {
      }
    } else {
      forall i: nat | FirstBoundAt(s.accounts, i) ensures false {
        BoundIsFirst(s.accounts, i);
      }
    }
  }

  // ---- The order of steps ----

  /** Steps of one build, one deregistration or one pass. */
  predicate SameActor(x: Step, y: Step) {
    || (OfBuild(x) && OfBuild(y) && x.b == y.b) || (OfDereg(x) && OfDereg(y) && x.d == y.d)
    || (OfPoll(x) && OfPoll(y) && x.p == y.p)
  }

  /** Steps that begin a build, a deregistration or a pass. */
  predicate Begins(a: Step) { a.Claim? || a.DeregCheck? || a.PollRead? }

  /** The step that comes directly before this one among those of its actor. */
  predicate Follows(x: Step, y: Step) {
    SameActor(x, y) &&
    match y
    case Sample(_) => x.Claim?
    case Swap(_) => x.Sample?
    case BuildFails(_) => x.Sample?
    case PublishBaseline(_) => x.Swap?
    case Register(_) => x.PublishBaseline?
    case SetReady(_) => x.Register?
    case RetireDetach(_) => x.SetReady?
    case RetireStop(_) => x.RetireDetach?
    case DeregDetach(_) => x.DeregCheck?
    case DeregStop(_) => x.DeregDetach?
    case DeregClear(_) => x.DeregStop?
    case DeregClearHistory(_) => x.DeregClear?
    case DeregBump(_) => x.DeregClearHistory?
    case DeregPublish(_) => x.DeregBump?
    case DeregReset(_) => x.DeregPublish?
    case PollApply(_) => x.PollRead?
    case PollPublish(_) => x.PollApply?
    case _ => false
  }

  /** The last step so far of the same actor. */
  function LastOf(steps: seq<Step>, y: Step): Option<Step> {
    if steps == [] then None
    else if SameActor(steps[|steps| - 1], y) then Some(steps[|steps| - 1])
    else LastOf(steps[..|steps| - 1], y)
  }

  /** Where a build stands after its step `x`. */
  predicate StandsAfter(pc: BuildPc, x: Step) {
    match pc
    case Requested => x.Claim?
    case Sampled => x.Sample?
    case Swapped => x.Swap?
    case Installed => x.PublishBaseline?
    case Registered => x.Register?
    case Retiring => x.SetReady?
    case Serving => x.SetReady?
    case Stopping(_) => x.RetireDetach?
    case Over => x.Swap? || x.BuildFails? || x.RetireStop?
  }

  predicate DeregAfter(pc: DeregPc, x: Step) {
    match pc
    case Checked => x.DeregCheck?
    case Detached => x.DeregDetach?
    case Stopped => x.DeregStop?
    case Cleared => x.DeregClear?
    case HistoryCleared => x.DeregClearHistory?
    case Bumped => x.DeregBump?
    case Published => x.DeregPublish?
    case Finished => x.DeregReset?
  }

  predicate PollAfter(pc: PollPc, x: Step) {
    match pc
    case Reading => x.PollRead?
    case Publishing => x.PollApply?
    case Done => x.PollApply? || x.PollPublish?
  }

  lemma BuildTurn(s: State, a: Step, b: nat)
    requires Enabled(s, a) && b in Next(s, a).builds
    ensures if OfBuild(a) && a.b == b then StandsAfter(Next(s, a).builds[b].pc, a)
            else b in s.builds && Next(s, a).builds[b] == s.builds[b]
  {
    if OfPoll(a) {
      PollFrame(s, a);
    } else if OfDereg(a) {
      DeregFrame(s, a);
    } else {
      BuildMoves(s, a, b);
      if a.b == b {
        BuildStands(s, a);
      }
    }
  }

  lemma BuildStands(s: State, a: Step)
    requires Enabled(s, a) && OfBuild(a) && a.b in Next(s, a).builds
    ensures StandsAfter(Next(s, a).builds[a.b].pc, a)
  {
  }

  lemma DeregTurn(s: State, a: Step, d: nat)
    requires Enabled(s, a) && d in Next(s, a).deregs
    ensures if OfDereg(a) && a.d == d then DeregAfter(Next(s, a).deregs[d].pc, a)
            else d in s.deregs && Next(s, a).deregs[d] == s.deregs[d]
  {
    if OfPoll(a) {
      PollFrame(s, a);
    } else if OfBuild(a) {
      BuildLeaves(s, a);
    } else {
      DeregMoves(s, a, d);
      if a.d == d {
        DeregStands(s, a);
      }
    }
  }

  lemma DeregStands(s: State, a: Step)
    requires Enabled(s, a) && OfDereg(a) && a.d in Next(s, a).deregs
    ensures DeregAfter(Next(s, a).deregs[a.d].pc, a)
  {
  }

  lemma PollTurn(s: State, a: Step, p: nat)
    requires Enabled(s, a) && p in Next(s, a).polls
    ensures if OfPoll(a) && a.p == p then PollAfter(Next(s, a).polls[p].pc, a)
            else p in s.polls && Next(s, a).polls[p] == s.polls[p]
  {
    if OfDereg(a) {
      DeregFrame(s, a);
    } else if OfBuild(a) {
      BuildLeaves(s, a);
    } else {
      PollStands(s, a, p);
    }
  }

  lemma PollStands(s: State, a: Step, p: nat)
    requires Enabled(s, a) && OfPoll(a) && p in Next(s, a).polls
    ensures if a.p == p then PollAfter(Next(s, a).polls[p].pc, a)
            else p in s.polls && Next(s, a).polls[p] == s.polls[p]
  {
  }

  /** The actor of `y` stands where its last step `x` left it. */
  predicate Standing(s: State, x: Option<Step>, y: Step) {
    && (OfBuild(y) && y.b in s.builds ==> x.Some? && StandsAfter(s.builds[y.b].pc, x.value))
    && (OfDereg(y) && y.d in s.deregs ==> x.Some? && DeregAfter(s.deregs[y.d].pc, x.value))
    && (OfPoll(y) && y.p in s.polls ==> x.Some? && PollAfter(s.polls[y.p].pc, x.value))
  }

  lemma StandingMoves(s: State, a: Step, x: Option<Step>, y: Step)
    requires Enabled(s, a) && Standing(s, x, y)
    ensures Standing(Next(s, a), if SameActor(a, y) then Some(a) else x, y)
  {
    if OfBuild(y) {
      BuildStanding(s, a, x, y);
    } else if OfDereg(y) {
      DeregStanding(s, a, x, y);
    } else {
      PollStanding(s, a, x, y);
    }
  }

  lemma BuildStanding(s: State, a: Step, x: Option<Step>, y: Step)
    requires Enabled(s, a) && Standing(s, x, y) && OfBuild(y)
    ensures var z := if SameActor(a, y) then Some(a) else x;
            y.b in Next(s, a).builds ==> z.Some? && StandsAfter(Next(s, a).builds[y.b].pc, z.value)
  {
    if y.b in Next(s, a).builds { BuildTurn(s, a, y.b); }
  }

  lemma DeregStanding(s: State, a: Step, x: Option<Step>, y: Step)
    requires Enabled(s, a) && Standing(s, x, y) && OfDereg(y)
    ensures var z := if SameActor(a, y) then Some(a) else x;
            y.d in Next(s, a).deregs ==> z.Some? && DeregAfter(Next(s, a).deregs[y.d].pc, z.value)
  {
    if y.d in Next(s, a).deregs { DeregTurn(s, a, y.d); }
  }

  lemma PollStanding(s: State, a: Step, x: Option<Step>, y: Step)
    requires Enabled(s, a) && Standing(s, x, y) && OfPoll(y)
    ensures var z := if SameActor(a, y) then Some(a) else x;
            y.p in Next(s, a).polls ==> z.Some? && PollAfter(Next(s, a).polls[y.p].pc, z.value)
  {
    if y.p in Next(s, a).polls { PollTurn(s, a, y.p); }
  }

  /** Where everyone stands is what its last step says. */
  lemma {:induction false} StandingTold(s0: State, steps: seq<Step>, y: Step)
    requires Initial(s0) && IsRun(s0, steps)
    ensures Standing(Final(s0, steps), LastOf(steps, y), y)
    decreases |steps|
  {
    if steps != [] {
      var n := |steps| - 1;
      AllButLast(s0, steps);
      StandingTold(s0, steps[..n], y);
      StandingMoves(Final(s0, steps[..n]), steps[n], LastOf(steps[..n], y), y);
    }
  }

  lemma NextInOrder(s: State, x: Option<Step>, a: Step)
    requires Enabled(s, a) && Standing(s, x, a) && !Begins(a) && (x.Some? ==> SameActor(x.value, a))
    ensures x.Some? && Follows(x.value, a)
  {
  }

  /** In every run, each step of a build, a deregistration or a pass comes directly after the one before it in that
      build's, deregistration's or pass's own order: none is left out, done twice, or done early. */
  lemma StepsInOrder(s0: State, steps: seq<Step>, a: Step)
    requires Initial(s0) && IsRun(s0, steps) && Enabled(Final(s0, steps), a) && !Begins(a)
    ensures LastOf(steps, a).Some? && Follows(LastOf(steps, a).value, a)
  {
    StandingTold(s0, steps, a);
    LastIsSame(steps, a);
    NextInOrder(Final(s0, steps), LastOf(steps, a), a);
  }

  lemma {:induction false} LastIsSame(steps: seq<Step>, y: Step)
    ensures LastOf(steps, y).Some? ==> SameActor(LastOf(steps, y).value, y)
    decreases |steps|
  {
    if steps != [] && !SameActor(steps[|steps| - 1], y) {
      LastIsSame(steps[..|steps| - 1], y);
    }
  }

  /** A build goes on after its swap, and serves after it is ready, exactly when no index was cleared since it sampled;
      otherwise it is over, or retires its sync. */
  lemma BranchesTold(s0: State, steps: seq<Step>, b: nat)
    requires Initial(s0) && IsRun(s0, steps)
    ensures var s := Final(s0, steps);
      && (Enabled(s, Swap(b)) ==> Next(s, Swap(b)).builds[b].pc == if Current(steps, b) then Swapped else Over)
      && (Enabled(s, SetReady(b)) ==>
            Next(s, SetReady(b)).builds[b].pc == if Current(steps, b) then Serving else Retiring)
  {
    if Sampling(Final(s0, steps), b) {
      CurrentTold(s0, steps, b);
    }
  }

  /** A pass publishes its rows exactly when its sync is not stopped at the moment it writes. */
  lemma PassPublishes(s: State, p: nat)
    requires Enabled(s, PollApply(p))
    ensures Enabled(Next(s, PollApply(p)), PollPublish(p)) <==> s.polls[p].sync !in s.stopped
  {
  }
}

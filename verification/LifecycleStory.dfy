/** What a run has done to epochs, store and replay buffer, told from its steps alone. */
module LifecycleStory {
  import opened Optional
  import opened Accounts
  import opened Lifecycle
  import opened LifecycleSafety

  // ---- A run and its prefixes ----

  lemma {:induction false} AllButLast(s0: State, steps: seq<Step>)
    requires IsRun(s0, steps) && steps != []
    ensures var n := |steps| - 1;
      && IsRun(s0, steps[..n]) && Enabled(Final(s0, steps[..n]), steps[n])
      && Final(s0, steps) == Next(Final(s0, steps[..n]), steps[n])
    decreases |steps|
  {
    var n := |steps| - 1;
    if n > 0 {
      AllButLast(Next(s0, steps[0]), steps[1..]);
      assert steps[..n][0] == steps[0] && steps[1..][..n - 1] == steps[..n][1..];
    }
  }

  // ---- Epochs ----

  function Clears(steps: seq<Step>): nat {
    if steps == [] then 0
    else Clears(steps[..|steps| - 1]) + if steps[|steps| - 1].DeregClear? then 1 else 0
  }

  function Bumps(steps: seq<Step>): nat {
    if steps == [] then 0
    else Bumps(steps[..|steps| - 1]) + if steps[|steps| - 1].DeregBump? then 1 else 0
  }

  /** Build `b` has sampled the epoch, and no index was cleared since. */
  predicate Current(steps: seq<Step>, b: nat) {
    if steps == [] then false
    else
      var a := steps[|steps| - 1];
      a == Sample(b) || (!a.DeregClear? && Current(steps[..|steps| - 1], b))
  }

  lemma CountersMove(s: State, a: Step)
    requires Enabled(s, a)
    ensures Next(s, a).epoch == s.epoch + if a.DeregClear? then 1 else 0
    ensures Next(s, a).generation == s.generation + if a.DeregBump? then 1 else 0
  {
  }

  /** The epoch counts the clears, the generation the bumps. */
  lemma {:induction false} CountersTold(s0: State, steps: seq<Step>)
    requires IsRun(s0, steps)
    ensures Final(s0, steps).epoch == s0.epoch + Clears(steps)
    ensures Final(s0, steps).generation == s0.generation + Bumps(steps)
    decreases |steps|
  {
    if steps != [] {
      var n := |steps| - 1;
      AllButLast(s0, steps);
      CountersTold(s0, steps[..n]);
      CountersMove(Final(s0, steps[..n]), steps[n]);
    }
  }

  lemma {:induction false} KeepsConsistent(s0: State, steps: seq<Step>)
    requires IsRun(s0, steps) && Consistent(s0)
    ensures Consistent(Final(s0, steps))
    decreases |steps|
  {
    if steps != [] {
      ConsistentStep(s0, steps[0]);
      KeepsConsistent(Next(s0, steps[0]), steps[1..]);
    }
  }

  predicate Sampling(s: State, b: nat) { b in s.builds && !s.builds[b].pc.Requested? }

  lemma CurrentMoves(s: State, a: Step, b: nat)
    requires Enabled(s, a) && EpochsOk(s) && Sampling(Next(s, a), b)
    ensures a == Sample(b) ==> Next(s, a).builds[b].epoch == Next(s, a).epoch
    ensures a.DeregClear? ==> Next(s, a).builds[b].epoch != Next(s, a).epoch
    ensures a != Sample(b) ==> Sampling(s, b)
    ensures a != Sample(b) && !a.DeregClear? ==>
              (Next(s, a).builds[b].epoch == Next(s, a).epoch <==> s.builds[b].epoch == s.epoch)
  {
    if OfPoll(a) {
      PollFrame(s, a);
    } else if OfDereg(a) {
      DeregFrame(s, a);
    } else {
      BuildLeaves(s, a);
      BuildMoves(s, a, b);
      if b == a.b {
        EpochMoves(s, a);
        if !a.Sample? {
          NotRequestedWas(s, a);
        }
      }
    }
  }

  lemma NotRequestedWas(s: State, a: Step)
    requires Enabled(s, a) && OfBuild(a) && !a.Sample? && Sampling(Next(s, a), a.b)
    ensures Sampling(s, a.b)
  {
  }

  /** A build's epoch is the current one exactly as long as no index was cleared since it sampled. */
  lemma {:induction false} CurrentTold(s0: State, steps: seq<Step>, b: nat)
    requires Initial(s0) && IsRun(s0, steps) && Sampling(Final(s0, steps), b)
    ensures Final(s0, steps).builds[b].epoch == Final(s0, steps).epoch <==> Current(steps, b)
    decreases |steps|
  {
    if steps != [] {
      var n := |steps| - 1;
      AllButLast(s0, steps);
      KeepsConsistent(s0, steps[..n]);
      CurrentMoves(Final(s0, steps[..n]), steps[n], b);
      if steps[n] != Sample(b) && !steps[n].DeregClear? {
        CurrentTold(s0, steps[..n], b);
      }
    }
  }

  // ---- The store ----

  /** The build whose index the store holds: the last one that swapped it in without a clear since its sample, unless
      the store was cleared after that. */
  function Held(steps: seq<Step>): Option<nat> {
    if steps == [] then None
    else
      var before, a := steps[..|steps| - 1], steps[|steps| - 1];
      if a.DeregClear? then None
      else if a.Swap? && Current(before, a.b) then Some(a.b)
      else Held(before)
  }

  lemma BaseMoves(s: State, a: Step)
    requires Enabled(s, a)
    ensures a.DeregClear? ==> Next(s, a).base == None
    ensures a.Swap? && s.builds[a.b].epoch == s.epoch ==> Next(s, a).base == Some(a.b)
    ensures !a.DeregClear? && !(a.Swap? && s.builds[a.b].epoch == s.epoch) ==> Next(s, a).base == s.base
  {
  }

  lemma {:induction false} BaseTold(s0: State, steps: seq<Step>)
    requires Initial(s0) && IsRun(s0, steps)
    ensures Final(s0, steps).base == Held(steps)
    decreases |steps|
  {
    if steps != [] {
      var n := |steps| - 1;
      AllButLast(s0, steps);
      BaseTold(s0, steps[..n]);
      BaseMoves(Final(s0, steps[..n]), steps[n]);
      if steps[n].Swap? {
        CurrentTold(s0, steps[..n], steps[n].b);
      }
    }
  }

  /** A pass adds its sync to those that wrote exactly when its sync is not stopped; a swap or a clear begins anew. */
  lemma PassesMove(s: State, a: Step)
    requires Enabled(s, a)
    ensures Next(s, a).applied ==
            if a.DeregClear? || (a.Swap? && s.builds[a.b].epoch == s.epoch) then []
            else if a.PollApply? && s.polls[a.p].sync !in s.stopped then s.applied + [s.polls[a.p].sync]
            else s.applied
  {
  }

  /** The syncs whose passes have extended the index since it was swapped in or cleared, one entry per pass: those not
      stopped as they wrote. */
  function Passed(s0: State, steps: seq<Step>): seq<nat>
    requires IsRun(s0, steps)
  {
    if steps == [] then []
    else
      AllButLast(s0, steps);
      var before, a := steps[..|steps| - 1], steps[|steps| - 1];
      if a.DeregClear? || (a.Swap? && Current(before, a.b)) then []
      else if a.PollApply? && SyncOf(before, a.p) !in Final(s0, before).stopped then
        Passed(s0, before) + [SyncOf(before, a.p)]
      else Passed(s0, before)
  }

  lemma {:induction false} PassesTold(s0: State, steps: seq<Step>)
    requires Initial(s0) && IsRun(s0, steps)
    ensures Final(s0, steps).applied == Passed(s0, steps)
    decreases |steps|
  {
    if steps != [] {
      var n := |steps| - 1;
      AllButLast(s0, steps);
      PassesTold(s0, steps[..n]);
      PassesMove(Final(s0, steps[..n]), steps[n]);
      if steps[n].Swap? {
        CurrentTold(s0, steps[..n], steps[n].b);
      } else if steps[n].PollApply? {
        SyncTold(s0, steps[..n], steps[n].p);
      }
    }
  }

  // ---- The replay buffer ----

  /** The epoch build `b` sampled, counted from `e0`. */
  function SampledEpoch(e0: nat, steps: seq<Step>, b: nat): nat {
    if steps == [] then 0
    else if steps[|steps| - 1] == Sample(b) then e0 + Clears(steps[..|steps| - 1])
    else SampledEpoch(e0, steps[..|steps| - 1], b)
  }

  /** The sync pass `p` reads for. */
  function SyncOf(steps: seq<Step>, p: nat): nat {
    if steps == [] then 0
    else
      var a := steps[|steps| - 1];
      if a.PollRead? && a.p == p then a.sync else SyncOf(steps[..|steps| - 1], p)
  }

  /** What a step publishes, after the steps before it. */
  function Telling(e0: nat, before: seq<Step>, a: Step): seq<Event> {
    if a.PublishBaseline? then [Baseline(a.b, SampledEpoch(e0, before, a.b))]
    else if a.DeregPublish? then [Reset]
    else if a.PollPublish? then [NewRows(SyncOf(before, a.p))] else []
  }

  /** Everything published since the buffer was last cleared. */
  function Told(e0: nat, steps: seq<Step>): seq<Event> {
    if steps == [] then []
    else
      var before, a := steps[..|steps| - 1], steps[|steps| - 1];
      if a.DeregClearHistory? then [] else Told(e0, before) + Telling(e0, before, a)
  }

  function Recent(all: seq<Event>): seq<Event> { if |all| <= 1000 then all else all[|all| - 1000..] }

  lemma PushIsRecent(all: seq<Event>, e: Event)
    ensures Push(Recent(all), e) == Recent(all + [e])
  {
  }

  lemma HistoryGrows(s: State, a: Step)
    requires Enabled(s, a)
    ensures Next(s, a).history ==
            if a.DeregClearHistory? then []
            else if a.PublishBaseline? then Push(s.history, Baseline(a.b, s.builds[a.b].epoch))
            else if a.DeregPublish? then Push(s.history, Reset)
            else if a.PollPublish? then Push(s.history, NewRows(s.polls[a.p].sync))
            else s.history
  {
  }

  lemma SampledMoves(s: State, a: Step, b: nat)
    requires Enabled(s, a) && Sampling(Next(s, a), b)
    ensures a == Sample(b) ==> Next(s, a).builds[b].epoch == s.epoch
    ensures a != Sample(b) ==> Sampling(s, b) && Next(s, a).builds[b].epoch == s.builds[b].epoch
  {
    if OfPoll(a) {
      PollFrame(s, a);
    } else if OfDereg(a) {
      DeregFrame(s, a);
    } else {
      BuildMoves(s, a, b);
      if b == a.b {
        EpochMoves(s, a);
        if !a.Sample? {
          NotRequestedWas(s, a);
        }
      }
    }
  }

  lemma {:induction false} SampledTold(s0: State, steps: seq<Step>, b: nat)
    requires Initial(s0) && IsRun(s0, steps) && Sampling(Final(s0, steps), b)
    ensures Final(s0, steps).builds[b].epoch == SampledEpoch(s0.epoch, steps, b)
    decreases |steps|
  {
    if steps != [] {
      var n := |steps| - 1;
      AllButLast(s0, steps);
      SampledMoves(Final(s0, steps[..n]), steps[n], b);
      CountersTold(s0, steps[..n]);
      if steps[n] != Sample(b) {
        SampledTold(s0, steps[..n], b);
      }
    }
  }

  lemma PollMoves(s: State, a: Step, p: nat)
    requires Enabled(s, a) && p in Next(s, a).polls
    ensures if a.PollRead? && a.p == p then Next(s, a).polls[p].sync == a.sync
            else p in s.polls && Next(s, a).polls[p].sync == s.polls[p].sync
  {
    if OfDereg(a) {
      DeregFrame(s, a);
    } else if OfBuild(a) {
      BuildLeaves(s, a);
    }
  }

  lemma {:induction false} SyncTold(s0: State, steps: seq<Step>, p: nat)
    requires Initial(s0) && IsRun(s0, steps) && p in Final(s0, steps).polls
    ensures Final(s0, steps).polls[p].sync == SyncOf(steps, p)
    decreases |steps|
  {
    if steps != [] {
      var n := |steps| - 1;
      AllButLast(s0, steps);
      PollMoves(Final(s0, steps[..n]), steps[n], p);
      if !(steps[n].PollRead? && steps[n].p == p) {
        SyncTold(s0, steps[..n], p);
      }
    }
  }

  /** The replay buffer holds the last thousand of the events published since it was last cleared: each installed
      index's baseline with the epoch its build sampled, each reset, and each pass's rows. */
  lemma {:induction false} HistoryTold(s0: State, steps: seq<Step>)
    requires Initial(s0) && IsRun(s0, steps)
    ensures Final(s0, steps).history == Recent(Told(s0.epoch, steps))
    decreases |steps|
  {
    if steps != [] {
      var n := |steps| - 1;
      AllButLast(s0, steps);
      HistoryTold(s0, steps[..n]);
      HistoryStep(s0, steps[..n], steps[n]);
    }
  }

  lemma HistoryStep(s0: State, before: seq<Step>, a: Step)
    requires Initial(s0) && IsRun(s0, before) && Enabled(Final(s0, before), a)
    requires Final(s0, before).history == Recent(Told(s0.epoch, before))
    ensures Next(Final(s0, before), a).history
         == if a.DeregClearHistory? then [] else Recent(Told(s0.epoch, before) + Telling(s0.epoch, before, a))
  {
    HistoryGrows(Final(s0, before), a);
    var told := Told(s0.epoch, before);
    if a.PublishBaseline? {
      SampledTold(s0, before, a.b);
    } else if a.PollPublish? {
      SyncTold(s0, before, a.p);
    }
    if Telling(s0.epoch, before, a) == [] {
      assert told + [] == told;
    } else {
      PushIsRecent(told, Telling(s0.epoch, before, a)[0]);
    }
  }
}

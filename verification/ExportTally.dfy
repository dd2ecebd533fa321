/** What a round reports: written files, reused and skipped sessions, and how many messages it wrote. */
module ExportTally {
  import opened ExportRound
  import opened ExportRun
  import Sequences

  lemma SplitLast(a: seq<Step>, b: seq<Step>)
    requires b != []
    ensures (a + b)[..|a + b| - 1] == a + b[..|b| - 1] && (a + b)[|a + b| - 1] == b[|b| - 1]
  {
  }

  lemma {:induction false} WrittenJoins(a: seq<Step>, b: seq<Step>)
    ensures Written(a + b) == Written(a) + Written(b)
    decreases |b|
  {
    if b == [] {
      assert a + b == a && Written(a) + [] == Written(a);
    } else {
      var n := |b| - 1;
      SplitLast(a, b);
      WrittenJoins(a, b[..n]);
      Sequences.Join(Written(a), Written(b[..n]), if b[n].action.Wrote? then [b[n].file] else []);
    }
  }

  lemma {:induction false} ReusedJoins(a: seq<Step>, b: seq<Step>)
    ensures ReusedTalkers(a + b) == ReusedTalkers(a) + ReusedTalkers(b)
    decreases |b|
  {
    if b == [] {
      assert a + b == a && ReusedTalkers(a) + [] == ReusedTalkers(a);
    } else {
      var n := |b| - 1;
      SplitLast(a, b);
      ReusedJoins(a, b[..n]);
      Sequences.Join(ReusedTalkers(a), ReusedTalkers(b[..n]), if b[n].action.Reused? then [b[n].talker] else []);
    }
  }

  lemma {:induction false} MessagesJoin(a: seq<Step>, b: seq<Step>)
    ensures Messages(a + b) == Messages(a) + Messages(b)
    decreases |b|
  {
    if b == [] {
      assert a + b == a;
    } else {
      SplitLast(a, b);
      MessagesJoin(a, b[..|b| - 1]);
    }
  }

  /** Adding one step to a round adds: its file, if it wrote one; its session, if it reused it; its messages. */
  lemma OneTallied(s: Step)
    ensures Written([s]) == if s.action.Wrote? then [s.file] else []
    ensures ReusedTalkers([s]) == if s.action.Reused? then [s.talker] else []
    ensures Messages([s]) == if s.action.Wrote? then s.action.messages else 0
  {
    assert [s][..0] == [];
  }

  lemma {:induction false} SkippedTold(steps: seq<Step>, talker: string)
    ensures talker in SkippedTalkers(steps) <==>
            exists s :: s in steps && s.talker == talker && (s.action.Refused? || s.action.GivenUp?)
    decreases |steps|
  {
    if steps != [] {
      var n := |steps| - 1;
      SkippedTold(steps[..n], talker);
      assert forall s :: s in steps <==> s in steps[..n] || s == steps[n];
    }
  }

  /** What a completed round reports, for any way its steps are cut in two: the files of the first part come before
      those of the second, the reused sessions likewise, and the messages add up; and a session is reported skipped
      exactly if one of its turns was refused or given up. */
  lemma ReportTold(o: Outcome, a: seq<Step>, b: seq<Step>, talker: string)
    requires Tallied(o, a + b)
    ensures o.written == Written(a) + Written(b) && o.reused == ReusedTalkers(a) + ReusedTalkers(b)
    ensures o.messages == Messages(a) + Messages(b)
    ensures talker in o.skipped <==>
            exists s :: s in a + b && s.talker == talker && (s.action.Refused? || s.action.GivenUp?)
  {
    WrittenJoins(a, b);
    ReusedJoins(a, b);
    MessagesJoin(a, b);
    SkippedTold(a + b, talker);
  }
}

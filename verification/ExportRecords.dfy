/** Who is recorded after a round, and what becomes of a session that is not. */
module ExportRecords {
  import opened Naming
  import opened ExportDocument
  import opened ExportRound
  import opened ExportRun
  import opened ExportEffects

  // ---- Who stays recorded ----

  /** Some step of the round puts a row of this talker into the new index. */
  predicate KeptBy(recorded: Entries, steps: seq<Step>, t: string) {
    exists j :: 0 <= j < |steps| && KeptByStep(recorded, steps[j], t)
  }

  predicate KeptByStep(recorded: Entries, s: Step, t: string) {
    ((s.action.Wrote? || s.action.Reused?) && s.talker == t)
    || (s.action.Refused? && Owns(recorded, t, Fold(s.file)))
  }

  predicate HasRow(rows: seq<IndexRow>, t: string) { exists r :: r in rows && r.talker == t }

  lemma ReadBackHas(rows: seq<IndexRow>, t: string)
    ensures t in ReadBack(rows) <==> HasRow(rows, t)
  {
    if t in ReadBack(rows) {
      assert ReadBack(rows)[t] in rows;
    }
  }

  lemma HasRowSnoc(rows: seq<IndexRow>, r: IndexRow, t: string)
    ensures HasRow(rows + [r], t) <==> HasRow(rows, t) || r.talker == t
  {
    assert forall x :: x in rows + [r] <==> x in rows || x == r;
  }

  lemma AddedHas(files: Files, was: set<Delivery>, recorded: Entries, rows: seq<IndexRow>, target: Target,
                 opts: Options, s: Step, t: string)
    requires EntriesOwned(files, was, recorded) && (s.action.Reused? ==> s.talker in recorded)
    ensures HasRow(rows + Added(recorded, rows, target, opts, s), t) <==> HasRow(rows, t) || KeptByStep(recorded, s, t)
  {
    match s.action
    case Refused => RefusedHas(files, was, recorded, rows, target, opts, s, t);
    case Reused => HasRowSnoc(rows, recorded[s.talker], t);
    case GivenUp => AddedBy(recorded, rows, target, opts, s);
    case Wrote(n) => HasRowSnoc(rows, IndexRow(s.talker, s.file, n, target.displayName, opts.withMedia), t);
  }

  lemma RefusedHas(files: Files, was: set<Delivery>, recorded: Entries, rows: seq<IndexRow>, target: Target,
                   opts: Options, s: Step, t: string)
    requires EntriesOwned(files, was, recorded) && s.action.Refused?
    ensures HasRow(rows + Added(recorded, rows, target, opts, s), t) <==>
            HasRow(rows, t) || Owns(recorded, t, Fold(s.file))
  {
    if exists o :: o in recorded && Owns(recorded, o, Fold(s.file)) {
      var o :| o in recorded && Owns(recorded, o, Fold(s.file));
      forall p | Owns(recorded, p, Fold(s.file)) ensures p == o {
        OwnerIsOne(files, was, recorded, Fold(s.file), o, p);
      }
      AddedOwner(recorded, rows, target, opts, s, o);
      HasRowSnoc(rows, recorded[o], t);
    } else {
      AddedBy(recorded, rows, target, opts, s);
    }
  }

  lemma {:induction false} IndexRowsHave(files: Files, was: set<Delivery>, recorded: Entries, targets: seq<Target>,
                                         opts: Options, steps: seq<Step>, t: string)
    requires EntriesOwned(files, was, recorded) && |steps| <= |targets|
    requires forall i :: 0 <= i < |steps| && steps[i].action.Reused? ==> steps[i].talker in recorded
    ensures HasRow(IndexRows(recorded, targets, opts, steps), t) <==> KeptBy(recorded, steps, t)
    decreases |steps|
  {
    if steps != [] {
      var n := |steps| - 1;
      IndexRowsHave(files, was, recorded, targets, opts, steps[..n], t);
      AddedHas(files, was, recorded, IndexRows(recorded, targets, opts, steps[..n]), targets[n], opts, steps[n], t);
      KeptBySnoc(recorded, steps, t);
    }
  }

  lemma KeptBySnoc(recorded: Entries, steps: seq<Step>, t: string)
    requires steps != []
    ensures KeptBy(recorded, steps, t) <==>
            KeptBy(recorded, steps[..|steps| - 1], t) || KeptByStep(recorded, steps[|steps| - 1], t)
  {
    var init := steps[..|steps| - 1];
    if j :| 0 <= j < |init| && KeptByStep(recorded, init[j], t) {
      assert KeptByStep(recorded, steps[j], t);
    }
    if j :| 0 <= j < |steps| && KeptByStep(recorded, steps[j], t) {
      assert j < |init| ==> KeptByStep(recorded, init[j], t);
    }
  }

  /** A talker is recorded after a completed round if and only if a step wrote or reused its artifact, or refused
      another session the name it owns. */
  lemma RecordedBySteps(start: Files, was: set<Delivery>, files: Files, finished: set<Delivery>, fuel: nat,
                            round: Round, steps: seq<Step>, left: Files, r: Result, t: string)
    requires |round.fates| == |round.targets| && RoundDone(start, files, finished, fuel, round, steps, left, r)
    requires Owned(start, was) && r.Completed?
    ensures t in PreviousIndex(files) <==> KeptBy(PreviousIndex(start), steps, t)
  {
    var recorded := PreviousIndex(start);
    forall i | 0 <= i < |steps| && steps[i].action.Reused? ensures steps[i].talker in recorded {
      assert AnswersAt(steps[i], recorded, round, i);
    }
    IndexRowsHave(start, was, recorded, round.targets, round.opts, steps, t);
    ReadBackHas(IndexRows(recorded, round.targets, round.opts, steps), t);
  }

  /** Target `j` puts a row of `t` into the new index: its own when it is written or reused, the owner's when it is
      refused. */
  predicate KeepsRow(start: Files, round: Round, j: nat, t: string)
    requires |round.fates| == |round.targets| && j < |round.targets|
  {
    match ActionAt(start, round, j)
    case Wrote(_) => round.targets[j].talker == t
    case Reused => round.targets[j].talker == t
    case Refused => Owns(PreviousIndex(start), t, Fold(FileAt(PreviousIndex(start), round, j)))
    case GivenUp => false
  }

  predicate KeepsARow(start: Files, round: Round, t: string)
    requires |round.fates| == |round.targets|
  {
    exists j :: 0 <= j < |round.targets| && KeepsRow(start, round, j, t)
  }

  /** Whether a talker is recorded after a completed round is decided before it begins: if and only if some target
      puts a row of it into the index. */
  lemma RecordedExactlyWhen(start: Files, was: set<Delivery>, files: Files, finished: set<Delivery>, fuel: nat,
                            round: Round, steps: seq<Step>, left: Files, r: Result, t: string)
    requires |round.fates| == |round.targets| && RoundDone(start, files, finished, fuel, round, steps, left, r)
    requires Owned(start, was) && r.Completed? && Once(round)
    ensures t in PreviousIndex(files) <==> KeepsARow(start, round, t)
  {
    RecordedBySteps(start, was, files, finished, fuel, round, steps, left, r, t);
    KeepingIsForecast(start, was, round, steps, left, t);
  }

  lemma KeepingIsForecast(start: Files, was: set<Delivery>, round: Round, steps: seq<Step>, left: Files, t: string)
    requires |round.fates| == |round.targets| == |steps| && Owned(start, was) && Once(round)
    requires InStep(steps, PreviousIndex(start), round, |steps|) && Chained(start, steps, round, left)
    ensures KeptBy(PreviousIndex(start), steps, t) <==> KeepsARow(start, round, t)
  {
    forall j | 0 <= j < |steps|
      ensures KeptByStep(PreviousIndex(start), steps[j], t) <==> KeepsRow(start, round, j, t)
    {
      StepIsForecast(start, was, round, steps, left, j);
    }
  }

  /** A session for which no target of a fresh round keeps a row drops out of the index, while its file stays. */
  lemma ForgottenFileStays(start: Files, was: set<Delivery>, files: Files, finished: set<Delivery>, fuel: nat,
                           round: Round, steps: seq<Step>, left: Files, r: Result, t: string)
    requires |round.fates| == |round.targets| && RoundDone(start, files, finished, fuel, round, steps, left, r)
    requires Owned(start, was) && r.Completed? && !round.opts.resume
    requires t in PreviousIndex(start) && !KeepsARow(start, round, t)
    ensures Fold(PreviousIndex(start)[t].file) in files && t !in PreviousIndex(files)
  {
    RecordedExactlyWhen(start, was, files, finished, fuel, round, steps, left, r, t);
    RecordedFileIsArtifact(start, was, t);
  }

  lemma RecordedFileIsArtifact(files: Files, was: set<Delivery>, t: string)
    requires Owned(files, was) && t in PreviousIndex(files)
    ensures var k := Fold(PreviousIndex(files)[t].file);
            k in files && k != INDEX && ExtOf(k) != "part"
  {
    var recorded := PreviousIndex(files);
    assert Holds(files, was, recorded[t]);
    var f :| OneFormat(recorded, f);
    EntryKey(recorded, f, t);
    assert |Ext(Jsonl)| == 5 && Ext(Json)[0] == 'j';
  }

  // ---- A session locked out of its own file ----

  lemma SoleFile(recorded: Entries, recorded': Entries, round: Round, round': Round)
    requires |round.targets| == 1 && round.targets == round'.targets && round.opts.format == round'.opts.format
    requires !round.opts.resume && !round'.opts.resume
    ensures FileAt(recorded, round, 0) == FileAt(recorded', round', 0)
  {
  }

  lemma FailureKeepsNone(start: Files, round: Round)
    requires |round.fates| == |round.targets| == 1 && !round.opts.resume && !round.fates[0].ending.Completes?
    requires Owns(PreviousIndex(start), round.targets[0].talker, Fold(FileAt(PreviousIndex(start), round, 0)))
    ensures ActionAt(start, round, 0) == GivenUp && forall t :: !KeepsARow(start, round, t)
  {
  }

  /** A fresh round whose only target fails, over a directory that records it under the name it would get again. */
  lemma FailureForgets(start: Files, was: set<Delivery>, files: Files, finished: set<Delivery>, fuel: nat,
                       round: Round, steps: seq<Step>, left: Files, r: Result)
    requires |round.fates| == |round.targets| == 1 && RoundDone(start, files, finished, fuel, round, steps, left, r)
    requires Owned(start, was) && r.Completed? && !round.opts.resume && !round.fates[0].ending.Completes?
    requires Owns(PreviousIndex(start), round.targets[0].talker, Fold(FileAt(PreviousIndex(start), round, 0)))
    ensures round.targets[0].talker !in PreviousIndex(files)
    ensures var k := Fold(FileAt(PreviousIndex(start), round, 0));
            k in start && k in files && files[k] == start[k]
  {
    RecordedFileIsArtifact(start, was, round.targets[0].talker);
    FailureKeepsNone(start, round);
    RecordedExactlyWhen(start, was, files, finished, fuel, round, steps, left, r, round.targets[0].talker);
    SoleFileStays(start, was, files, round, steps, left, r);
  }

  /** The file of a round's only target stays unless the target is written. */
  lemma SoleFileStays(start: Files, was: set<Delivery>, files: Files, round: Round, steps: seq<Step>, left: Files,
                      r: Result)
    requires |round.fates| == |round.targets| == |steps| == 1 && Traced(start, files, round, steps, left, r)
    requires Owned(start, was) && !ActionAt(start, round, 0).Wrote?
    ensures SameAt(start, files, Fold(FileAt(PreviousIndex(start), round, 0)))
  {
    var k := Fold(FileAt(PreviousIndex(start), round, 0));
    StepIsForecast(start, was, round, steps, left, 0);
    FileAtIsOwn(PreviousIndex(start), round, 0);
    FileIsNoPart(PreviousIndex(start), round, 0, steps[0].file);
    UntouchedFromStart(start, steps, round, left, k);
    EndKeeps(start, files, round, steps, left, r, k);
  }

  /** A fresh round refuses an unrecorded session any name that is already a file. */
  lemma ForgottenIsRefused(start: Files, was: set<Delivery>, round: Round, steps: seq<Step>, left: Files, j: nat)
    requires |round.fates| == |round.targets| && Owned(start, was) && !round.opts.resume && j < |steps|
    requires InStep(steps, PreviousIndex(start), round, |steps|) && Chained(start, steps, round, left)
    requires Fold(FileAt(PreviousIndex(start), round, j)) in start
    requires round.targets[j].talker !in PreviousIndex(start)
    ensures steps[j].talker == round.targets[j].talker && steps[j].action.Refused?
  {
    StepIsForecast(start, was, round, steps, left, j);
  }

  /** A fresh round whose only target is an unrecorded session under whose name there is a file. */
  lemma UnrecordedIsRefused(start: Files, was: set<Delivery>, files: Files, finished: set<Delivery>, fuel: nat,
                            round: Round, steps: seq<Step>, left: Files, r: Result)
    requires |round.fates| == |round.targets| == 1 && RoundDone(start, files, finished, fuel, round, steps, left, r)
    requires Owned(start, was) && r.Completed? && !round.opts.resume
    requires Fold(FileAt(PreviousIndex(start), round, 0)) in start
    requires round.targets[0].talker !in PreviousIndex(start)
    ensures |steps| == 1 && steps[0].action.Refused?
    ensures var k := Fold(FileAt(PreviousIndex(start), round, 0)); k in files && files[k] == start[k]
    ensures round.targets[0].talker !in PreviousIndex(files)
  {
    assert ActionAt(start, round, 0) == Refused;
    ForgottenIsRefused(start, was, round, steps, left, 0);
    RecordedExactlyWhen(start, was, files, finished, fuel, round, steps, left, r, round.targets[0].talker);
    SoleFileStays(start, was, files, round, steps, left, r);
  }

  /** A fresh round in which the only target fails, then a fresh round of that target: it is refused its own file,
      which nobody has touched, and stays unrecorded. */
  lemma FailedThenRefused(start: Files, was: set<Delivery>,
                          mid: Files, finished: set<Delivery>, fuel: nat,
                          first: Round, steps: seq<Step>, left: Files, r: Result,
                          files: Files, finished': set<Delivery>, fuel': nat,
                          second: Round, steps': seq<Step>, left': Files, r': Result)
    requires |first.fates| == |first.targets| == 1 && |second.fates| == |second.targets|
    requires first.targets == second.targets && first.opts.format == second.opts.format
    requires !first.opts.resume && !second.opts.resume && !first.fates[0].ending.Completes?
    requires Owned(start, was) && r.Completed? && r'.Completed?
    requires RoundDone(start, mid, finished, fuel, first, steps, left, r)
    requires RoundDone(mid, files, finished', fuel', second, steps', left', r')
    requires Owns(PreviousIndex(start), first.targets[0].talker, Fold(FileAt(PreviousIndex(start), first, 0)))
    ensures |steps'| == 1 && steps'[0].action.Refused? && first.targets[0].talker !in PreviousIndex(files)
    ensures var k := Fold(FileAt(PreviousIndex(start), first, 0));
            k in start && k in files && files[k] == start[k]
  {
    FailureForgets(start, was, mid, finished, fuel, first, steps, left, r);
    SoleFile(PreviousIndex(start), PreviousIndex(mid), first, second);
    UnrecordedIsRefused(mid, finished, files, finished', fuel', second, steps', left', r');
  }

  lemma SoleIndexRow(recorded: Entries, target: Target, opts: Options, s: Step)
    requires s.action.Wrote?
    ensures var row := IndexRow(s.talker, s.file, s.action.messages, target.displayName, opts.withMedia);
            ReadBack(IndexRows(recorded, [target], opts, [s])) == map[s.talker := row]
  {
    assert [s][..0] == [];
    var row := IndexRow(s.talker, s.file, s.action.messages, target.displayName, opts.withMedia);
    assert IndexRows(recorded, [target], opts, [s]) == [] + [row];
    ReadBackAppend([], row);
  }

  /** A fresh round that writes its only target records it under its name. */
  lemma SoleWriteIsRecorded(start: Files, was: set<Delivery>, files: Files, finished: set<Delivery>, fuel: nat,
                            round: Round, steps: seq<Step>, left: Files, r: Result)
    requires |round.fates| == |round.targets| == 1 && RoundDone(start, files, finished, fuel, round, steps, left, r)
    requires r.Completed? && steps[0].talker == round.targets[0].talker && steps[0].action.Wrote?
    ensures Owns(PreviousIndex(files), steps[0].talker, Fold(steps[0].file))
  {
    assert steps == [steps[0]] && round.targets == [round.targets[0]];
    SoleIndexRow(PreviousIndex(start), round.targets[0], round.opts, steps[0]);
  }

  lemma NothingThere()
    ensures PreviousIndex(map[]) == map[] && Owned(map[], {})
  {
    assert OneFormat(map[], Json);
  }

  function OwnFile(t: Target, f: Format): string { PathName(NameFor(t, {}), f) }

  function FreshRound(t: Target, f: Format, fate: Fate): Round {
    Round([t], Options(f, false, false), [fate], IndexWritten, 7)
  }

  lemma OwnFileIs(recorded: Entries, t: Target, f: Format, fate: Fate)
    ensures FileAt(recorded, FreshRound(t, f, fate), 0) == OwnFile(t, f)
  {
  }

  /** The session is recorded under its own name, and its artifact is there. */
  ghost predicate Kept(files: Files, t: Target, f: Format, doc: Doc) {
    var k := Fold(OwnFile(t, f));
    Owns(PreviousIndex(files), t.talker, k) && k in files && files[k] == Document(doc)
  }

  /** Its artifact is there, and it is not recorded. */
  ghost predicate Forgotten(files: Files, t: Target, f: Format, doc: Doc) {
    var k := Fold(OwnFile(t, f));
    t.talker !in PreviousIndex(files) && k in files && files[k] == Document(doc)
  }

  lemma WriteKeeps(start: Files, was: set<Delivery>, files: Files, finished: set<Delivery>, fuel: nat,
                   t: Target, f: Format, pages: seq<seq<Row>>, torn: string, steps: seq<Step>, left: Files, r: Result)
    requires RoundDone(start, files, finished, fuel, FreshRound(t, f, Fate(Completes, pages, torn, true)),
                       steps, left, r)
    requires Owned(start, was) && r.Completed? && Fold(OwnFile(t, f)) !in start
    ensures Kept(files, t, f, Render(Delivery(t, f, pages)))
  {
    var round := FreshRound(t, f, Fate(Completes, pages, torn, true));
    OwnFileIs(PreviousIndex(start), t, f, round.fates[0]);
    assert ActionAt(start, round, 0).Wrote?;
    StepIsForecast(start, was, round, steps, left, 0);
    SoleWriteIsRecorded(start, was, files, finished, fuel, round, steps, left, r);
    WrittenFileHolds(start, was, files, round, steps, left, r, 0);
  }

  method ExportsOnce(dir: ExportDir, t: Target, f: Format, pages: seq<seq<Row>>)
    requires Owned(dir.files, dir.finished) && Fold(OwnFile(t, f)) !in dir.files
    modifies dir
    ensures Owned(dir.files, dir.finished) && Kept(dir.files, t, f, Render(Delivery(t, f, pages)))
  {
    ghost var start, was := dir.files, dir.finished;
    var r, steps, left := Run(dir, FreshRound(t, f, Fate(Completes, pages, "", true)));
    WriteKeeps(start, was, dir.files, dir.finished, dir.fuel, t, f, pages, "", steps, left, r);
  }

  method FailsOnce(dir: ExportDir, t: Target, f: Format, ghost doc: Doc)
    requires Owned(dir.files, dir.finished) && Kept(dir.files, t, f, doc)
    modifies dir
    ensures Owned(dir.files, dir.finished) && Forgotten(dir.files, t, f, doc)
  {
    ghost var start, was := dir.files, dir.finished;
    var round := FreshRound(t, f, Fate(FetchFails, [], "", true));
    OwnFileIs(PreviousIndex(start), t, f, round.fates[0]);
    var r, steps, left := Run(dir, round);
    FailureForgets(start, was, dir.files, dir.finished, dir.fuel, round, steps, left, r);
  }

  method RefusedOnce(dir: ExportDir, t: Target, f: Format, pages: seq<seq<Row>>, ghost doc: Doc)
    returns (ghost steps: seq<Step>)
    requires Owned(dir.files, dir.finished) && Forgotten(dir.files, t, f, doc)
    modifies dir
    ensures Forgotten(dir.files, t, f, doc) && |steps| == 1 && steps[0].action.Refused?
  {
    ghost var start, was := dir.files, dir.finished;
    var round := FreshRound(t, f, Fate(Completes, pages, "", true));
    OwnFileIs(PreviousIndex(start), t, f, round.fates[0]);
    var r;
    ghost var left;
    r, steps, left := Run(dir, round);
    UnrecordedIsRefused(start, was, dir.files, dir.finished, dir.fuel, round, steps, left, r);
  }

  /** Such a succession of rounds, from an empty directory: the session is exported, fails once, and is from then on
      refused its own file. */
  method LockedOut(t: Target, f: Format, pages: seq<seq<Row>>) returns (dir: ExportDir, ghost last: seq<Step>)
    ensures fresh(dir) && |last| == 1 && last[0].action.Refused?
    ensures Forgotten(dir.files, t, f, Render(Delivery(t, f, pages)))
  {
    dir := new ExportDir(map[]);
    NothingThere();
    ExportsOnce(dir, t, f, pages);
    FailsOnce(dir, t, f, Render(Delivery(t, f, pages)));
    last := RefusedOnce(dir, t, f, pages, Render(Delivery(t, f, pages)));
  }
}

/** What a finished round has done to the directory and the index, file by file and talker by talker. */
module ExportEffects {
  import opened Naming
  import opened ExportDocument
  import opened ExportRound
  import opened ExportRun

  // ---- Names of one round ----

  lemma StemIsNew(recorded: Entries, t: Target, taken: set<string>, opts: Options)
    ensures var stem := StemFor(recorded, t, taken, opts);
      && Fold(stem) != "index" && Fold(stem) in TakenWith(recorded, t, taken, opts)
      && (!(opts.resume && KeepsStem(recorded, t.talker)) ==> Fold(stem) !in taken)
  {
    FirstFreeIsFirst(Stem(t), taken + {"index"}, 0);
  }

  lemma TakenNext(recorded: Entries, targets: seq<Target>, opts: Options, j: nat)
    requires j < |targets|
    ensures TakenBefore(recorded, targets, opts, j) <= TakenBefore(recorded, targets, opts, j + 1)
  {
  }

  lemma {:induction false} Climb(f: nat -> set<string>, i: nat, j: nat)
    requires i <= j && forall k: nat :: f(k) <= f(k + 1)
    ensures f(i) <= f(j)
    decreases j
  {
    if i < j {
      Climb(f, i, j - 1);
      assert f(j - 1) <= f(j - 1 + 1);
    }
  }

  /** A name once taken stays taken. */
  lemma TakenGrows(recorded: Entries, targets: seq<Target>, opts: Options, i: nat, j: nat)
    requires i <= j <= |targets|
    ensures TakenBefore(recorded, targets, opts, i) <= TakenBefore(recorded, targets, opts, j)
  {
    var f := (k: nat) => TakenBefore(recorded, targets, opts, if k <= |targets| then k else |targets|);
    forall k: nat ensures f(k) <= f(k + 1) {
      if k < |targets| {
        TakenNext(recorded, targets, opts, k);
      }
    }
    Climb(f, i, j);
  }

  lemma FileAtParts(recorded: Entries, round: Round, j: nat)
    requires j < |round.targets|
    ensures StemOf(Fold(FileAt(recorded, round, j))) == Fold(StemAt(recorded, round, j))
    ensures ExtOf(Fold(FileAt(recorded, round, j))) == Ext(round.opts.format) != "part"
  {
    NameParts(StemAt(recorded, round, j), round.opts.format);
    assert |Ext(Jsonl)| == 5 && Ext(Json)[0] == 'j';
  }

  lemma PartOfExt(file: string)
    ensures ExtOf(PartOf(file)) == "part" && |PartOf(file)| == |file| + 5 && PartOf(file)[..|file|] == Fold(file)
  {
    FoldConcat(file, ".part");
    assert Fold(".part") == ".part";
    SplitJoined(Fold(file), "part");
    assert Fold(file) + "." + "part" == Fold(file) + ".part";
  }

  lemma PartsDiffer(a: string, b: string)
    requires PartOf(a) == PartOf(b)
    ensures Fold(a) == Fold(b)
  {
    PartOfExt(a);
    PartOfExt(b);
  }

  lemma IndexPart()
    ensures Fold(INDEX) == INDEX && PartOf(INDEX) == INDEX_PART
  {
    assert "index.json" + ".part" == INDEX_PART;
    assert Fold(INDEX_PART) == INDEX_PART;
  }

  /** A target's file is no part file, and neither its file nor its part file is one of the index's. */
  lemma FileAtIsOwn(recorded: Entries, round: Round, j: nat)
    requires j < |round.targets|
    ensures var file := FileAt(recorded, round, j);
            ExtOf(Fold(file)) != "part" && Fold(file) != INDEX && PartOf(file) != INDEX_PART
  {
    var file := FileAt(recorded, round, j);
    FileAtParts(recorded, round, j);
    IndexNames();
    StemIsNew(recorded, round.targets[j], TakenBefore(recorded, round.targets, round.opts, j), round.opts);
    assert Fold(file) != INDEX;
    IndexPart();
    if PartOf(file) == PartOf(INDEX) {
      PartsDiffer(file, INDEX);
    }
  }

  lemma StemsDiffer(start: Files, was: set<Delivery>, round: Round, i: nat, j: nat)
    requires Owned(start, was) && i < j < |round.targets|
    requires !round.opts.resume || round.targets[i].talker != round.targets[j].talker
    ensures Fold(StemAt(PreviousIndex(start), round, i)) != Fold(StemAt(PreviousIndex(start), round, j))
  {
    var recorded, ts, opts := PreviousIndex(start), round.targets, round.opts;
    StemIsNew(recorded, ts[i], TakenBefore(recorded, ts, opts, i), opts);
    StemIsNew(recorded, ts[j], TakenBefore(recorded, ts, opts, j), opts);
    TakenGrows(recorded, ts, opts, i + 1, j);
    if opts.resume && KeepsStem(recorded, ts[j].talker) {
      assert FoldedStem(recorded[ts[j].talker]) in PrevStems(recorded);
      TakenGrows(recorded, ts, opts, 0, i);
      SameStemSameFile(start, was, recorded, ts[i].talker, ts[j].talker);
    }
  }

  /** Two targets of a round have different files: any two in a fresh round, those of different talkers on
      resume. */
  lemma FilesDiffer(start: Files, was: set<Delivery>, round: Round, i: nat, j: nat)
    requires Owned(start, was) && i < j < |round.targets|
    requires !round.opts.resume || round.targets[i].talker != round.targets[j].talker
    ensures Fold(FileAt(PreviousIndex(start), round, i)) != Fold(FileAt(PreviousIndex(start), round, j))
  {
    StemsDiffer(start, was, round, i, j);
    FileAtParts(PreviousIndex(start), round, i);
    FileAtParts(PreviousIndex(start), round, j);
  }

  // ---- Along the chain of turns ----

  predicate SameAt(a: Files, b: Files, k: string) { (k in a <==> k in b) && (k in a && k in b ==> a[k] == b[k]) }

  /** The directory after turn `j`. */
  function After(steps: seq<Step>, files: Files, j: nat): Files
    requires j < |steps|
  {
    if j + 1 < |steps| then steps[j + 1].before else files
  }

  predicate Touches(s: Step, k: string) {
    (s.action.Wrote? && (k == Fold(s.file) || k == PartOf(s.file))) || (s.action.GivenUp? && k == PartOf(s.file))
  }

  lemma UntouchedByTurn(s: Step, d: Delivery, after: Files, k: string)
    requires Turned(s, d, after) && !Touches(s, k)
    ensures SameAt(s.before, after, k)
  {
  }

  lemma {:induction false} UntouchedFromStart(start: Files, steps: seq<Step>, round: Round, files: Files, k: string)
    requires |round.fates| == |round.targets| >= |steps| && Chained(start, steps, round, files)
    requires forall i :: 0 <= i < |steps| ==> !Touches(steps[i], k)
    ensures SameAt(start, files, k)
    decreases |steps|
  {
    if steps != [] {
      var n := |steps| - 1;
      UntouchedByTurn(steps[n], DeliveryAt(round, n), files, k);
      UntouchedFromStart(start, steps[..n], round, steps[n].before, k);
    }
  }

  lemma {:induction false} UntouchedSince(start: Files, steps: seq<Step>, round: Round, files: Files, j: nat, k: string)
    requires |round.fates| == |round.targets| >= |steps| && Chained(start, steps, round, files) && j < |steps|
    requires forall i :: j < i < |steps| ==> !Touches(steps[i], k)
    ensures SameAt(After(steps, files, j), files, k)
    ensures Turned(steps[j], DeliveryAt(round, j), After(steps, files, j))
    decreases |steps|
  {
    var n := |steps| - 1;
    if j < n {
      UntouchedByTurn(steps[n], DeliveryAt(round, n), files, k);
      UntouchedSince(start, steps[..n], round, steps[n].before, j, k);
    }
  }

  // ---- What the inputs of a round decide ----

  /** What a round does about target `j`, from the directory it begins with and the way that export goes. */
  function ActionAt(start: Files, round: Round, j: nat): Action
    requires |round.fates| == |round.targets| && j < |round.targets|
  {
    var recorded, talker := PreviousIndex(start), round.targets[j].talker;
    if Refuses(start, recorded, talker, FileAt(recorded, round, j), round.opts) then Refused
    else if round.opts.resume && CanReuse(start, recorded, talker, StemAt(recorded, round, j), round.opts) then Reused
    else if round.fates[j].ending.Completes? then Wrote(|RowsOf(Render(DeliveryAt(round, j)))|)
    else GivenUp
  }

  predicate AttemptsAt(start: Files, files: Files, round: Round, j: nat)
    requires j < |round.targets|
  {
    var recorded := PreviousIndex(start);
    Attempts(files, recorded, round.targets[j].talker, StemAt(recorded, round, j), round.opts)
  }

  /** No session is a target twice, or it does not matter: a fresh round never gives one name twice. */
  predicate Once(round: Round) {
    round.opts.resume ==> forall i, j :: 0 <= i < j < |round.targets| ==>
      round.targets[i].talker != round.targets[j].talker
  }

  lemma {:induction false} ChainedPrefix(start: Files, steps: seq<Step>, round: Round, files: Files, j: nat)
    requires |round.fates| == |round.targets| >= |steps| && Chained(start, steps, round, files) && j < |steps|
    ensures Chained(start, steps[..j], round, steps[j].before)
    decreases |steps|
  {
    var n := |steps| - 1;
    if j < n {
      ChainedPrefix(start, steps[..n], round, steps[n].before, j);
      assert steps[..n][..j] == steps[..j];
    }
  }

  lemma InStepPrefix(steps: seq<Step>, recorded: Entries, round: Round, j: nat)
    requires |round.fates| == |round.targets| && InStep(steps, recorded, round, |steps|) && j <= |steps|
    ensures InStep(steps[..j], recorded, round, j)
  {
    forall i | 0 <= i < j ensures AnswersAt(steps[..j][i], recorded, round, i) {
      assert steps[..j][i] == steps[i];
    }
  }

  /** Turn `i` leaves the two names of target `j` alone. */
  lemma OthersTouchNot(start: Files, was: set<Delivery>, round: Round, s: Step, i: nat, j: nat)
    requires |round.fates| == |round.targets| && Owned(start, was) && i < j < |round.targets|
    requires !round.opts.resume || round.targets[i].talker != round.targets[j].talker
    requires AnswersAt(s, PreviousIndex(start), round, i)
    ensures var file := FileAt(PreviousIndex(start), round, j); !Touches(s, Fold(file)) && !Touches(s, PartOf(file))
  {
    var recorded := PreviousIndex(start);
    assert s.file == FileAt(recorded, round, i);
    FilesDiffer(start, was, round, i, j);
    LaterPartDiffers(start, was, round, i, j);
    FileIsNoPart(recorded, round, i, FileAt(recorded, round, j));
    FileIsNoPart(recorded, round, j, s.file);
  }

  lemma FileIsNoPart(recorded: Entries, round: Round, j: nat, other: string)
    requires j < |round.targets|
    ensures Fold(FileAt(recorded, round, j)) != PartOf(other)
  {
    FileAtParts(recorded, round, j);
    PartOfExt(other);
  }

  /** The two names of a target are still as they were when its turn comes. */
  lemma OwnNamesStay(start: Files, was: set<Delivery>, round: Round, steps: seq<Step>, now: Files)
    requires |round.fates| == |round.targets| && Owned(start, was) && Once(round) && |steps| < |round.targets|
    requires InStep(steps, PreviousIndex(start), round, |steps|) && Chained(start, steps, round, now)
    ensures var file := FileAt(PreviousIndex(start), round, |steps|);
            SameAt(start, now, Fold(file)) && SameAt(start, now, PartOf(file))
  {
    var file := FileAt(PreviousIndex(start), round, |steps|);
    forall i | 0 <= i < |steps| ensures !Touches(steps[i], Fold(file)) && !Touches(steps[i], PartOf(file)) {
      assert AnswersAt(steps[i], PreviousIndex(start), round, i);
      OthersTouchNot(start, was, round, steps[i], i, |steps|);
    }
    UntouchedFromStart(start, steps, round, now, Fold(file));
    UntouchedFromStart(start, steps, round, now, PartOf(file));
  }

  lemma SameNamesSameChoice(files: Files, files': Files, recorded: Entries, talker: string, stem: string, opts: Options)
    requires SameAt(files, files', Path(stem, opts.format)) && SameAt(files, files', Part(stem, opts.format))
    ensures Refuses(files, recorded, talker, PathName(stem, opts.format), opts)
        <==> Refuses(files', recorded, talker, PathName(stem, opts.format), opts)
    ensures CanReuse(files, recorded, talker, stem, opts) <==> CanReuse(files', recorded, talker, stem, opts)
  {
  }

  /** An artifact that can be reused when the round begins can be when its turn comes, however often it comes: every
      turn of that session before it has reused it too. */
  lemma {:induction false} ReusableStays(start: Files, was: set<Delivery>, round: Round, steps: seq<Step>, now: Files)
    requires |round.fates| == |round.targets| && Owned(start, was) && round.opts.resume && |steps| < |round.targets|
    requires InStep(steps, PreviousIndex(start), round, |steps|) && Chained(start, steps, round, now)
    requires var recorded := PreviousIndex(start);
      CanReuse(start, recorded, round.targets[|steps|].talker, StemAt(recorded, round, |steps|), round.opts)
    ensures var recorded := PreviousIndex(start);
      CanReuse(now, recorded, round.targets[|steps|].talker, StemAt(recorded, round, |steps|), round.opts)
    decreases |steps|
  {
    var recorded, j := PreviousIndex(start), |steps|;
    var file := FileAt(recorded, round, j);
    forall i | 0 <= i < j ensures !Touches(steps[i], Fold(file)) && !Touches(steps[i], PartOf(file)) {
      assert AnswersAt(steps[i], recorded, round, i);
      if round.targets[i].talker == round.targets[j].talker {
        SameStemAgain(start, round, i, j);
        ChainedPrefix(start, steps, round, now, i);
        InStepPrefix(steps, recorded, round, i);
        ReusableStays(start, was, round, steps[..i], steps[i].before);
        assert steps[i].action.Reused?;
      } else {
        OthersTouchNot(start, was, round, steps[i], i, j);
      }
    }
    UntouchedFromStart(start, steps, round, now, Fold(file));
    UntouchedFromStart(start, steps, round, now, PartOf(file));
    SameNamesSameChoice(start, now, recorded, round.targets[j].talker, StemAt(recorded, round, j), round.opts);
  }

  lemma SameStemAgain(start: Files, round: Round, i: nat, j: nat)
    requires i < j < |round.targets| && round.targets[i].talker == round.targets[j].talker && round.opts.resume
    requires var recorded := PreviousIndex(start);
      CanReuse(start, recorded, round.targets[j].talker, StemAt(recorded, round, j), round.opts)
    ensures StemAt(PreviousIndex(start), round, i) == StemAt(PreviousIndex(start), round, j)
  {
    var recorded := PreviousIndex(start);
    NameParts(StemAt(recorded, round, j), round.opts.format);
    StemIsNew(recorded, round.targets[j], TakenBefore(recorded, round.targets, round.opts, j), round.opts);
  }

  /** Every step of a round is the one its inputs decide. */
  lemma StepIsForecast(start: Files, was: set<Delivery>, round: Round, steps: seq<Step>, left: Files, j: nat)
    requires |round.fates| == |round.targets| && Owned(start, was) && Once(round) && j < |steps|
    requires InStep(steps, PreviousIndex(start), round, |steps|) && Chained(start, steps, round, left)
    ensures steps[j].talker == round.targets[j].talker && steps[j].file == FileAt(PreviousIndex(start), round, j)
    ensures steps[j].action == ActionAt(start, round, j)
  {
    var recorded := PreviousIndex(start);
    assert AnswersAt(steps[j], recorded, round, j);
    ChainedPrefix(start, steps, round, left, j);
    InStepPrefix(steps, recorded, round, j);
    OwnNamesStay(start, was, round, steps[..j], steps[j].before);
    SameNamesSameChoice(start, steps[j].before, recorded, round.targets[j].talker, StemAt(recorded, round, j),
                        round.opts);
  }

  /** An export that was attempted when its turn came is one the inputs decide to attempt. */
  lemma AttemptIsForecast(start: Files, was: set<Delivery>, round: Round, steps: seq<Step>, now: Files)
    requires |round.fates| == |round.targets| && Owned(start, was) && |steps| < |round.targets|
    requires InStep(steps, PreviousIndex(start), round, |steps|) && Chained(start, steps, round, now)
    requires AttemptsAt(start, now, round, |steps|)
    ensures AttemptsAt(start, start, round, |steps|)
  {
    var recorded, j := PreviousIndex(start), |steps|;
    if round.opts.resume {
      if CanReuse(start, recorded, round.targets[j].talker, StemAt(recorded, round, j), round.opts) {
        ReusableStays(start, was, round, steps, now);
      }
    } else {
      OwnNamesStay(start, was, round, steps, now);
      SameNamesSameChoice(start, now, recorded, round.targets[j].talker, StemAt(recorded, round, j), round.opts);
    }
  }

  // ---- Part files ----

  /** One of the first `turns + 1` targets of the round is to be exported through this part file: its name is free or
      its own (fresh), or its artifact cannot be reused (resumed). */
  predicate MayTouchPart(start: Files, round: Round, turns: nat, k: string) {
    exists j :: 0 <= j <= turns && j < |round.targets| && PartOf(FileAt(PreviousIndex(start), round, j)) == k
                && AttemptsAt(start, start, round, j)
  }

  /** A part file differs after a round only if it is the index's or that of a target the round came to and had to
      export. Nobody's ownership is asked. */
  lemma OtherPartFilesStay(start: Files, was: set<Delivery>, files: Files, round: Round,
                           steps: seq<Step>, left: Files, r: Result, k: string)
    requires |round.fates| == |round.targets| && Owned(start, was) && Traced(start, files, round, steps, left, r)
    requires ExtOf(k) == "part" && k != INDEX_PART && !MayTouchPart(start, round, |steps|, k)
    ensures SameAt(start, files, k)
  {
    forall i | 0 <= i < |steps| ensures !Touches(steps[i], k) {
      if Touches(steps[i], k) {
        TouchIsForecast(start, was, round, steps, left, i, k);
      }
    }
    UntouchedFromStart(start, steps, round, left, k);
    EndLeavesPart(start, was, files, round, steps, left, r, k);
  }

  lemma EndLeavesPart(start: Files, was: set<Delivery>, files: Files, round: Round,
                      steps: seq<Step>, left: Files, r: Result, k: string)
    requires |round.fates| == |round.targets| && Owned(start, was) && Traced(start, files, round, steps, left, r)
    requires ExtOf(k) == "part" && k != INDEX_PART && !MayTouchPart(start, round, |steps|, k)
    ensures SameAt(left, files, k)
  {
    IndexNames();
    if |steps| < |round.targets| {
      AttemptIsForecast(start, was, round, steps, left);
      assert PartOf(FileAt(PreviousIndex(start), round, |steps|)) != k;
    }
  }

  lemma TouchIsForecast(start: Files, was: set<Delivery>, round: Round, steps: seq<Step>, left: Files, i: nat,
                        k: string)
    requires |round.fates| == |round.targets| && Owned(start, was) && i < |steps| && ExtOf(k) == "part"
    requires InStep(steps, PreviousIndex(start), round, |steps|) && Chained(start, steps, round, left)
    requires Touches(steps[i], k)
    ensures MayTouchPart(start, round, |steps|, k)
  {
    var recorded := PreviousIndex(start);
    assert AnswersAt(steps[i], recorded, round, i) && steps[i].file == FileAt(recorded, round, i);
    FileAtIsOwn(recorded, round, i);
    ChainedPrefix(start, steps, round, left, i);
    InStepPrefix(steps, recorded, round, i);
    assert AttemptsAt(start, steps[i].before, round, i);
    AttemptIsForecast(start, was, round, steps[..i], steps[i].before);
  }

  /** And the part file of a target that was written is gone, whatever it held and whoever's it was (unless the
      round came to the same talker again on resume). */
  lemma WrittenPartIsLost(start: Files, was: set<Delivery>, files: Files,
                          round: Round, steps: seq<Step>, left: Files, r: Result, j: nat)
    requires |round.fates| == |round.targets| && Traced(start, files, round, steps, left, r)
    requires Owned(start, was) && j < |steps| && steps[j].action.Wrote?
    requires round.opts.resume ==> forall i :: j < i < |round.targets| ==> round.targets[i].talker != steps[j].talker
    ensures PartOf(steps[j].file) !in files
  {
    var recorded := PreviousIndex(start);
    var k := PartOf(steps[j].file);
    assert AnswersAt(steps[j], recorded, round, j) && steps[j].file == FileAt(recorded, round, j);
    FileAtIsOwn(recorded, round, j);
    PartOfExt(steps[j].file);
    forall i | j < i < |steps| ensures !Touches(steps[i], k) {
      assert AnswersAt(steps[i], recorded, round, i) && steps[i].file == FileAt(recorded, round, i);
      FileAtIsOwn(recorded, round, i);
      LaterPartDiffers(start, was, round, j, i);
    }
    UntouchedSince(start, steps, round, left, j, k);
    IndexNames();
    if |steps| < |round.targets| {
      LaterPartDiffers(start, was, round, j, |steps|);
    }
  }

  lemma LaterPartDiffers(start: Files, was: set<Delivery>, round: Round, i: nat, j: nat)
    requires Owned(start, was) && i < j < |round.targets|
    requires !round.opts.resume || round.targets[i].talker != round.targets[j].talker
    ensures var recorded := PreviousIndex(start);
            PartOf(FileAt(recorded, round, i)) != PartOf(FileAt(recorded, round, j))
  {
    FilesDiffer(start, was, round, i, j);
    var recorded := PreviousIndex(start);
    if PartOf(FileAt(recorded, round, i)) == PartOf(FileAt(recorded, round, j)) {
      PartsDiffer(FileAt(recorded, round, i), FileAt(recorded, round, j));
    }
  }

  lemma SoleStepWrites(start: Files, files: Files, finished: set<Delivery>, fuel: nat, round: Round,
                       steps: seq<Step>, left: Files, r: Result)
    requires |round.fates| == |round.targets| == 1 && RoundDone(start, files, finished, fuel, round, steps, left, r)
    requires r.Completed? && !round.opts.resume && round.fates[0].ending.Completes?
    requires Fold(FileAt(PreviousIndex(start), round, 0)) !in start
    ensures |steps| == 1 && steps[0].action.Wrote? && steps[0].file == FileAt(PreviousIndex(start), round, 0)
  {
    assert AnswersAt(steps[0], PreviousIndex(start), round, 0);
    assert Chained(start, steps[..0], round, steps[0].before);
  }

  lemma LonePart(file: string, foreign: string)
    ensures var start: Files := map[PartOf(file) := Raw(foreign)];
            PreviousIndex(start) == map[] && Owned(start, {})
  {
    var start: Files := map[PartOf(file) := Raw(foreign)];
    PartOfExt(file);
    IndexNames();
    assert INDEX !in start;
    assert OneFormat(PreviousIndex(start), Json);
  }

  /** The shortest such round: a directory with nothing in it but a part file under the name a session will be
      given, and an export of that session with nothing going wrong. */
  method ForeignPartIsLost(t: Target, f: Format, foreign: string, pages: seq<seq<Row>>) returns (dir: ExportDir)
    ensures fresh(dir) && PartOf(PathName(NameFor(t, {}), f)) !in dir.files
  {
    var file := PathName(NameFor(t, {}), f);
    var start: Files := map[PartOf(file) := Raw(foreign)];
    dir := new ExportDir(start);
    LonePart(file, foreign);
    var round := Round([t], Options(f, false, false), [Fate(Completes, pages, "", true)], IndexWritten, 7);
    var r, steps, left := Run(dir, round);
    FileAtIsOwn(map[], round, 0);
    SoleStepWrites(start, dir.files, dir.finished, dir.fuel, round, steps, left, r);
    WrittenPartIsLost(start, {}, dir.files, round, steps, left, r, 0);
  }

  // ---- Artifacts ----

  /** What a round wrote is there when it ends: the file of a written target holds this round's own export of
      it, unless the round came to the same talker again on resume. */
  lemma WrittenFileHolds(start: Files, was: set<Delivery>, files: Files,
                         round: Round, steps: seq<Step>, left: Files, r: Result, j: nat)
    requires |round.fates| == |round.targets| && Traced(start, files, round, steps, left, r)
    requires Owned(start, was) && j < |steps| && steps[j].action.Wrote?
    requires round.opts.resume ==> forall i :: j < i < |steps| ==> steps[i].talker != steps[j].talker
    ensures Fold(steps[j].file) in files && files[Fold(steps[j].file)] == Document(Render(DeliveryAt(round, j)))
  {
    var recorded := PreviousIndex(start);
    var k := Fold(steps[j].file);
    assert AnswersAt(steps[j], recorded, round, j) && steps[j].file == FileAt(recorded, round, j);
    FileAtIsOwn(recorded, round, j);
    forall i | j < i < |steps| ensures !Touches(steps[i], k) {
      assert AnswersAt(steps[i], recorded, round, i) && steps[i].file == FileAt(recorded, round, i);
      FilesDiffer(start, was, round, j, i);
      PartOfExt(steps[i].file);
    }
    UntouchedSince(start, steps, round, left, j, k);
    EndKeeps(start, files, round, steps, left, r, k);
  }

  /** The end of a round keeps every file that is neither a part file nor the index. */
  lemma EndKeeps(start: Files, files: Files, round: Round,
                 steps: seq<Step>, left: Files, r: Result, k: string)
    requires |round.fates| == |round.targets| && Traced(start, files, round, steps, left, r)
    requires ExtOf(k) != "part" && k != INDEX
    ensures SameAt(left, files, k)
  {
    IndexNames();
    if |steps| < |round.targets| {
      PartOfExt(FileAt(PreviousIndex(start), round, |steps|));
    }
  }

  /** A fresh round leaves every file alone that the recorded index gives to none of its targets, but for the
      index and the part files of targets whose export was attempted; and the owner of a refused name, when not
      a target itself, is read back from the new index with the row it had. */
  lemma FreshRoundNeverClobbers(start: Files, was: set<Delivery>, files: Files, finished: set<Delivery>, fuel: nat,
                                round: Round,
                                steps: seq<Step>, left: Files, r: Result)
    requires |round.fates| == |round.targets| && !round.opts.resume && Owned(start, was)
    requires RoundDone(start, files, finished, fuel, round, steps, left, r)
    ensures var recorded := PreviousIndex(start);
      forall k :: k in start && k !in {INDEX, INDEX_PART} && !MayTouchPart(start, round, |steps|, k)
                  && (forall t :: t in Talkers(round.targets) && t in recorded ==> Fold(recorded[t].file) != k)
        ==> k in files && files[k] == start[k]
    ensures r.Completed? ==>
      var recorded, now := PreviousIndex(start), PreviousIndex(files);
      forall s, o :: s in steps && s.action.Refused? && o !in Talkers(round.targets)
                     && o in recorded && Fold(recorded[o].file) == Fold(s.file)
        ==> o in now && now[o] == recorded[o]
  {
    var recorded := PreviousIndex(start);
    forall k | k in start && k !in {INDEX, INDEX_PART} && !MayTouchPart(start, round, |steps|, k)
               && (forall t :: t in Talkers(round.targets) && t in recorded ==> Fold(recorded[t].file) != k)
      ensures k in files && files[k] == start[k]
    {
      OthersFileStays(start, was, files, finished, fuel, round, steps, left, r, k);
    }
    if r.Completed? {
      forall s, o | s in steps && s.action.Refused? && o !in Talkers(round.targets)
                    && o in recorded && Fold(recorded[o].file) == Fold(s.file)
        ensures o in PreviousIndex(files) && PreviousIndex(files)[o] == recorded[o]
      {
        RefusedOwnerStays(start, files, finished, fuel, round, steps, left, r, s, o);
      }
    }
  }

  lemma OthersFileStays(start: Files, was: set<Delivery>, files: Files, finished: set<Delivery>, fuel: nat,
                        round: Round, steps: seq<Step>, left: Files, r: Result, k: string)
    requires |round.fates| == |round.targets| && !round.opts.resume && Owned(start, was)
    requires RoundDone(start, files, finished, fuel, round, steps, left, r)
    requires k in start && k !in {INDEX, INDEX_PART} && !MayTouchPart(start, round, |steps|, k)
    requires var recorded := PreviousIndex(start);
             forall t :: t in Talkers(round.targets) && t in recorded ==> Fold(recorded[t].file) != k
    ensures k in files && files[k] == start[k]
  {
    if ExtOf(k) == "part" {
      OtherPartFilesStay(start, was, files, round, steps, left, r, k);
    } else {
      OthersAreNotRewritten(start, files, finished, PreviousIndex(start), Talkers(round.targets), k);
    }
  }

  lemma OthersAreNotRewritten(start: Files, files: Files, finished: set<Delivery>, recorded: Entries,
                              done: set<string>, k: string)
    requires NotClobbered(start, files, finished, recorded, done)
    requires k in start && k != INDEX && ExtOf(k) != "part"
    requires forall t :: t in done && t in recorded ==> Fold(recorded[t].file) != k
    ensures k in files && files[k] == start[k]
  {
    assert !RewrittenByOwner(files, finished, recorded, done, k);
  }

  lemma RefusedOwnerStays(start: Files, files: Files, finished: set<Delivery>, fuel: nat, round: Round,
                          steps: seq<Step>, left: Files, r: Result, s: Step, o: string)
    requires |round.fates| == |round.targets| && !round.opts.resume && r.Completed?
    requires RoundDone(start, files, finished, fuel, round, steps, left, r)
    requires s in steps && s.action.Refused? && o !in Talkers(round.targets)
    requires o in PreviousIndex(start) && Fold(PreviousIndex(start)[o].file) == Fold(s.file)
    ensures o in PreviousIndex(files) && PreviousIndex(files)[o] == PreviousIndex(start)[o]
  {
    assert Owns(PreviousIndex(start), o, Fold(s.file));
  }

  /** A turn is refused exactly when the round is fresh and found, at its start, its name to be a file that the recorded
      index gives, under folding, to another talker or to nobody. */
  lemma RefusedExactlyWhen(start: Files, was: set<Delivery>, files: Files, finished: set<Delivery>, fuel: nat,
                           round: Round, steps: seq<Step>, left: Files, r: Result, j: nat)
    requires |round.fates| == |round.targets| && j < |steps| && Owned(start, was) && Once(round)
    requires RoundDone(start, files, finished, fuel, round, steps, left, r)
    ensures steps[j].action.Refused? <==>
              var recorded, name := PreviousIndex(start), Fold(steps[j].file);
              && !round.opts.resume && name in start
              && !(steps[j].talker in recorded && Fold(recorded[steps[j].talker].file) == name)
  {
    StepIsForecast(start, was, round, steps, left, j);
  }

  /** A round that did not complete, however it ended, leaves the index file as it was. */
  lemma UnfinishedKeepsIndex(start: Files, was: set<Delivery>, files: Files, finished: set<Delivery>, fuel: nat,
                             round: Round, steps: seq<Step>, left: Files, r: Result)
    requires |round.fates| == |round.targets| && Owned(start, was) && !r.Completed?
    requires RoundDone(start, files, finished, fuel, round, steps, left, r)
    ensures "index.json" in files <==> "index.json" in start
    ensures "index.json" in start ==> files["index.json"] == start["index.json"]
  {
    forall i | 0 <= i < |steps| ensures !Touches(steps[i], INDEX) {
      NoTurnTouchesIndex(steps[i], PreviousIndex(start), round, i);
    }
    UntouchedFromStart(start, steps, round, left, INDEX);
    EndKeepsIndex(files, round, PreviousIndex(start), |steps|, left, r);
  }

  lemma NoTurnTouchesIndex(s: Step, recorded: Entries, round: Round, i: nat)
    requires |round.fates| == |round.targets| && i < |round.targets| && AnswersAt(s, recorded, round, i)
    ensures !Touches(s, INDEX)
  {
    FileAtIsOwn(recorded, round, i);
    PartOfExt(s.file);
    IndexNames();
  }

  lemma EndKeepsIndex(files: Files, round: Round, recorded: Entries, turns: nat, left: Files, r: Result)
    requires Ended(left, files, recorded, round, turns, r) && !r.Completed?
    ensures SameAt(left, files, INDEX)
  {
    IndexNames();
    if turns < |round.targets| {
      PartOfExt(FileAt(recorded, round, turns));
    }
  }
}

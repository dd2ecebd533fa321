/** What a resumed round makes of a round before it. */
module ExportResume {
  import opened Naming
  import opened ExportDocument
  import opened ExportRound
  import opened ExportRun
  import opened ExportEffects

  predicate AllWritten(steps: seq<Step>) { forall j :: 0 <= j < |steps| ==> steps[j].action.Wrote? }

  predicate DistinctTalkers(targets: seq<Target>) {
    forall i, j :: 0 <= i < j < |targets| ==> targets[i].talker != targets[j].talker
  }

  /** A completed round that wrote all its targets, no session twice. */
  ghost predicate WroteAll(start: Files, was: set<Delivery>, mid: Files, finished: set<Delivery>, fuel: nat,
                           round: Round, steps: seq<Step>, left: Files, r: Result)
    requires |round.fates| == |round.targets|
  {
    && Owned(start, was) && RoundDone(start, mid, finished, fuel, round, steps, left, r)
    && r.Completed? && DistinctTalkers(round.targets) && AllWritten(steps)
  }

  /** The row target `j` of such a round leaves in the index. */
  predicate IsRow(row: IndexRow, recorded: Entries, round: Round, j: nat)
    requires |round.fates| == |round.targets| && j < |round.targets|
  {
    && row.talker == round.targets[j].talker && row.displayName == round.targets[j].displayName
    && row.file == FileAt(recorded, round, j) && row.withMedia == round.opts.withMedia
    && row.messages == |RowsOf(Render(DeliveryAt(round, j)))|
  }

  predicate AreRows(rows: seq<IndexRow>, recorded: Entries, round: Round)
    requires |round.fates| == |round.targets| >= |rows|
  {
    forall j: nat :: j < |rows| ==> IsRow(rows[j], recorded, round, j)
  }

  predicate WroteAs(s: Step, recorded: Entries, round: Round, j: nat)
    requires |round.fates| == |round.targets| && j < |round.targets|
  {
    s.action.Wrote? && s.talker == round.targets[j].talker && s.file == FileAt(recorded, round, j)
    && s.action.messages == |RowsOf(Render(DeliveryAt(round, j)))|
  }

  lemma WroteEach(recorded: Entries, round: Round, steps: seq<Step>, j: nat)
    requires |round.fates| == |round.targets| >= |steps| && InStep(steps, recorded, round, |steps|) && AllWritten(steps)
    requires j < |steps|
    ensures WroteAs(steps[j], recorded, round, j)
  {
    assert AnswersAt(steps[j], recorded, round, j);
  }

  lemma RowAdded(recorded: Entries, round: Round, rows: seq<IndexRow>, s: Step, j: nat)
    requires |round.fates| == |round.targets| && j < |round.targets| && WroteAs(s, recorded, round, j)
    ensures var added := Added(recorded, rows, round.targets[j], round.opts, s);
            |added| == 1 && IsRow(added[0], recorded, round, j)
  {
  }

  lemma RowsJoin(recorded: Entries, round: Round, rows: seq<IndexRow>, row: IndexRow)
    requires |round.fates| == |round.targets| > |rows| && AreRows(rows, recorded, round)
    requires IsRow(row, recorded, round, |rows|)
    ensures AreRows(rows + [row], recorded, round)
  {
    forall j: nat | j < |rows| + 1 ensures IsRow((rows + [row])[j], recorded, round, j) {
      if j < |rows| {
        assert (rows + [row])[j] == rows[j] && IsRow(rows[j], recorded, round, j);
      }
    }
  }

  lemma {:induction false} RowsWritten(recorded: Entries, round: Round, steps: seq<Step>)
    requires |round.fates| == |round.targets| >= |steps|
    requires forall j: nat :: j < |steps| ==> WroteAs(steps[j], recorded, round, j)
    ensures var rows := IndexRows(recorded, round.targets, round.opts, steps);
            |rows| == |steps| && AreRows(rows, recorded, round)
    decreases |steps|
  {
    if steps != [] {
      var n := |steps| - 1;
      var rows := IndexRows(recorded, round.targets, round.opts, steps[..n]);
      WroteBefore(recorded, round, steps, n);
      RowsWritten(recorded, round, steps[..n]);
      RowAdded(recorded, round, rows, steps[n], n);
      var added := Added(recorded, rows, round.targets[n], round.opts, steps[n]);
      assert added == [added[0]];
      RowsJoin(recorded, round, rows, added[0]);
    }
  }

  lemma WroteBefore(recorded: Entries, round: Round, steps: seq<Step>, n: nat)
    requires |round.fates| == |round.targets| >= |steps| > n
    requires forall j: nat :: j < |steps| ==> WroteAs(steps[j], recorded, round, j)
    ensures forall j: nat :: j < n ==> WroteAs(steps[..n][j], recorded, round, j)
  {
    forall j: nat | j < n ensures WroteAs(steps[..n][j], recorded, round, j) {
      assert WroteAs(steps[j], recorded, round, j);
    }
  }

  lemma {:induction false} ReadBackEach(rows: seq<IndexRow>, j: nat)
    requires j < |rows| && forall i, k :: 0 <= i < k < |rows| ==> rows[i].talker != rows[k].talker
    ensures rows[j].talker in ReadBack(rows) && ReadBack(rows)[rows[j].talker] == rows[j]
  {
    var n := |rows| - 1;
    if j < n {
      ReadBackEach(rows[..n], j);
    }
  }

  /** The index of such a round holds one row for each target. */
  lemma RecordsItsRows(start: Files, was: set<Delivery>, mid: Files, finished: set<Delivery>, fuel: nat,
                       round: Round, steps: seq<Step>, left: Files, r: Result)
    requires |round.fates| == |round.targets|
    requires WroteAll(start, was, mid, finished, fuel, round, steps, left, r)
    ensures var rows := IndexRows(PreviousIndex(start), round.targets, round.opts, steps);
      && PreviousIndex(mid) == ReadBack(rows) && |rows| == |round.targets|
      && AreRows(rows, PreviousIndex(start), round)
  {
    ReadsItsIndex(start, mid, finished, fuel, round, steps, left, r);
    forall j: nat | j < |steps| ensures WroteAs(steps[j], PreviousIndex(start), round, j) {
      WroteEach(PreviousIndex(start), round, steps, j);
    }
    RowsWritten(PreviousIndex(start), round, steps);
  }

  lemma ReadsItsIndex(start: Files, mid: Files, finished: set<Delivery>, fuel: nat,
                      round: Round, steps: seq<Step>, left: Files, r: Result)
    requires |round.fates| == |round.targets| && r.Completed?
    requires RoundDone(start, mid, finished, fuel, round, steps, left, r)
    ensures |steps| == |round.targets|
    ensures PreviousIndex(mid) == ReadBack(IndexRows(PreviousIndex(start), round.targets, round.opts, steps))
  {
  }

  /** After such a round every target is recorded with exactly its row: its name, its number of messages, and whether
      media was kept. */
  lemma WrittenIsRecorded(start: Files, was: set<Delivery>, mid: Files, finished: set<Delivery>, fuel: nat,
                          round: Round, steps: seq<Step>, left: Files, r: Result, j: nat)
    requires |round.fates| == |round.targets| && j < |round.targets|
    requires WroteAll(start, was, mid, finished, fuel, round, steps, left, r)
    ensures round.targets[j].talker in PreviousIndex(mid)
    ensures PreviousIndex(mid)[round.targets[j].talker]
         == IndexRow(round.targets[j].talker, FileAt(PreviousIndex(start), round, j),
                     |RowsOf(Render(DeliveryAt(round, j)))|, round.targets[j].displayName, round.opts.withMedia)
  {
    var rows := IndexRows(PreviousIndex(start), round.targets, round.opts, steps);
    RecordsItsRows(start, was, mid, finished, fuel, round, steps, left, r);
    DistinctRows(PreviousIndex(start), round, rows, j);
  }

  lemma DistinctRows(recorded: Entries, round: Round, rows: seq<IndexRow>, j: nat)
    requires |round.fates| == |round.targets| == |rows| && j < |rows| && DistinctTalkers(round.targets)
    requires AreRows(rows, recorded, round)
    ensures IsRow(rows[j], recorded, round, j)
    ensures round.targets[j].talker in ReadBack(rows) && ReadBack(rows)[round.targets[j].talker] == rows[j]
  {
    forall i: nat, k: nat | i < k < |rows| ensures rows[i].talker != rows[k].talker {
      assert IsRow(rows[i], recorded, round, i) && IsRow(rows[k], recorded, round, k);
    }
    ReadBackEach(rows, j);
    assert IsRow(rows[j], recorded, round, j);
  }

  /** And its artifact is there, complete, with no part file beside it. */
  lemma WrittenIsThere(start: Files, was: set<Delivery>, mid: Files, finished: set<Delivery>, fuel: nat,
                       round: Round, steps: seq<Step>, left: Files, r: Result, j: nat)
    requires |round.fates| == |round.targets| && j < |round.targets|
    requires WroteAll(start, was, mid, finished, fuel, round, steps, left, r)
    ensures var file := FileAt(PreviousIndex(start), round, j);
      && Fold(file) in mid && mid[Fold(file)] == Document(Render(DeliveryAt(round, j))) && PartOf(file) !in mid
  {
    assert AnswersAt(steps[j], PreviousIndex(start), round, j);
    assert steps[j].file == FileAt(PreviousIndex(start), round, j) && steps[j].action.Wrote?;
    forall i | j < i < |steps| ensures steps[i].talker != steps[j].talker {
      assert AnswersAt(steps[i], PreviousIndex(start), round, i);
    }
    WrittenFileHolds(start, was, mid, round, steps, left, r, j);
    WrittenPartIsLost(start, was, mid, round, steps, left, r, j);
  }

  /** A resumed round over the directory of a round before it, for the same sessions in the same format. */
  predicate Resumes(first: Round, second: Round) {
    second.opts.resume && second.targets == first.targets && second.opts.format == first.opts.format
  }

  /** Target `j` gets the same name again. */
  lemma SameNameAgain(start: Files, was: set<Delivery>, mid: Files, finished: set<Delivery>, fuel: nat,
                      first: Round, steps: seq<Step>, left: Files, r: Result, second: Round, j: nat)
    requires |first.fates| == |first.targets| && |second.fates| == |second.targets| && j < |first.targets|
    requires WroteAll(start, was, mid, finished, fuel, first, steps, left, r) && Resumes(first, second)
    ensures StemAt(PreviousIndex(mid), second, j) == StemAt(PreviousIndex(start), first, j)
    ensures FileAt(PreviousIndex(mid), second, j) == FileAt(PreviousIndex(start), first, j)
  {
    var recorded := PreviousIndex(start);
    WrittenIsRecorded(start, was, mid, finished, fuel, first, steps, left, r, j);
    StemIsNew(recorded, first.targets[j], TakenBefore(recorded, first.targets, first.opts, j), first.opts);
    KeepsItsStem(PreviousIndex(mid), second.targets[j],
                 TakenBefore(PreviousIndex(mid), second.targets, second.opts, j), second.opts,
                 StemAt(recorded, first, j));
  }

  lemma KeepsItsStem(recorded: Entries, t: Target, taken: set<string>, opts: Options, stem: string)
    requires opts.resume && t.talker in recorded && Fold(stem) != "index"
    requires recorded[t.talker].file == PathName(stem, opts.format)
    ensures StemFor(recorded, t, taken, opts) == stem
  {
    NameParts(stem, opts.format);
  }

  /** With its artifact complete and no part file beside it, a recorded talker is reused unless media is missing. */
  lemma OnlyMediaMatters(files: Files, recorded: Entries, talker: string, stem: string, opts: Options, d: Delivery)
    requires talker in recorded && recorded[talker].file == PathName(stem, opts.format)
    requires Path(stem, opts.format) in files && files[Path(stem, opts.format)] == Document(Render(d))
    requires d.format == opts.format && Part(stem, opts.format) !in files
    ensures CanReuse(files, recorded, talker, stem, opts) <==> (opts.withMedia ==> recorded[talker].withMedia)
  {
  }

  lemma MediaDecides(start: Files, was: set<Delivery>, mid: Files, finished: set<Delivery>, fuel: nat,
                     first: Round, steps: seq<Step>, left: Files, r: Result, second: Round, j: nat)
    requires |first.fates| == |first.targets| && |second.fates| == |second.targets| && j < |first.targets|
    requires WroteAll(start, was, mid, finished, fuel, first, steps, left, r) && Resumes(first, second)
    ensures ActionAt(mid, second, j).Reused? <==> (second.opts.withMedia ==> first.opts.withMedia)
  {
    WrittenIsRecorded(start, was, mid, finished, fuel, first, steps, left, r, j);
    WrittenIsThere(start, was, mid, finished, fuel, first, steps, left, r, j);
    SameNameAgain(start, was, mid, finished, fuel, first, steps, left, r, second, j);
    OnlyMediaMatters(mid, PreviousIndex(mid), second.targets[j].talker, StemAt(PreviousIndex(mid), second, j),
                     second.opts, DeliveryAt(first, j));
  }

  /** Nothing can cut such a round short before its index: it attempts no export. */
  lemma ReachesItsIndex(mid: Files, was: set<Delivery>, files: Files, round: Round, steps: seq<Step>, left: Files,
                        r: Result)
    requires |round.fates| == |round.targets| && Traced(mid, files, round, steps, left, r) && Owned(mid, was)
    requires DistinctTalkers(round.targets)
    requires forall j :: 0 <= j < |round.targets| ==> ActionAt(mid, round, j).Reused?
    ensures |steps| == |round.targets|
  {
    if |steps| < |round.targets| {
      assert ActionAt(mid, round, |steps|).Reused?;
      AttemptIsForecast(mid, was, round, steps, left);
    }
  }

  lemma {:induction false} AllReusedChangesNothing(start: Files, steps: seq<Step>, round: Round, files: Files)
    requires |round.fates| == |round.targets| >= |steps| && Chained(start, steps, round, files)
    requires forall j :: 0 <= j < |steps| ==> steps[j].action.Reused?
    ensures files == start
    decreases |steps|
  {
    if steps != [] {
      AllReusedChangesNothing(start, steps[..|steps| - 1], round, steps[|steps| - 1].before);
    }
  }

  /** After a completed round that wrote all its sessions, a resumed round for the same sessions, in the same format and
      asking for no media the first one did not keep, reuses every one of them, whatever its environment would have done
      to an export; it changes no file but, at its end, the index. */
  lemma ResumeReusesAll(start: Files, was: set<Delivery>, mid: Files, finished: set<Delivery>, fuel: nat,
                        first: Round, steps: seq<Step>, left: Files, r: Result,
                        files: Files, finished': set<Delivery>, fuel': nat,
                        second: Round, steps': seq<Step>, left': Files, r': Result)
    requires |first.fates| == |first.targets| && |second.fates| == |second.targets|
    requires WroteAll(start, was, mid, finished, fuel, first, steps, left, r) && Resumes(first, second)
    requires RoundDone(mid, files, finished', fuel', second, steps', left', r')
    requires second.opts.withMedia ==> first.opts.withMedia
    ensures |steps'| == |first.targets|
    ensures forall j :: 0 <= j < |steps'| ==> steps'[j].action.Reused? && steps'[j].talker == first.targets[j].talker
    ensures forall k :: k != "index.json" && k != "index.json.part" ==>
              (k in mid <==> k in files) && (k in mid ==> files[k] == mid[k])
  {
    forall j | 0 <= j < |second.targets| ensures ActionAt(mid, second, j).Reused? {
      MediaDecides(start, was, mid, finished, fuel, first, steps, left, r, second, j);
    }
    ReachesItsIndex(mid, finished, files, second, steps', left', r');
    forall j | 0 <= j < |steps'| ensures steps'[j].action.Reused? && steps'[j].talker == first.targets[j].talker {
      StepIsForecast(mid, finished, second, steps', left', j);
    }
    AllReusedChangesNothing(mid, steps', second, left');
  }

  /** With media asked for that the first round did not keep, it reuses none. */
  lemma MediaReusesNone(start: Files, was: set<Delivery>, mid: Files, finished: set<Delivery>, fuel: nat,
                        first: Round, steps: seq<Step>, left: Files, r: Result,
                        files: Files, finished': set<Delivery>, fuel': nat,
                        second: Round, steps': seq<Step>, left': Files, r': Result)
    requires |first.fates| == |first.targets| && |second.fates| == |second.targets|
    requires WroteAll(start, was, mid, finished, fuel, first, steps, left, r) && Resumes(first, second)
    requires RoundDone(mid, files, finished', fuel', second, steps', left', r')
    requires second.opts.withMedia && !first.opts.withMedia
    ensures forall j :: 0 <= j < |steps'| ==> !steps'[j].action.Reused?
  {
    forall j | 0 <= j < |steps'| ensures !steps'[j].action.Reused? {
      MediaDecides(start, was, mid, finished, fuel, first, steps, left, r, second, j);
      StepIsForecast(mid, finished, second, steps', left', j);
    }
  }

  lemma {:induction false} RowsReused(recorded: Entries, targets: seq<Target>, opts: Options, steps: seq<Step>)
    requires |steps| <= |targets|
    requires forall j :: 0 <= j < |steps| ==> steps[j].action.Reused? && steps[j].talker in recorded
    ensures var rows := IndexRows(recorded, targets, opts, steps);
            |rows| == |steps| && forall j :: 0 <= j < |rows| ==> rows[j] == recorded[steps[j].talker]
    decreases |steps|
  {
    if steps != [] {
      RowsReused(recorded, targets, opts, steps[..|steps| - 1]);
    }
  }

  lemma SameRows(recorded: Entries, targets: seq<Target>, opts: Options, steps: seq<Step>, rows: seq<IndexRow>)
    requires |steps| == |rows| <= |targets|
    requires forall j :: 0 <= j < |steps| ==>
               steps[j].action.Reused? && steps[j].talker in recorded && recorded[steps[j].talker] == rows[j]
    ensures IndexRows(recorded, targets, opts, steps) == rows
  {
    RowsReused(recorded, targets, opts, steps);
  }

  lemma {:induction false} KeepsItsRows(start: Files, was: set<Delivery>, mid: Files, finished: set<Delivery>,
                                        fuel: nat, first: Round, steps: seq<Step>, left: Files, r: Result,
                                        second: Round, steps': seq<Step>)
    requires |first.fates| == |first.targets| == |steps'| && second.targets == first.targets
    requires WroteAll(start, was, mid, finished, fuel, first, steps, left, r)
    requires forall j :: 0 <= j < |steps'| ==>
               steps'[j].action.Reused? && steps'[j].talker == first.targets[j].talker
    ensures ReadBack(IndexRows(PreviousIndex(mid), second.targets, second.opts, steps')) == PreviousIndex(mid)
  {
    var rows := IndexRows(PreviousIndex(start), first.targets, first.opts, steps);
    RecordsItsRows(start, was, mid, finished, fuel, first, steps, left, r);
    forall j | 0 <= j < |steps'|
      ensures steps'[j].talker in PreviousIndex(mid) && PreviousIndex(mid)[steps'[j].talker] == rows[j]
    {
      DistinctRows(PreviousIndex(start), first, rows, j);
    }
    SameRows(PreviousIndex(mid), second.targets, second.opts, steps', rows);
  }

  /** And when it completes, the index reads back the very same rows. */
  lemma ResumeKeepsTheIndex(start: Files, was: set<Delivery>, mid: Files, finished: set<Delivery>, fuel: nat,
                            first: Round, steps: seq<Step>, left: Files, r: Result,
                            files: Files, finished': set<Delivery>, fuel': nat,
                            second: Round, steps': seq<Step>, left': Files, r': Result)
    requires |first.fates| == |first.targets| && |second.fates| == |second.targets|
    requires WroteAll(start, was, mid, finished, fuel, first, steps, left, r) && Resumes(first, second)
    requires RoundDone(mid, files, finished', fuel', second, steps', left', r')
    requires second.opts.withMedia ==> first.opts.withMedia
    ensures PreviousIndex(files) == PreviousIndex(mid)
  {
    if r'.Completed? {
      ResumeReusesAll(start, was, mid, finished, fuel, first, steps, left, r,
                      files, finished', fuel', second, steps', left', r');
      KeepsItsRows(start, was, mid, finished, fuel, first, steps, left, r, second, steps');
    }
  }

  /** Does a file pass for a complete artifact: anything ending the way the format ends, or a document of it? */
  predicate LooksComplete(c: Content, json: bool) {
    match c
    case Raw(text) => text != "" && text[|text| - 1] == if json then '}' else '\n'
    case Document(doc) => doc.Envelope? <==> json
    case IndexDoc(_) => json
  }

  /** In any round a turn reuses an artifact exactly when the round resumes and finds, at its start, the talker recorded
      under the name of this turn, that file looking complete, no part file beside it, and media kept if it is asked
      for. */
  lemma ReusedExactlyWhen(start: Files, was: set<Delivery>, files: Files, finished: set<Delivery>, fuel: nat,
                          round: Round, steps: seq<Step>, left: Files, r: Result, j: nat)
    requires |round.fates| == |round.targets| && j < |steps| && Owned(start, was) && Once(round)
    requires RoundDone(start, files, finished, fuel, round, steps, left, r)
    ensures j < |round.targets| && steps[j].talker == round.targets[j].talker
    ensures steps[j].action.Reused? <==>
              var recorded, name := PreviousIndex(start), steps[j].file;
              && round.opts.resume && steps[j].talker in recorded && recorded[steps[j].talker].file == name
              && (round.opts.withMedia ==> recorded[steps[j].talker].withMedia)
              && Fold(name) in start && LooksComplete(start[Fold(name)], round.opts.format.Json?)
              && Fold(name + ".part") !in start
  {
    StepIsForecast(start, was, round, steps, left, j);
    assert AnswersAt(steps[j], PreviousIndex(start), round, j);
    ReuseSpelled(start, PreviousIndex(start), steps[j].talker, StemAt(PreviousIndex(start), round, j), round.opts);
  }

  lemma ReuseSpelled(files: Files, recorded: Entries, talker: string, stem: string, opts: Options)
    ensures var name := PathName(stem, opts.format);
            CanReuse(files, recorded, talker, stem, opts) <==>
              && talker in recorded && recorded[talker].file == name
              && (opts.withMedia ==> recorded[talker].withMedia)
              && Fold(name) in files && LooksComplete(files[Fold(name)], opts.format.Json?)
              && Fold(name + ".part") !in files
  {
    assert "}"[0] == '}' && "\n"[0] == '\n';
  }
}

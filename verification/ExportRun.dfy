/** `run`: targets in order, then the index; and any succession of rounds over one directory. */
module ExportRun {
  import opened Naming
  import opened ExportDocument
  import opened ExportRound

  datatype Round = Round(targets: seq<Target>, opts: Options, fates: seq<Fate>, index: IndexFate, fuel: nat)

  /** The folded names taken before target `n`: on resume all recorded ones, then one per earlier target. */
  function TakenBefore(recorded: Entries, targets: seq<Target>, opts: Options, n: nat): set<string>
    requires n <= |targets|
  {
    if n == 0 then (if opts.resume then PrevStems(recorded) else {})
    else TakenWith(recorded, targets[n - 1], TakenBefore(recorded, targets, opts, n - 1), opts)
  }

  function StemAt(recorded: Entries, round: Round, j: nat): string
    requires j < |round.targets|
  {
    StemFor(recorded, round.targets[j], TakenBefore(recorded, round.targets, round.opts, j), round.opts)
  }

  /** The file name of target `j`. */
  function FileAt(recorded: Entries, round: Round, j: nat): string
    requires j < |round.targets|
  {
    PathName(StemAt(recorded, round, j), round.opts.format)
  }

  function DeliveryAt(round: Round, j: nat): Delivery
    requires |round.fates| == |round.targets| && j < |round.targets|
  {
    Delivery(round.targets[j], round.opts.format, round.fates[j].pages)
  }

  ghost predicate AnswersAt(s: Step, recorded: Entries, round: Round, j: nat)
    requires |round.fates| == |round.targets| && j < |round.targets|
  {
    Answers(s, recorded, round.targets[j], TakenBefore(recorded, round.targets, round.opts, j), round.fates[j],
            round.opts)
  }

  /** One step per target so far, in order, each the answer its turn's directory and its fate decide. */
  ghost predicate InStep(steps: seq<Step>, recorded: Entries, round: Round, n: nat)
    requires |round.fates| == |round.targets|
  {
    |steps| == n <= |round.targets| && forall j :: 0 <= j < n ==> AnswersAt(steps[j], recorded, round, j)
  }

  /** Each turn found the directory as the one before left it, from `start` to `files`. */
  ghost predicate Chained(start: Files, steps: seq<Step>, round: Round, files: Files)
    requires |round.fates| == |round.targets| >= |steps|
    decreases |steps|
  {
    if steps == [] then files == start
    else
      var n := |steps| - 1;
      Turned(steps[n], DeliveryAt(round, n), files) && Chained(start, steps[..n], round, steps[n].before)
  }

  /** Turn `i` was cut short: its export had begun, and it may have touched its part file. */
  ghost predicate CutShort(left: Files, files: Files, recorded: Entries, round: Round, i: nat) {
    i < |round.targets|
    && Attempts(left, recorded, round.targets[i].talker, StemAt(recorded, round, i), round.opts)
    && SameExcept(left, files, PartOf(FileAt(recorded, round, i)), PartOf(FileAt(recorded, round, i)))
  }

  /** From the directory the last whole turn left to the one the round left: a turn that was cut short may have
      touched its part file, the index its own two names. */
  ghost predicate Ended(left: Files, files: Files, recorded: Entries, round: Round, turns: nat, r: Result) {
    if turns < |round.targets| then !r.Completed? && CutShort(left, files, recorded, round, turns)
    else if r.Completed? then SameExcept(left, files, INDEX, INDEX_PART)
    else SameExcept(left, files, INDEX_PART, INDEX_PART)
  }

  /** The turns of a round and what they did to the directory, one by one. */
  ghost predicate Traced(start: Files, files: Files, round: Round, steps: seq<Step>, left: Files, r: Result)
    requires |round.fates| == |round.targets|
  {
    && InStep(steps, PreviousIndex(start), round, |steps|) && Chained(start, steps, round, left)
    && Ended(left, files, PreviousIndex(start), round, |steps|, r)
  }

  /** How a round may end, and what holds then. `left`: the directory after the last whole turn. */
  ghost predicate RoundDone(start: Files, files: Files, finished: set<Delivery>, fuel: nat, round: Round,
                            steps: seq<Step>, left: Files, r: Result)
    requires |round.fates| == |round.targets|
  {
    var recorded := PreviousIndex(start);
    && Owned(files, finished)
    && Traced(start, files, round, steps, left, r)
    && (!round.opts.resume ==> NotClobbered(start, files, finished, recorded, Talkers(round.targets)))
    && (forall s :: s in steps ==>
          if round.opts.resume then ResumeStep(recorded, s) else FreshStep(start, recorded, s))
    && (!r.Completed? ==> PreviousIndex(files) == recorded)
    && (r.Interrupted? ==> fuel == 0 && round.fuel < 4 * |round.targets| + 3)
    && (r.Failed? ==> !round.index.IndexWritten? || exists f :: f in round.fates && Leaks(f))
    && (r.Completed? ==>
          var now := PreviousIndex(files);
          && |steps| == |round.targets| && round.index.IndexWritten?
          && INDEX in files && files[INDEX] == IndexDoc(IndexRows(recorded, round.targets, round.opts, steps))
          && StepsOk(start, recorded, now, steps, r.outcome.skipped, round.opts)
          && Tallied(r.outcome, steps)
          && (!round.opts.resume ==> CarriedAsRecorded(recorded, now, Talkers(round.targets))))
  }

  datatype Verdict = Went(action: Action) | Abort | Stop

  /** One turn of the loop. */
  method DoTarget(dir: ExportDir, ghost start: Files, recorded: Entries, rows: seq<IndexRow>, taken: set<string>,
                  ghost done: set<string>, opts: Options, target: Target, fate: Fate)
    returns (v: Verdict, rows': seq<IndexRow>, taken': set<string>, file: string)
    requires RoundInv(start, dir.files, dir.finished, recorded, ReadBack(rows), taken, done, opts)
    modifies dir
    ensures RoundInv(start, dir.files, dir.finished, recorded, ReadBack(rows'), taken', done + {target.talker}, opts)
    ensures ReadBack(rows).Keys <= ReadBack(rows').Keys
    ensures v.Went? ==>
              TurnOk(start, dir.files, recorded, rows, rows', taken, opts, target, fate,
                     Step(target.talker, file, v.action, old(dir.files)))
    ensures file == PathName(StemFor(recorded, target, taken, opts), opts.format)
    ensures taken' == TakenWith(recorded, target, taken, opts)
    ensures !v.Went? ==> rows' == rows && SameExcept(old(dir.files), dir.files, PartOf(file), PartOf(file))
    ensures !v.Went? ==>
              Attempts(old(dir.files), recorded, target.talker, StemFor(recorded, target, taken, opts), opts)
    ensures v.Stop? ==> dir.fuel == 0 && old(dir.fuel) < 4
    ensures dir.fuel + 4 >= old(dir.fuel)
    ensures v.Abort? ==> Leaks(fate)
  {
    var stem;
    stem, taken' := ExportDir.PickStem(recorded, target, taken, opts);
    file, rows' := PathName(stem, opts.format), rows;
    var path := Path(stem, opts.format);
    NameParts(stem, opts.format);
    FreshPathIsOld(start, dir.files, taken, opts, recorded, target.talker, stem, ReadBack(rows), dir.finished, done);
    if !opts.resume && path in dir.files && !Owns(recorded, target.talker, path) {
      TurnOver(start, dir.files, dir.finished, recorded, ReadBack(rows), taken, taken', done, opts, target.talker);
      rows' := CarryOwner(dir, start, recorded, rows, taken, taken', done + {target.talker}, opts, target, stem);
      RefusalIsRight(start, dir.files, recorded, rows, rows', taken, opts, target, fate, stem);
      return Went(Refused), rows', taken', file;
    }
    if opts.resume {
      var ok := dir.Reusable(recorded, target.talker, stem, opts);
      if ok {
        TurnOver(start, dir.files, dir.finished, recorded, ReadBack(rows), taken, taken', done, opts, target.talker);
        ReuseKeepsRound(start, dir.files, dir.finished, recorded, rows, taken, taken', done + {target.talker}, opts,
                        target.talker, stem);
        rows' := rows + [recorded[target.talker]];
        ReuseIsRight(start, dir.files, recorded, rows, rows', taken, opts, target, fate, stem);
        return Went(Reused), rows', taken', file;
      }
    }
    ghost var before := dir.files;
    v, rows' := DoExport(dir, start, recorded, rows, taken, taken', done, opts, target, fate, stem);
    if v.Went? {
      ExportIsRight(start, dir.files, recorded, rows, rows', taken, opts, target, fate, stem,
                    Step(target.talker, file, v.action, before));
    }
  }

  /** A finished turn: the step is the one its directory and its fate decide, and so are its effects. */
  ghost predicate TurnOk(start: Files, files: Files, recorded: Entries, rows: seq<IndexRow>, rows': seq<IndexRow>,
                         taken: set<string>, opts: Options, target: Target, fate: Fate, s: Step)
  {
    && (if opts.resume then ResumeStep(recorded, s) else FreshStep(start, recorded, s))
    && (s.action.Wrote? || s.action.Reused? ==> s.talker in ReadBack(rows'))
    && (s.action.Refused? ==> forall o :: Owns(recorded, o, Fold(s.file)) ==> o in ReadBack(rows'))
    && Answers(s, recorded, target, taken, fate, opts)
    && Turned(s, Delivery(target, opts.format, fate.pages), files)
    && rows' == rows + Added(recorded, rows, target, opts, s)
  }

  lemma RefusalIsRight(start: Files, files: Files, recorded: Entries, rows: seq<IndexRow>, rows': seq<IndexRow>,
                       taken: set<string>, opts: Options, target: Target, fate: Fate, stem: string)
    requires stem == StemFor(recorded, target, taken, opts) && Path(stem, opts.format) in start
    requires Refuses(files, recorded, target.talker, PathName(stem, opts.format), opts)
    requires forall o :: Owns(recorded, o, Path(stem, opts.format)) ==> o in ReadBack(rows')
    requires rows' == rows + Added(recorded, rows, target, opts,
                                   Step(target.talker, PathName(stem, opts.format), Refused, files))
    ensures TurnOk(start, files, recorded, rows, rows', taken, opts, target, fate,
                   Step(target.talker, PathName(stem, opts.format), Refused, files))
  {
  }

  lemma ReuseIsRight(start: Files, files: Files, recorded: Entries, rows: seq<IndexRow>, rows': seq<IndexRow>,
                     taken: set<string>, opts: Options, target: Target, fate: Fate, stem: string)
    requires stem == StemFor(recorded, target, taken, opts) && target.talker in ReadBack(rows')
    requires opts.resume && CanReuse(files, recorded, target.talker, stem, opts)
    requires rows' == rows + [recorded[target.talker]]
    ensures TurnOk(start, files, recorded, rows, rows', taken, opts, target, fate,
                   Step(target.talker, PathName(stem, opts.format), Reused, files))
  {
    NameParts(stem, opts.format);
  }

  lemma ExportIsRight(start: Files, files: Files, recorded: Entries, rows: seq<IndexRow>, rows': seq<IndexRow>,
                      taken: set<string>, opts: Options, target: Target, fate: Fate, stem: string, s: Step)
    requires stem == StemFor(recorded, target, taken, opts)
    requires s.talker == target.talker && s.file == PathName(stem, opts.format)
    requires Attempts(s.before, recorded, target.talker, stem, opts)
    requires !opts.resume ==> (Path(stem, opts.format) in s.before <==> Path(stem, opts.format) in start)
    requires Exported(recorded, rows, rows', opts, target, fate, s, files)
    ensures TurnOk(start, files, recorded, rows, rows', taken, opts, target, fate, s)
  {
    NameParts(stem, opts.format);
  }

  /** An export went one way or the other. */
  ghost predicate Exported(recorded: Entries, rows: seq<IndexRow>, rows': seq<IndexRow>, opts: Options,
                           target: Target, fate: Fate, s: Step, files: Files)
  {
    var d := Delivery(target, opts.format, fate.pages);
    && (s.action == GivenUp || s.action == Wrote(|RowsOf(Render(d))|))
    && (s.action.Wrote? ==> target.talker in ReadBack(rows') && fate.ending.Completes?)
    && (s.action.GivenUp? ==> !fate.ending.Completes?)
    && Turned(s, d, files) && rows' == rows + Added(recorded, rows, target, opts, s)
  }

  /** A turn that left the directory alone. */
  lemma TurnOver(start: Files, files: Files, finished: set<Delivery>, recorded: Entries, acc: Entries,
                 taken: set<string>, taken': set<string>, done: set<string>, opts: Options, talker: string)
    requires RoundInv(start, files, finished, recorded, acc, taken, done, opts) && taken <= taken'
    ensures RoundInv(start, files, finished, recorded, acc, taken', done + {talker}, opts)
  {
    IndexNames();
    PartKeepsRound(start, files, files, finished, recorded, acc, taken, taken', done, done + {talker}, opts,
                   INDEX_PART);
  }

  lemma ReuseKeepsRound(start: Files, files: Files, finished: set<Delivery>, recorded: Entries, rows: seq<IndexRow>,
                        taken: set<string>, taken': set<string>, done: set<string>, opts: Options,
                        talker: string, stem: string)
    requires RoundInv(start, files, finished, recorded, ReadBack(rows), taken', done, opts)
    requires RowsNamed(recorded, ReadBack(rows), taken, opts) && Picked(recorded, taken, talker, stem, opts)
    requires opts.resume && Fold(stem) in taken' && CanReuse(files, recorded, talker, stem, opts)
    ensures RoundInv(start, files, finished, recorded, ReadBack(rows + [recorded[talker]]), taken', done, opts)
    ensures ReadBack(rows + [recorded[talker]]).Keys == ReadBack(rows).Keys + {talker}
  {
    ReusedRowJoins(start, files, finished, recorded, ReadBack(rows), taken, taken', done, opts, talker, stem);
    ReadBackAppend(rows, recorded[talker]);
  }

  /** The target is exported: its row joins only if the export finished. */
  method DoExport(dir: ExportDir, ghost start: Files, recorded: Entries, rows: seq<IndexRow>, ghost taken: set<string>,
                  ghost taken': set<string>, ghost done: set<string>, opts: Options, target: Target, fate: Fate,
                  stem: string)
    returns (v: Verdict, rows': seq<IndexRow>)
    requires RoundInv(start, dir.files, dir.finished, recorded, ReadBack(rows), taken, done, opts)
    requires Picked(recorded, taken, target.talker, stem, opts) && taken <= taken' && Fold(stem) in taken'
    requires opts.resume || Path(stem, opts.format) !in dir.files
             || Owns(recorded, target.talker, Path(stem, opts.format))
    modifies dir
    ensures RoundInv(start, dir.files, dir.finished, recorded, ReadBack(rows'), taken', done + {target.talker}, opts)
    ensures ReadBack(rows).Keys <= ReadBack(rows').Keys
    ensures v.Went? ==>
              Exported(recorded, rows, rows', opts, target, fate,
                       Step(target.talker, PathName(stem, opts.format), v.action, old(dir.files)), dir.files)
    ensures !v.Went? ==>
              rows' == rows && SameExcept(old(dir.files), dir.files, Part(stem, opts.format), Part(stem, opts.format))
    ensures v.Stop? ==> dir.fuel == 0 && old(dir.fuel) < 4
    ensures dir.fuel + 4 >= old(dir.fuel)
    ensures v.Abort? ==> Leaks(fate)
  {
    var path, part := Path(stem, opts.format), Part(stem, opts.format);
    PathIsNotPart(stem, opts.format);
    rows' := rows;
    ghost var files0, finished0 := dir.files, dir.finished;
    var s := dir.ExportSession(target, path, part, opts.format, fate);
    if s.Delivered? {
      var row := IndexRow(target.talker, PathName(stem, opts.format), s.messages, target.displayName, opts.withMedia);
      DeliveryJoins(start, files0, dir.files, finished0, recorded, rows, taken, taken', done, opts,
                    Delivery(target, opts.format, fate.pages), stem, row);
      DeliveryIsExported(recorded, rows, opts, target, fate, stem, s.messages, files0, dir.files);
      rows' := rows + [row];
      return Went(Wrote(s.messages)), rows';
    }
    PartKeepsRound(start, files0, dir.files, dir.finished, recorded, ReadBack(rows), taken, taken',
                   done, done + {target.talker}, opts, part);
    v := match s case Skipped => Went(GivenUp) case Aborted => Abort case _ => Stop;
    AddedBy(recorded, rows, target, opts, Step(target.talker, PathName(stem, opts.format), GivenUp, files0));
  }

  /** The row of a delivered target joins the others. */
  lemma DeliveryJoins(start: Files, files: Files, files': Files, finished: set<Delivery>, recorded: Entries,
                      rows: seq<IndexRow>, taken: set<string>, taken': set<string>, done: set<string>, opts: Options,
                      d: Delivery, stem: string, row: IndexRow)
    requires RoundInv(start, files, finished, recorded, ReadBack(rows), taken, done, opts)
    requires Picked(recorded, taken, row.talker, stem, opts) && taken <= taken' && Fold(stem) in taken'
    requires opts.resume || Path(stem, opts.format) !in files || Owns(recorded, row.talker, Path(stem, opts.format))
    requires SameExcept(files, files', Path(stem, opts.format), Part(stem, opts.format))
    requires Path(stem, opts.format) in files' && files'[Path(stem, opts.format)] == Document(Render(d))
    requires d.target.talker == row.talker && row.file == PathName(stem, opts.format)
    ensures RoundInv(start, files', finished + {d}, recorded, ReadBack(rows + [row]), taken', done + {row.talker}, opts)
    ensures ReadBack(rows + [row]).Keys == ReadBack(rows).Keys + {row.talker}
  {
    assert d in finished + {d};
    TargetKeepsRound(start, files, files', finished, finished + {d}, recorded, ReadBack(rows), taken, taken',
                     done, opts, row.talker, stem, Path(stem, opts.format), Part(stem, opts.format));
    NewRowJoins(start, files, files', finished, finished + {d}, recorded, ReadBack(rows), taken, taken',
                done + {row.talker}, opts, row, stem);
    ReadBackAppend(rows, row);
  }

  lemma DeliveryIsExported(recorded: Entries, rows: seq<IndexRow>, opts: Options, target: Target, fate: Fate,
                           stem: string, n: nat, files: Files, files': Files)
    requires fate.ending.Completes? && n == |RowsOf(Render(Delivery(target, opts.format, fate.pages)))|
    requires SameExcept(files, files', Path(stem, opts.format), Part(stem, opts.format))
    requires Path(stem, opts.format) in files' && Part(stem, opts.format) !in files'
    requires files'[Path(stem, opts.format)] == Document(Render(Delivery(target, opts.format, fate.pages)))
    requires target.talker in
               ReadBack(rows + [IndexRow(target.talker, PathName(stem, opts.format), n, target.displayName,
                                         opts.withMedia)])
    ensures Exported(recorded, rows,
                     rows + [IndexRow(target.talker, PathName(stem, opts.format), n, target.displayName,
                                      opts.withMedia)],
                     opts, target, fate, Step(target.talker, PathName(stem, opts.format), Wrote(n), files), files')
  {
    AddedBy(recorded, rows, target, opts, Step(target.talker, PathName(stem, opts.format), Wrote(n), files));
  }

  lemma PathIsNotPart(stem: string, f: Format)
    ensures Path(stem, f) != Part(stem, f) && ExtOf(Part(stem, f)) == "part"
  {
    NameParts(stem, f);
    assert |Ext(Jsonl)| == 5 && Ext(Json)[0] == 'j';
  }

  /** In a fresh round a target's path exists now only if it existed when the round began. */
  lemma FreshPathIsOld(start: Files, files: Files, taken: set<string>, opts: Options, recorded: Entries,
                       talker: string, stem: string, acc: Entries, finished: set<Delivery>, done: set<string>)
    requires RoundInv(start, files, finished, recorded, acc, taken, done, opts)
    requires Picked(recorded, taken, talker, stem, opts)
    ensures !opts.resume ==> (Path(stem, opts.format) in files <==> Path(stem, opts.format) in start)
  {
    NameParts(stem, opts.format);
    IndexNames();
  }

  lemma AddedBy(recorded: Entries, rows: seq<IndexRow>, target: Target, opts: Options, s: Step)
    ensures s.action.GivenUp? ==> rows + Added(recorded, rows, target, opts, s) == rows
    ensures s.action.Wrote? ==>
              rows + Added(recorded, rows, target, opts, s)
                == rows + [IndexRow(s.talker, s.file, s.action.messages, target.displayName, opts.withMedia)]
    ensures s.action.Refused? && (forall o :: o in recorded ==> !Owns(recorded, o, Fold(s.file))) ==>
              rows + Added(recorded, rows, target, opts, s) == rows
  {
  }

  lemma AddedOwner(recorded: Entries, rows: seq<IndexRow>, target: Target, opts: Options, s: Step, owner: string)
    requires s.action.Refused? && Owns(recorded, owner, Fold(s.file))
    requires forall o :: Owns(recorded, o, Fold(s.file)) ==> o == owner
    ensures rows + Added(recorded, rows, target, opts, s)
         == if exists r :: r in rows && r.talker == owner then rows else rows + [recorded[owner]]
  {
  }

  /** A recorded file has one owner. */
  lemma OwnerIsOne(files: Files, finished: set<Delivery>, recorded: Entries, key: string, o: string, p: string)
    requires EntriesOwned(files, finished, recorded) && Owns(recorded, o, key) && Owns(recorded, p, key)
    ensures o == p
  {
  }

  /** The owner of a refused name keeps its row in the new index. */
  method CarryOwner(dir: ExportDir, ghost start: Files, recorded: Entries, rows: seq<IndexRow>,
                    ghost taken: set<string>, ghost taken': set<string>, ghost done: set<string>, opts: Options,
                    ghost target: Target, stem: string)
    returns (rows': seq<IndexRow>)
    requires RoundInv(start, dir.files, dir.finished, recorded, ReadBack(rows), taken', done, opts)
    requires RowsNamed(recorded, ReadBack(rows), taken, opts)
    requires !opts.resume && Fold(stem) !in taken && Fold(stem) in taken' && Fold(stem) != "index"
    ensures RoundInv(start, dir.files, dir.finished, recorded, ReadBack(rows'), taken', done, opts)
    ensures ReadBack(rows).Keys <= ReadBack(rows').Keys
    ensures forall o :: Owns(recorded, o, Path(stem, opts.format)) ==> o in ReadBack(rows')
    ensures var s := Step(target.talker, PathName(stem, opts.format), Refused, dir.files);
            rows' == rows + Added(recorded, rows, target, opts, s)
  {
    rows' := rows;
    ghost var s := Step(target.talker, PathName(stem, opts.format), Refused, dir.files);
    if o :| o in recorded && Owns(recorded, o, Path(stem, opts.format)) {
      forall p | Owns(recorded, p, Path(stem, opts.format)) ensures p == o {
        OwnerIsOne(dir.files, dir.finished, recorded, Path(stem, opts.format), o, p);
      }
      AddedOwner(recorded, rows, target, opts, s, o);
      if !exists r :: r in rows && r.talker == o {
        OwnerRowJoins(start, dir.files, dir.finished, recorded, ReadBack(rows), taken, taken', done, opts, o, stem);
        ReadBackAppend(rows, recorded[o]);
        rows' := rows + [recorded[o]];
      }
    } else {
      AddedBy(recorded, rows, target, opts, s);
    }
  }

  lemma OwnerRowJoins(start: Files, files: Files, finished: set<Delivery>, recorded: Entries, acc: Entries,
                      taken: set<string>, taken': set<string>, done: set<string>, opts: Options, owner: string,
                      stem: string)
    requires RoundInv(start, files, finished, recorded, acc, taken', done, opts)
    requires RowsNamed(recorded, acc, taken, opts)
    requires !opts.resume && Fold(stem) !in taken && Fold(stem) in taken' && Fold(stem) != "index"
    requires Owns(recorded, owner, Path(stem, opts.format))
    ensures RoundInv(start, files, finished, recorded, acc[owner := recorded[owner]], taken', done, opts)
  {
    var row := recorded[owner];
    assert Holds(files, finished, row);
    OwnerRowIsNamed(files, finished, recorded, opts.format, owner, stem);
    forall u | u in acc && u != owner ensures Fold(acc[u].file) != Fold(row.file) {
      EntryKey(acc, opts.format, u);
    }
    RowJoins(start, files, finished, recorded, acc, taken', done, opts, row);
  }

  /** The owner of a path has a row in that path's own format and under its stem. */
  lemma OwnerRowIsNamed(files: Files, finished: set<Delivery>, recorded: Entries, f: Format, owner: string,
                        stem: string)
    requires EntriesOwned(files, finished, recorded) && Owns(recorded, owner, Path(stem, f))
    ensures var row := recorded[owner];
      && row.talker == owner && row.file == PathName(StemOf(row.file), f) && FoldedStem(row) == Fold(stem)
      && StemOf(Fold(row.file)) == Fold(stem)
  {
    var g :| OneFormat(recorded, g);
    EntryKey(recorded, g, owner);
    NameParts(stem, f);
    ExtOfFormat(f, g);
  }

  lemma ExtOfFormat(f: Format, g: Format)
    ensures Ext(f) == Ext(g) ==> f == g
  {
    assert |Ext(Jsonl)| == 5 && |Ext(Json)| == 4;
  }

  lemma ReusedRowJoins(start: Files, files: Files, finished: set<Delivery>, recorded: Entries, acc: Entries,
                       taken: set<string>, taken': set<string>, done: set<string>, opts: Options, talker: string,
                       stem: string)
    requires RoundInv(start, files, finished, recorded, acc, taken', done, opts)
    requires RowsNamed(recorded, acc, taken, opts)
    requires opts.resume && Fold(stem) in taken' && Picked(recorded, taken, talker, stem, opts)
    requires talker in recorded && recorded[talker].file == PathName(stem, opts.format)
    ensures RoundInv(start, files, finished, recorded, acc[talker := recorded[talker]], taken', done, opts)
  {
    var row := recorded[talker];
    assert Holds(files, finished, row);
    NameParts(stem, opts.format);
    PathIsFreeOfRows(files, finished, recorded, acc, taken, opts, talker, stem);
    assert FoldedStem(row) in PrevStems(recorded);
    RowJoins(start, files, finished, recorded, acc, taken', done, opts, row);
  }

  lemma NewRowJoins(start: Files, files: Files, files': Files, finished: set<Delivery>, finished': set<Delivery>,
                    recorded: Entries, acc: Entries, taken: set<string>, taken': set<string>, done: set<string>,
                    opts: Options, row: IndexRow, stem: string)
    requires EntriesOwned(files, finished, recorded) && RowsNamed(recorded, acc, taken, opts)
    requires RoundInv(start, files', finished', recorded, acc, taken', done, opts)
    requires Fold(stem) in taken' && Picked(recorded, taken, row.talker, stem, opts)
    requires row.file == PathName(stem, opts.format) && row.talker in done
    requires Holds(files', finished', row)
    ensures RoundInv(start, files', finished', recorded, acc[row.talker := row], taken', done, opts)
  {
    NameParts(stem, opts.format);
    PathIsFreeOfRows(files, finished, recorded, acc, taken, opts, row.talker, stem);
    RowJoins(start, files', finished', recorded, acc, taken', done, opts, row);
  }

  lemma EmptyRound(files: Files, finished: set<Delivery>, taken: set<string>, opts: Options)
    requires Owned(files, finished)
    requires opts.resume ==> PrevStems(PreviousIndex(files)) <= taken
    ensures RoundInv(files, files, finished, PreviousIndex(files), ReadBack([]), taken, {}, opts)
  {
    assert OneFormat(ReadBack([]), opts.format);
  }

  /** Replacing the index by the rows of a round makes exactly those rows the recorded ones. */
  lemma IndexReplaced(start: Files, files: Files, files': Files, finished: set<Delivery>, recorded: Entries,
                      rows: seq<IndexRow>, taken: set<string>, done: set<string>, opts: Options)
    requires RoundInv(start, files, finished, recorded, ReadBack(rows), taken, done, opts)
    requires SameExcept(files, files', INDEX, INDEX_PART)
    requires INDEX in files' && files'[INDEX] == IndexDoc(rows)
    ensures Owned(files', finished) && PreviousIndex(files') == ReadBack(rows)
    ensures !opts.resume ==> NotClobbered(start, files', finished, recorded, done)
  {
    var acc := ReadBack(rows);
    IndexNames();
    forall t | t in acc ensures Holds(files', finished, acc[t]) {
      EntryKey(acc, opts.format, t);
      assert Holds(files, finished, acc[t]);
      assert Fold(acc[t].file) != INDEX && Fold(acc[t].file) != INDEX_PART;
      assert Fold(acc[t].file) in files';
    }
    if !opts.resume {
      forall k | k in start && k != INDEX && ExtOf(k) != "part"
        ensures (k in files' && files'[k] == start[k]) || RewrittenByOwner(files', finished, recorded, done, k)
      {
        assert k != INDEX_PART;
        if RewrittenByOwner(files, finished, recorded, done, k) {
          var d :| d in finished && d.target.talker in done && Owns(recorded, d.target.talker, k)
                   && files[k] == Document(Render(d));
          assert k in files' && files'[k] == files[k];
        }
      }
    }
  }

  lemma StepAdded(start: Files, recorded: Entries, acc: Entries, acc': Entries, steps: seq<Step>, s: Step,
                  skipped: seq<string>, skipped': seq<string>, opts: Options)
    requires StepsOk(start, recorded, acc, steps, skipped, opts)
    requires acc.Keys <= acc'.Keys && skipped <= skipped'
    requires if opts.resume then ResumeStep(recorded, s) else FreshStep(start, recorded, s)
    requires if s.action.Wrote? || s.action.Reused? then s.talker in acc' else s.talker in skipped'
    requires s.action.Refused? ==> forall o :: Owns(recorded, o, Fold(s.file)) ==> o in acc'
    ensures StepsOk(start, recorded, acc', steps + [s], skipped', opts)
  {
    forall x | x in steps + [s]
      ensures x.talker in (if x.action.Wrote? || x.action.Reused? then acc'.Keys else set y | y in skipped')
    {
      if x in steps && x.talker in skipped {
        assert x.talker in skipped';
      }
    }
  }

  /** The outcome lists agree with the steps taken. */
  ghost predicate Tallied(o: Outcome, steps: seq<Step>) {
    && o.written == Written(steps) && o.reused == ReusedTalkers(steps) && o.messages == Messages(steps)
    && o.skipped == SkippedTalkers(steps)
  }

  method Tally(o: Outcome, ghost steps: seq<Step>, s: Step) returns (o': Outcome)
    requires Tallied(o, steps)
    ensures Tallied(o', steps + [s])
    ensures o.skipped <= o'.skipped
    ensures s.action.Refused? || s.action.GivenUp? ==> s.talker in o'.skipped
    ensures s.action.Wrote? || s.action.Reused? ==> o'.skipped == o.skipped
  {
    assert (steps + [s])[..|steps|] == steps;
    match s.action
    case Refused => o' := if s.talker in o.skipped then o else o.(skipped := o.skipped + [s.talker]);
    case Reused => o' := o.(reused := o.reused + [s.talker]);
    case GivenUp => o' := o.(skipped := o.skipped + [s.talker]);
    case Wrote(n) => o' := o.(written := o.written + [s.file], messages := o.messages + n);
  }

  /** After `n` targets: the steps, the names taken and the rows are the ones the round's inputs determine. */
  ghost predicate SoFar(start: Files, files: Files, recorded: Entries, round: Round, n: nat, steps: seq<Step>,
                        taken: set<string>, rows: seq<IndexRow>)
    requires |round.fates| == |round.targets|
  {
    && InStep(steps, recorded, round, n) && taken == TakenBefore(recorded, round.targets, round.opts, n)
    && rows == IndexRows(recorded, round.targets, round.opts, steps) && Chained(start, steps, round, files)
  }

  lemma SoFarGrows(start: Files, files: Files, recorded: Entries, round: Round, n: nat, steps: seq<Step>,
                   taken: set<string>, rows: seq<IndexRow>, files': Files, steps': seq<Step>, rows': seq<IndexRow>)
    requires |round.fates| == |round.targets| && n < |round.targets|
    requires SoFar(start, files, recorded, round, n, steps, taken, rows)
    requires |steps'| == n + 1 && steps <= steps' && AnswersAt(steps'[n], recorded, round, n)
    requires steps'[n].before == files && Turned(steps'[n], DeliveryAt(round, n), files')
    requires rows' == rows + Added(recorded, rows, round.targets[n], round.opts, steps'[n])
    ensures SoFar(start, files', recorded, round, n + 1, steps',
                  TakenWith(recorded, round.targets[n], taken, round.opts), rows')
  {
    InStepGrows(steps, steps', recorded, round, n);
    IndexRowsStep(recorded, round.targets, round.opts, steps, steps');
    assert steps'[..n] == steps;
  }

  lemma IndexRowsStep(recorded: Entries, targets: seq<Target>, opts: Options, steps: seq<Step>, steps': seq<Step>)
    requires |steps'| == |steps| + 1 <= |targets| && steps <= steps'
    ensures var before := IndexRows(recorded, targets, opts, steps);
            IndexRows(recorded, targets, opts, steps')
              == before + Added(recorded, before, targets[|steps|], opts, steps'[|steps|])
  {
    assert steps'[..|steps|] == steps;
  }

  lemma InStepGrows(steps: seq<Step>, steps': seq<Step>, recorded: Entries, round: Round, n: nat)
    requires |round.fates| == |round.targets|
    requires n < |round.targets| && InStep(steps, recorded, round, n)
    requires |steps'| == n + 1 && steps <= steps' && AnswersAt(steps'[n], recorded, round, n)
    ensures InStep(steps', recorded, round, n + 1)
  {
    forall j | 0 <= j < n ensures AnswersAt(steps'[j], recorded, round, j) {
      assert steps'[j] == steps[j];
    }
  }

  lemma TalkersGrow(targets: seq<Target>, n: nat)
    requires n < |targets|
    ensures Talkers(targets[..n + 1]) == Talkers(targets[..n]) + {targets[n].talker}
  {
    assert targets[..n + 1] == targets[..n] + [targets[n]];
  }

  /** One turn of the loop with its bookkeeping. */
  method Turn(dir: ExportDir, ghost start: Files, recorded: Entries, rows: seq<IndexRow>, taken: set<string>,
              ghost done: set<string>, opts: Options, target: Target, fate: Fate, o: Outcome, ghost steps: seq<Step>)
    returns (end: Verdict, rows': seq<IndexRow>, taken': set<string>, o': Outcome, ghost steps': seq<Step>)
    requires RoundInv(start, dir.files, dir.finished, recorded, ReadBack(rows), taken, done, opts)
    requires StepsOk(start, recorded, ReadBack(rows), steps, o.skipped, opts) && Tallied(o, steps)
    modifies dir
    ensures RoundInv(start, dir.files, dir.finished, recorded, ReadBack(rows'), taken', done + {target.talker}, opts)
    ensures StepsOk(start, recorded, ReadBack(rows'), steps', o'.skipped, opts) && Tallied(o', steps')
    ensures end.Went? ==>
              && |steps'| == |steps| + 1 && steps <= steps'
              && var s := steps'[|steps|];
              && s.before == old(dir.files) && Answers(s, recorded, target, taken, fate, opts)
              && Turned(s, Delivery(target, opts.format, fate.pages), dir.files)
              && rows' == rows + Added(recorded, rows, target, opts, s)
    ensures taken' == TakenWith(recorded, target, taken, opts)
    ensures !end.Went? ==>
              var stem := StemFor(recorded, target, taken, opts);
              var part := PartOf(PathName(stem, opts.format));
              && steps' == steps && SameExcept(old(dir.files), dir.files, part, part)
              && Attempts(old(dir.files), recorded, target.talker, stem, opts)
    ensures end.Stop? ==> dir.fuel == 0 && old(dir.fuel) < 4
    ensures dir.fuel + 4 >= old(dir.fuel)
    ensures end.Abort? ==> Leaks(fate)
  {
    var file;
    var before := dir.files;
    end, rows', taken', file := DoTarget(dir, start, recorded, rows, taken, done, opts, target, fate);
    o', steps' := o, steps;
    if end.Went? {
      var s := Step(target.talker, file, end.action, before);
      o' := Tally(o, steps, s);
      StepAdded(start, recorded, ReadBack(rows), ReadBack(rows'), steps, s, o.skipped, o'.skipped, opts);
      steps' := steps + [s];
    }
  }

  /** Between the turns of a round. */
  ghost predicate Midway(start: Files, files: Files, finished: set<Delivery>, recorded: Entries, round: Round, i: nat,
                         rows: seq<IndexRow>, taken: set<string>, o: Outcome, steps: seq<Step>)
    requires |round.fates| == |round.targets| && i <= |round.targets|
  {
    && RoundInv(start, files, finished, recorded, ReadBack(rows), taken, Talkers(round.targets[..i]), round.opts)
    && StepsOk(start, recorded, ReadBack(rows), steps, o.skipped, round.opts) && Tallied(o, steps)
    && SoFar(start, files, recorded, round, i, steps, taken, rows)
  }

  lemma MidwayAtStart(files: Files, finished: set<Delivery>, round: Round)
    requires |round.fates| == |round.targets| && Owned(files, finished)
    ensures Midway(files, files, finished, PreviousIndex(files), round, 0, [],
                   TakenBefore(PreviousIndex(files), round.targets, round.opts, 0), Outcome([], [], [], 0), [])
  {
    EmptyRound(files, finished, TakenBefore(PreviousIndex(files), round.targets, round.opts, 0), round.opts);
    assert Talkers(round.targets[..0]) == {};
  }

  lemma AllTargets(targets: seq<Target>)
    ensures Talkers(targets[..|targets|]) == Talkers(targets)
  {
    assert targets[..|targets|] == targets;
  }

  /** Turn `i` of a round. */
  method TakeTurn(dir: ExportDir, ghost start: Files, recorded: Entries, rows: seq<IndexRow>, taken: set<string>,
                  round: Round, i: nat, o: Outcome, ghost steps: seq<Step>)
    returns (end: Verdict, rows': seq<IndexRow>, taken': set<string>, o': Outcome, ghost steps': seq<Step>)
    requires |round.fates| == |round.targets| && i < |round.targets|
    requires Midway(start, dir.files, dir.finished, recorded, round, i, rows, taken, o, steps)
    modifies dir
    ensures end.Went? ==> Midway(start, dir.files, dir.finished, recorded, round, i + 1, rows', taken', o', steps')
    ensures !end.Went? ==>
              RoundInv(start, dir.files, dir.finished, recorded, ReadBack(rows'), taken', Talkers(round.targets),
                       round.opts)
    ensures !end.Went? ==> steps' == steps && CutShort(old(dir.files), dir.files, recorded, round, i)
    ensures StepsOk(start, recorded, ReadBack(rows'), steps', o'.skipped, round.opts)
    ensures end.Stop? ==> dir.fuel == 0 && old(dir.fuel) < 4
    ensures dir.fuel + 4 >= old(dir.fuel)
    ensures end.Abort? ==> Leaks(round.fates[i])
  {
    ghost var files := dir.files;
    end, rows', taken', o', steps' := Turn(dir, start, recorded, rows, taken, Talkers(round.targets[..i]), round.opts,
                                           round.targets[i], round.fates[i], o, steps);
    TalkersGrow(round.targets, i);
    if end.Went? {
      SoFarGrows(start, files, recorded, round, i, steps, taken, rows, dir.files, steps', rows');
    } else {
      EarlyEnd(start, dir.files, dir.finished, recorded, ReadBack(rows'), taken', round.targets, i + 1, round.opts);
    }
  }

  method DoTargets(dir: ExportDir, ghost start: Files, recorded: Entries, round: Round)
    returns (end: Verdict, rows: seq<IndexRow>, ghost taken: set<string>, o: Outcome, ghost steps: seq<Step>,
             ghost left: Files)
    requires |round.fates| == |round.targets|
    requires Owned(dir.files, dir.finished) && start == dir.files && recorded == PreviousIndex(start)
    modifies dir
    ensures RoundInv(start, dir.files, dir.finished, recorded, ReadBack(rows), taken, Talkers(round.targets),
                     round.opts)
    ensures StepsOk(start, recorded, ReadBack(rows), steps, o.skipped, round.opts)
    ensures InStep(steps, recorded, round, |steps|) && Chained(start, steps, round, left)
    ensures end.Went? ==> Tallied(o, steps) && |steps| == |round.targets| && left == dir.files
    ensures end.Went? ==> rows == IndexRows(recorded, round.targets, round.opts, steps)
    ensures !end.Went? ==> CutShort(left, dir.files, recorded, round, |steps|)
    ensures end.Stop? ==> dir.fuel == 0 && old(dir.fuel) < 4 * |round.targets|
    ensures dir.fuel + 4 * |round.targets| >= old(dir.fuel)
    ensures end.Abort? ==> exists f :: f in round.fates && Leaks(f)
  {
    var opts, n := round.opts, |round.targets|;
    var claimed := if opts.resume then PrevStems(recorded) else {};
    rows, steps, o, end := [], [], Outcome([], [], [], 0), Went(GivenUp);
    MidwayAtStart(dir.files, dir.finished, round);
    AllTargets(round.targets);
    for i := 0 to n
      invariant end.Went?
      invariant Midway(start, dir.files, dir.finished, recorded, round, i, rows, claimed, o, steps)
      invariant dir.fuel + 4 * i >= old(dir.fuel)
    {
      left := dir.files;
      end, rows, claimed, o, steps := TakeTurn(dir, start, recorded, rows, claimed, round, i, o, steps);
      if !end.Went? {
        taken := claimed;
        return;
      }
    }
    taken, left := claimed, dir.files;
  }

  lemma EarlyEnd(start: Files, files: Files, finished: set<Delivery>, recorded: Entries, acc: Entries,
                 taken: set<string>, targets: seq<Target>, n: nat, opts: Options)
    requires n <= |targets|
    requires RoundInv(start, files, finished, recorded, acc, taken, Talkers(targets[..n]), opts)
    ensures RoundInv(start, files, finished, recorded, acc, taken, Talkers(targets), opts)
  {
    IndexNames();
    PartKeepsRound(start, files, files, finished, recorded, acc, taken, taken,
                   Talkers(targets[..n]), Talkers(targets), opts, INDEX_PART);
  }

  /** One round. Whatever the environment does and wherever the process stops, ownership holds after it. */
  method Run(dir: ExportDir, round: Round) returns (r: Result, ghost steps: seq<Step>, ghost left: Files)
    requires |round.fates| == |round.targets|
    requires Owned(dir.files, dir.finished)
    modifies dir
    ensures RoundDone(old(dir.files), dir.files, dir.finished, dir.fuel, round, steps, left, r)
  {
    dir.fuel := round.fuel;
    ghost var start := dir.files;
    var recorded := PreviousIndex(dir.files);
    var end, rows, o;
    ghost var taken;
    end, rows, taken, o, steps, left := DoTargets(dir, start, recorded, round);
    if !end.Went? {
      r := if end.Abort? then Failed else Interrupted;
      return;
    }
    ghost var files := dir.files;
    var ok := dir.WriteIndex(rows, round.index);
    if ok {
      r := Completed(o);
      CompletesRound(start, files, dir.files, dir.finished, dir.fuel, recorded, rows, taken, round, o, steps);
    } else {
      r := if dir.fuel == 0 then Interrupted else Failed;
      LeavesIndex(start, files, dir.files, dir.finished, dir.fuel, recorded, rows, taken, round, o, steps, r);
    }
  }

  /** After the last turn. */
  ghost predicate AllTurned(start: Files, files: Files, finished: set<Delivery>, recorded: Entries,
                            rows: seq<IndexRow>, taken: set<string>, round: Round, o: Outcome, steps: seq<Step>)
    requires |round.fates| == |round.targets|
  {
    && recorded == PreviousIndex(start)
    && RoundInv(start, files, finished, recorded, ReadBack(rows), taken, Talkers(round.targets), round.opts)
    && StepsOk(start, recorded, ReadBack(rows), steps, o.skipped, round.opts) && Tallied(o, steps)
    && |steps| == |round.targets| && InStep(steps, recorded, round, |steps|) && Chained(start, steps, round, files)
    && rows == IndexRows(recorded, round.targets, round.opts, steps)
  }

  lemma CompletesRound(start: Files, files: Files, files': Files, finished: set<Delivery>, fuel: nat,
                       recorded: Entries, rows: seq<IndexRow>, taken: set<string>, round: Round, o: Outcome,
                       steps: seq<Step>)
    requires |round.fates| == |round.targets| && round.index.IndexWritten?
    requires AllTurned(start, files, finished, recorded, rows, taken, round, o, steps)
    requires SameExcept(files, files', INDEX, INDEX_PART) && INDEX in files' && files'[INDEX] == IndexDoc(rows)
    ensures RoundDone(start, files', finished, fuel, round, steps, files, Completed(o))
  {
    IndexReplaced(start, files, files', finished, recorded, rows, taken, Talkers(round.targets), round.opts);
  }

  lemma LeavesIndex(start: Files, files: Files, files': Files, finished: set<Delivery>, fuel: nat,
                    recorded: Entries, rows: seq<IndexRow>, taken: set<string>, round: Round, o: Outcome,
                    steps: seq<Step>, r: Result)
    requires |round.fates| == |round.targets|
    requires AllTurned(start, files, finished, recorded, rows, taken, round, o, steps)
    requires SameExcept(files, files', INDEX_PART, INDEX_PART)
    requires r == (if fuel == 0 then Interrupted else Failed)
    requires fuel == 0 ==> round.fuel < 4 * |round.targets| + 3
    requires fuel != 0 ==> !round.index.IndexWritten?
    ensures RoundDone(start, files', finished, fuel, round, steps, files, r)
  {
    IndexNames();
    PartKeepsRound(start, files, files', finished, recorded, ReadBack(rows), taken, taken,
                   Talkers(round.targets), Talkers(round.targets), round.opts, INDEX_PART);
  }

  /** Any succession of rounds over a directory whose index nobody wrote yet: resumed and fresh rounds,
      either format, any failures, each round stopping wherever its fuel ends. */
  method Campaign(files: Files, rounds: seq<Round>) returns (dir: ExportDir)
    requires PreviousIndex(files) == map[]
    requires forall r :: r in rounds ==> |r.fates| == |r.targets|
    ensures fresh(dir)
    ensures Owned(dir.files, dir.finished)
  {
    dir := new ExportDir(files);
    assert OneFormat(PreviousIndex(files), Json);
    for i := 0 to |rounds|
      invariant fresh(dir) && Owned(dir.files, dir.finished)
    {
      var r, steps, left := Run(dir, rounds[i]);
    }
  }
}

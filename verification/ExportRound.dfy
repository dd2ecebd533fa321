/** One export round over a directory that outlives it (`run`, `write_index`, `previous_index` in
    src/export.rs). Files are keyed by folded name. A round may stop before any change to the
    directory: `fuel` is the number of changes it still gets to make. */
module ExportRound {
  import opened Naming
  import opened ExportDocument

  datatype IndexRow = IndexRow(talker: string, file: string, messages: nat, displayName: string, withMedia: bool)

  /** What a file holds: a finished artifact, an index, or any other bytes (torn or foreign). */
  datatype Content = Document(doc: Doc) | IndexDoc(rows: seq<IndexRow>) | Raw(text: string)

  type Files = map<string, Content>
  type Entries = map<string, IndexRow>

  datatype Options = Options(format: Format, resume: bool, withMedia: bool)

  const INDEX := "index.json"
  const INDEX_PART := "index.json.part"

  function PathName(stem: string, f: Format): string { stem + "." + Ext(f) }

  function PartName(stem: string, f: Format): string { PathName(stem, f) + ".part" }

  function Path(stem: string, f: Format): string { Fold(PathName(stem, f)) }

  function Part(stem: string, f: Format): string { Fold(PartName(stem, f)) }

  /** `rsplit_once('.')`: the part before the last dot, or everything. */
  function StemOf(file: string): string {
    if '.' !in file then file
    else if file[|file| - 1] == '.' then file[..|file| - 1]
    else StemOf(file[..|file| - 1])
  }

  function ExtOf(file: string): string {
    if '.' !in file || file[|file| - 1] == '.' then ""
    else ExtOf(file[..|file| - 1]) + [file[|file| - 1]]
  }

  lemma {:induction false} SplitJoined(stem: string, ext: string)
    requires '.' !in ext
    ensures StemOf(stem + "." + ext) == stem && ExtOf(stem + "." + ext) == ext
  {
    var file := stem + "." + ext;
    assert file[|stem|] == '.';
    if ext != "" {
      var n := |ext| - 1;
      assert ext[n] in ext;
      SplitJoined(stem, ext[..n]);
      assert file[..|file| - 1] == stem + "." + ext[..n];
      assert ext == ext[..n] + [ext[n]];
    } else {
      assert file[..|file| - 1] == stem;
    }
  }

  lemma NoDotInExt(f: Format)
    ensures '.' !in Ext(f) && Fold("." + Ext(f)) == "." + Ext(f)
  {
  }

  lemma PathFolds(stem: string, f: Format)
    ensures Path(stem, f) == PathName(Fold(stem), f)
  {
    NoDotInExt(f);
    FoldConcat(stem, "." + Ext(f));
    assert stem + ("." + Ext(f)) == PathName(stem, f);
    assert Fold(stem) + ("." + Ext(f)) == PathName(Fold(stem), f);
  }

  lemma PartExt(stem: string, f: Format)
    ensures ExtOf(Part(stem, f)) == "part"
  {
    FoldConcat(PathName(stem, f), ".part");
    assert Fold(".part") == ".part";
    assert '.' !in "part";
    SplitJoined(Fold(PathName(stem, f)), "part");
    assert Fold(PathName(stem, f)) + "." + "part" == Fold(PathName(stem, f)) + ".part";
  }

  lemma NameParts(stem: string, f: Format)
    ensures Path(stem, f) == PathName(Fold(stem), f)
    ensures StemOf(PathName(stem, f)) == stem && ExtOf(PathName(stem, f)) == Ext(f)
    ensures StemOf(Path(stem, f)) == Fold(stem) && ExtOf(Path(stem, f)) == Ext(f)
    ensures ExtOf(Part(stem, f)) == "part"
  {
    NoDotInExt(f);
    PathFolds(stem, f);
    SplitJoined(stem, Ext(f));
    SplitJoined(Fold(stem), Ext(f));
    PartExt(stem, f);
  }

  lemma IndexNames()
    ensures ExtOf(INDEX_PART) == "part" && StemOf(INDEX) == "index" && ExtOf(INDEX) == "json"
  {
    SplitJoined("index.json", "part");
    assert "index.json" + "." + "part" == INDEX_PART;
    SplitJoined("index", "json");
    assert "index" + "." + "json" == INDEX;
  }

  /** `talker -> row`, the last row of a talker winning. */
  function ReadBack(rows: seq<IndexRow>): (m: Entries)
    ensures forall t :: t in m ==> m[t].talker == t && m[t] in rows
    ensures forall r :: r in rows ==> r.talker in m
  {
    if rows == [] then map[]
    else
      var n := |rows| - 1;
      assert rows == rows[..n] + [rows[n]];
      ReadBack(rows[..n])[rows[n].talker := rows[n]]
  }

  lemma ReadBackAppend(rows: seq<IndexRow>, r: IndexRow)
    ensures ReadBack(rows + [r]) == ReadBack(rows)[r.talker := r]
  {
    assert (rows + [r])[..|rows|] == rows;
  }

  function PreviousIndex(files: Files): Entries {
    if INDEX in files && files[INDEX].IndexDoc? then ReadBack(files[INDEX].rows) else map[]
  }

  function LastChar(s: string): string { if s == [] then [] else [s[|s| - 1]] }

  /** The cheap completeness test: not empty, and the right last byte for the format. */
  predicate FileIsComplete(c: Content, f: Format) {
    match c
    case Raw(text) => LastChar(text) == if f.Json? then "}" else "\n"
    case Document(doc) => doc.Envelope? == f.Json?
    case IndexDoc(_) => f.Json?
  }

  function FoldedStem(row: IndexRow): string { Fold(StemOf(row.file)) }

  predicate OneFormat(entries: Entries, f: Format) {
    forall t :: t in entries ==> entries[t].file == PathName(StemOf(entries[t].file), f)
  }

  predicate Owns(entries: Entries, talker: string, key: string) {
    talker in entries && Fold(entries[talker].file) == key
  }

  /** The file of a row is the complete output of a finished export of the row's talker. */
  ghost predicate Holds(files: Files, finished: set<Delivery>, row: IndexRow) {
    && Fold(row.file) in files
    && exists d :: d in finished && d.target.talker == row.talker && files[Fold(row.file)] == Document(Render(d))
  }

  ghost predicate EntriesOwned(files: Files, finished: set<Delivery>, entries: Entries) {
    && (forall t :: t in entries ==> entries[t].talker == t && Holds(files, finished, entries[t]))
    && (forall t, u :: t in entries && u in entries && t != u ==>
          Fold(entries[t].file) != Fold(entries[u].file))
    && exists f :: OneFormat(entries, f)
  }

  /** Ownership: every talker -> file entry the recorded index reads back names the complete output of a
      finished export of that talker, no two of them the same file under folding. */
  ghost predicate Owned(files: Files, finished: set<Delivery>) {
    EntriesOwned(files, finished, PreviousIndex(files))
  }

  // ---- What a round keeps, as a fact about values ----

  function PrevStems(recorded: Entries): set<string> {
    set t | t in recorded :: FoldedStem(recorded[t])
  }

  /** A resumed talker keeps its recorded stem, unless that stem is the index's own name. */
  predicate KeepsStem(recorded: Entries, talker: string) {
    talker in recorded && FoldedStem(recorded[talker]) != "index"
  }

  predicate Picked(recorded: Entries, taken: set<string>, talker: string, stem: string, opts: Options) {
    && Fold(stem) != "index"
    && if opts.resume && KeepsStem(recorded, talker) then stem == StemOf(recorded[talker].file)
       else Fold(stem) !in taken
  }

  predicate ResumeStems(recorded: Entries, acc: Entries, taken: set<string>) {
    && PrevStems(recorded) <= taken
    && forall t :: t in acc ==>
         if KeepsStem(recorded, t) then FoldedStem(acc[t]) == FoldedStem(recorded[t])
         else FoldedStem(acc[t]) !in PrevStems(recorded)
  }

  /** `k` was recorded as a file of the round's own target and now holds a finished export of it. */
  ghost predicate RewrittenByOwner(files: Files, finished: set<Delivery>, recorded: Entries,
                                   done: set<string>, k: string) {
    && k in files
    && exists d :: d in finished && d.target.talker in done && Owns(recorded, d.target.talker, k)
                   && files[k] == Document(Render(d))
  }

  ghost predicate NotClobbered(start: Files, files: Files, finished: set<Delivery>, recorded: Entries,
                               done: set<string>)
  {
    forall k :: k in start && k != INDEX && ExtOf(k) != "part" ==>
      (k in files && files[k] == start[k]) || RewrittenByOwner(files, finished, recorded, done, k)
  }

  predicate NewNamesTaken(start: Files, files: Files, taken: set<string>) {
    forall k :: k in files && k !in start ==> ExtOf(k) == "part" || StemOf(k) in taken
  }

  predicate CarriedAsRecorded(recorded: Entries, acc: Entries, done: set<string>) {
    forall t :: t in acc && t !in done ==> t in recorded && acc[t] == recorded[t]
  }

  predicate RowsNamed(recorded: Entries, acc: Entries, taken: set<string>, opts: Options) {
    && OneFormat(acc, opts.format)
    && (forall t :: t in acc ==> FoldedStem(acc[t]) in taken && FoldedStem(acc[t]) != "index")
    && (opts.resume ==> ResumeStems(recorded, acc, taken))
  }

  ghost predicate RoundInv(start: Files, files: Files, finished: set<Delivery>, recorded: Entries, acc: Entries,
                           taken: set<string>, done: set<string>, opts: Options)
  {
    && recorded == PreviousIndex(start) == PreviousIndex(files)
    && EntriesOwned(files, finished, recorded)
    && EntriesOwned(files, finished, acc)
    && RowsNamed(recorded, acc, taken, opts)
    && (!opts.resume ==>
          && NotClobbered(start, files, finished, recorded, done)
          && NewNamesTaken(start, files, taken)
          && CarriedAsRecorded(recorded, acc, done))
  }

  lemma EntryKey(entries: Entries, f: Format, t: string)
    requires OneFormat(entries, f) && t in entries
    ensures Fold(entries[t].file) == PathName(FoldedStem(entries[t]), f)
    ensures StemOf(Fold(entries[t].file)) == FoldedStem(entries[t]) && ExtOf(Fold(entries[t].file)) == Ext(f)
  {
    NameParts(StemOf(entries[t].file), f);
  }

  ghost predicate SameExcept(files: Files, files': Files, path: string, part: string) {
    forall k :: k != path && k != part ==>
      (k in files <==> k in files') && (k in files && k in files' ==> files[k] == files'[k])
  }

  /** The only change to `path` is that it may now hold a finished export of `talker`. */
  ghost predicate OnlyDelivers(files: Files, files': Files, finished': set<Delivery>, path: string, talker: string) {
    || (path in files && path in files' && files'[path] == files[path])
    || (path !in files && path !in files')
    || (path in files'
        && exists d :: d in finished' && d.target.talker == talker && files'[path] == Document(Render(d)))
  }

  /** Owned entries survive any change away from their files, and a new finished export of the one
      talker whose file is rewritten. */
  lemma EntriesSurvive(files: Files, files': Files, finished: set<Delivery>, finished': set<Delivery>,
                       entries: Entries, path: string, part: string, talker: string)
    requires EntriesOwned(files, finished, entries) && finished <= finished'
    requires ExtOf(part) == "part"
    requires SameExcept(files, files', path, part)
    requires OnlyDelivers(files, files', finished', path, talker)
    requires forall t :: t in entries && t != talker ==> Fold(entries[t].file) != path
    ensures EntriesOwned(files', finished', entries)
  {
    var f :| OneFormat(entries, f);
    forall t | t in entries ensures Holds(files', finished', entries[t]) {
      EntryKey(entries, f, t);
      HoldsSurvives(files, files', finished, finished', entries[t], path, part, talker);
    }
  }

  lemma HoldsSurvives(files: Files, files': Files, finished: set<Delivery>, finished': set<Delivery>,
                      row: IndexRow, path: string, part: string, talker: string)
    requires Holds(files, finished, row) && finished <= finished'
    requires SameExcept(files, files', path, part)
    requires OnlyDelivers(files, files', finished', path, talker)
    requires row.talker != talker ==> Fold(row.file) != path
    requires Fold(row.file) != part
    ensures Holds(files', finished', row)
  {
    var key := Fold(row.file);
    if key != path {
      assert key in files' && files'[key] == files[key];
    }
  }

  /** The path a target is about to write is no other talker's file: not of the rows gathered so far,
      and not of the recorded index (given the ownership test of a fresh round). */
  lemma PathIsFreeOfRows(files: Files, finished: set<Delivery>, recorded: Entries, acc: Entries,
                         taken: set<string>, opts: Options, talker: string, stem: string)
    requires EntriesOwned(files, finished, recorded) && RowsNamed(recorded, acc, taken, opts)
    requires Picked(recorded, taken, talker, stem, opts)
    ensures forall t :: t in acc && t != talker ==> Fold(acc[t].file) != Path(stem, opts.format)
  {
    NameParts(stem, opts.format);
    forall t | t in acc && t != talker ensures Fold(acc[t].file) != Path(stem, opts.format) {
      EntryKey(acc, opts.format, t);
      StemIsFree(files, finished, recorded, acc, taken, opts, talker, stem, t);
    }
  }

  lemma StemIsFree(files: Files, finished: set<Delivery>, recorded: Entries, acc: Entries, taken: set<string>,
                   opts: Options, talker: string, stem: string, t: string)
    requires EntriesOwned(files, finished, recorded) && RowsNamed(recorded, acc, taken, opts)
    requires Picked(recorded, taken, talker, stem, opts) && t in acc && t != talker
    ensures FoldedStem(acc[t]) != Fold(stem)
  {
    if opts.resume && KeepsStem(recorded, talker) {
      assert FoldedStem(recorded[talker]) in PrevStems(recorded);
      SameStemSameFile(files, finished, recorded, t, talker);
    }
  }

  lemma PathIsFreeOfRecorded(files: Files, finished: set<Delivery>, recorded: Entries,
                             taken: set<string>, opts: Options, talker: string, stem: string)
    requires EntriesOwned(files, finished, recorded)
    requires opts.resume ==> PrevStems(recorded) <= taken
    requires Picked(recorded, taken, talker, stem, opts)
    requires opts.resume || Path(stem, opts.format) !in files || Owns(recorded, talker, Path(stem, opts.format))
    ensures forall t :: t in recorded && t != talker ==> Fold(recorded[t].file) != Path(stem, opts.format)
  {
    NameParts(stem, opts.format);
    var f :| OneFormat(recorded, f);
    forall t | t in recorded && t != talker ensures Fold(recorded[t].file) != Path(stem, opts.format) {
      assert Holds(files, finished, recorded[t]);
      EntryKey(recorded, f, t);
      if opts.resume {
        assert FoldedStem(recorded[t]) in PrevStems(recorded);
        SameStemSameFile(files, finished, recorded, t, talker);
      }
    }
  }

  lemma SameStemSameFile(files: Files, finished: set<Delivery>, entries: Entries, t: string, u: string)
    requires EntriesOwned(files, finished, entries)
    ensures t in entries && u in entries && FoldedStem(entries[t]) == FoldedStem(entries[u]) ==> t == u
  {
    if t in entries && u in entries && FoldedStem(entries[t]) == FoldedStem(entries[u]) {
      var f :| OneFormat(entries, f);
      EntryKey(entries, f, t);
      EntryKey(entries, f, u);
    }
  }

  /** A target is dealt with: nothing outside its part file changed but, at most, its own path, which now
      holds a finished export of it. */
  lemma TargetKeepsRound(start: Files, files: Files, files': Files, finished: set<Delivery>, finished': set<Delivery>,
                         recorded: Entries, acc: Entries, taken: set<string>, taken': set<string>,
                         done: set<string>, opts: Options, talker: string, stem: string, path: string, part: string)
    requires RoundInv(start, files, finished, recorded, acc, taken, done, opts)
    requires Picked(recorded, taken, talker, stem, opts)
    requires path == Path(stem, opts.format) && part == Part(stem, opts.format)
    requires taken <= taken' && Fold(stem) in taken' && finished <= finished'
    requires SameExcept(files, files', path, part)
    requires OnlyDelivers(files, files', finished', path, talker)
    requires opts.resume || path !in files || Owns(recorded, talker, path)
    ensures RoundInv(start, files', finished', recorded, acc, taken', done + {talker}, opts)
  {
    assert ExtOf(part) == "part" && StemOf(path) == Fold(stem) && ExtOf(path) == Ext(opts.format) by {
      NameParts(stem, opts.format);
    }
    assert EntriesOwned(files', finished', recorded) by {
      PathIsFreeOfRecorded(files, finished, recorded, taken, opts, talker, stem);
      EntriesSurvive(files, files', finished, finished', recorded, path, part, talker);
    }
    assert EntriesOwned(files', finished', acc) by {
      PathIsFreeOfRows(files, finished, recorded, acc, taken, opts, talker, stem);
      EntriesSurvive(files, files', finished, finished', acc, path, part, talker);
    }
    IndexUntouched(files, files', path, part);
    NamesStay(recorded, acc, taken, taken', opts);
    if !opts.resume {
      assert path != INDEX by { IndexNames(); }
      assert ExtOf(path) != "part" by { assert |Ext(opts.format)| > 4 || Ext(opts.format)[0] == 'j'; }
      NothingClobbered(start, files, files', finished, finished', recorded, done, path, part, talker);
      NewNamesStayTaken(start, files, files', taken, taken', path, part);
    }
  }

  lemma NamesStay(recorded: Entries, acc: Entries, taken: set<string>, taken': set<string>, opts: Options)
    requires RowsNamed(recorded, acc, taken, opts) && taken <= taken'
    ensures RowsNamed(recorded, acc, taken', opts)
  {
  }

  lemma NewNamesStayTaken(start: Files, files: Files, files': Files, taken: set<string>, taken': set<string>,
                          path: string, part: string)
    requires NewNamesTaken(start, files, taken) && taken <= taken'
    requires SameExcept(files, files', path, part) && StemOf(path) in taken' && ExtOf(part) == "part"
    ensures NewNamesTaken(start, files', taken')
  {
  }

  lemma IndexUntouched(files: Files, files': Files, path: string, part: string)
    requires SameExcept(files, files', path, part)
    requires StemOf(path) != "index" && ExtOf(part) == "part"
    ensures PreviousIndex(files') == PreviousIndex(files)
  {
    IndexNames();
    assert INDEX != path && INDEX != part;
  }

  /** A target is refused, or given up with at most its part file touched. */
  lemma PartKeepsRound(start: Files, files: Files, files': Files, finished: set<Delivery>,
                       recorded: Entries, acc: Entries, taken: set<string>, taken': set<string>,
                       done: set<string>, done': set<string>, opts: Options, part: string)
    requires RoundInv(start, files, finished, recorded, acc, taken, done, opts)
    requires taken <= taken' && done <= done' && ExtOf(part) == "part"
    requires SameExcept(files, files', part, part)
    ensures RoundInv(start, files', finished, recorded, acc, taken', done', opts)
  {
    PartSurvives(files, files', finished, recorded, part);
    PartSurvives(files, files', finished, acc, part);
    IndexNames();
    assert INDEX != part;
    NamesGrow(recorded, acc, taken, taken', opts);
    if !opts.resume {
      PartNamesNot(start, files, files', taken, taken', part);
      PartClobbersNot(start, files, files', finished, recorded, done, done', part);
    }
  }

  lemma NamesGrow(recorded: Entries, acc: Entries, taken: set<string>, taken': set<string>, opts: Options)
    requires RowsNamed(recorded, acc, taken, opts) && taken <= taken'
    ensures RowsNamed(recorded, acc, taken', opts)
  {
  }

  lemma PartNamesNot(start: Files, files: Files, files': Files, taken: set<string>, taken': set<string>, part: string)
    requires NewNamesTaken(start, files, taken) && taken <= taken'
    requires ExtOf(part) == "part" && SameExcept(files, files', part, part)
    ensures NewNamesTaken(start, files', taken')
  {
  }

  lemma PartClobbersNot(start: Files, files: Files, files': Files, finished: set<Delivery>, recorded: Entries,
                        done: set<string>, done': set<string>, part: string)
    requires NotClobbered(start, files, finished, recorded, done) && done <= done'
    requires ExtOf(part) == "part" && SameExcept(files, files', part, part)
    ensures NotClobbered(start, files', finished, recorded, done')
  {
    forall k | k in start && k != INDEX && ExtOf(k) != "part"
      ensures (k in files' && files'[k] == start[k]) || RewrittenByOwner(files', finished, recorded, done', k)
    {
      if k in files' && RewrittenByOwner(files, finished, recorded, done, k) {
        var d :| d in finished && d.target.talker in done && Owns(recorded, d.target.talker, k)
                 && files[k] == Document(Render(d));
        assert d.target.talker in done';
      }
    }
  }

  lemma PartSurvives(files: Files, files': Files, finished: set<Delivery>, entries: Entries, part: string)
    requires EntriesOwned(files, finished, entries) && ExtOf(part) == "part"
    requires SameExcept(files, files', part, part)
    ensures EntriesOwned(files', finished, entries)
  {
    PartIsNoEntry(files, finished, entries, part);
    forall t | t in entries ensures Holds(files', finished, entries[t]) {
      assert Holds(files, finished, entries[t]);
      assert Fold(entries[t].file) in files';
    }
  }

  lemma PartIsNoEntry(files: Files, finished: set<Delivery>, entries: Entries, part: string)
    requires EntriesOwned(files, finished, entries) && ExtOf(part) == "part"
    ensures forall t :: t in entries ==> Fold(entries[t].file) != part
  {
    var f :| OneFormat(entries, f);
    forall t | t in entries ensures Fold(entries[t].file) != part {
      EntryKey(entries, f, t);
    }
  }

  lemma NothingClobbered(start: Files, files: Files, files': Files, finished: set<Delivery>, finished': set<Delivery>,
                         recorded: Entries, done: set<string>, path: string, part: string, talker: string)
    requires NotClobbered(start, files, finished, recorded, done) && finished <= finished'
    requires ExtOf(part) == "part" && ExtOf(path) != "part" && path != INDEX
    requires SameExcept(files, files', path, part)
    requires OnlyDelivers(files, files', finished', path, talker)
    requires path !in files || Owns(recorded, talker, path) || (path in files' && files'[path] == files[path])
    ensures NotClobbered(start, files', finished', recorded, done + {talker})
  {
    forall k | k in start && k != INDEX && ExtOf(k) != "part"
      ensures (k in files' && files'[k] == start[k])
              || RewrittenByOwner(files', finished', recorded, done + {talker}, k)
    {
      if k in files' && files'[k] == files[k] && RewrittenByOwner(files, finished, recorded, done, k) {
        var d :| d in finished && d.target.talker in done && Owns(recorded, d.target.talker, k)
                 && files[k] == Document(Render(d));
        assert d in finished' && d.target.talker in done + {talker};
      }
    }
  }

  /** A row joins the new index: it holds, and its file is no other row's. */
  lemma RowJoins(start: Files, files: Files, finished: set<Delivery>, recorded: Entries, acc: Entries,
                 taken: set<string>, done: set<string>, opts: Options, r: IndexRow)
    requires RoundInv(start, files, finished, recorded, acc, taken, done, opts)
    requires Holds(files, finished, r) && RowNamed(recorded, taken, opts, r)
    requires forall u :: u in acc && u != r.talker ==> Fold(acc[u].file) != Fold(r.file)
    requires !opts.resume ==> r.talker in done || (r.talker in recorded && r == recorded[r.talker])
    ensures RoundInv(start, files, finished, recorded, acc[r.talker := r], taken, done, opts)
  {
    RowsStayNamed(recorded, acc, taken, opts, r);
    OwnedRowJoins(files, finished, acc, opts.format, r);
  }

  predicate RowNamed(recorded: Entries, taken: set<string>, opts: Options, r: IndexRow) {
    && r.file == PathName(StemOf(r.file), opts.format)
    && FoldedStem(r) in taken && FoldedStem(r) != "index"
    && (opts.resume ==> if KeepsStem(recorded, r.talker) then FoldedStem(r) == FoldedStem(recorded[r.talker])
                        else FoldedStem(r) !in PrevStems(recorded))
  }

  lemma RowsStayNamed(recorded: Entries, acc: Entries, taken: set<string>, opts: Options, r: IndexRow)
    requires RowsNamed(recorded, acc, taken, opts) && RowNamed(recorded, taken, opts, r)
    ensures RowsNamed(recorded, acc[r.talker := r], taken, opts)
  {
  }

  lemma OwnedRowJoins(files: Files, finished: set<Delivery>, acc: Entries, f: Format, r: IndexRow)
    requires EntriesOwned(files, finished, acc) && OneFormat(acc, f)
    requires Holds(files, finished, r) && r.file == PathName(StemOf(r.file), f)
    requires forall u :: u in acc && u != r.talker ==> Fold(acc[u].file) != Fold(r.file)
    ensures EntriesOwned(files, finished, acc[r.talker := r])
  {
    assert OneFormat(acc[r.talker := r], f);
  }

  // ---- The directory and what one target does to it ----

  /** The stem a target is given, and the folded names taken after it. */
  function StemFor(recorded: Entries, t: Target, taken: set<string>, opts: Options): string {
    if opts.resume && KeepsStem(recorded, t.talker) then StemOf(recorded[t.talker].file) else NameFor(t, taken)
  }

  function TakenWith(recorded: Entries, t: Target, taken: set<string>, opts: Options): set<string> {
    if opts.resume && KeepsStem(recorded, t.talker) then taken + {FoldedStem(recorded[t.talker])}
    else taken + {"index", Fold(NameFor(t, taken))}
  }

  /** May the artifact of a resumed round stand for this round's export of `talker`? */
  predicate CanReuse(files: Files, recorded: Entries, talker: string, stem: string, opts: Options) {
    && Path(stem, opts.format) in files
    && talker in recorded && recorded[talker].file == PathName(stem, opts.format)
    && Part(stem, opts.format) !in files
    && (opts.withMedia ==> recorded[talker].withMedia)
    && FileIsComplete(files[Path(stem, opts.format)], opts.format)
  }

  /** Is a target refused: a fresh round finds its name to be a file that is not its own? */
  predicate Refuses(files: Files, recorded: Entries, talker: string, file: string, opts: Options) {
    !opts.resume && Fold(file) in files && !Owns(recorded, talker, Fold(file))
  }

  /** Does an export of `talker` begin: is it neither refused nor its artifact reused? */
  predicate Attempts(files: Files, recorded: Entries, talker: string, stem: string, opts: Options) {
    && !Refuses(files, recorded, talker, PathName(stem, opts.format), opts)
    && !(opts.resume && CanReuse(files, recorded, talker, stem, opts))
  }

  /** How the environment lets one session's export go. */
  datatype Ending =
    | BeginFails | HeaderFails | HeaderLeaks | FetchFails | FetchLeaks
    | FinishFails | FinishLeaks | RenameFails | Completes

  /** `torn`: what a part file holds while it is written; `cleans`: whether removing it succeeds. */
  datatype Fate = Fate(ending: Ending, pages: seq<seq<Row>>, torn: string, cleans: bool)

  predicate Leaks(fate: Fate) { fate.ending in {HeaderLeaks, FetchLeaks, FinishLeaks} }

  datatype IndexFate = IndexLeaks | IndexWriteFails | IndexRenameFails | IndexWritten

  datatype Status = Delivered(messages: nat) | Skipped | Aborted | Stopped

  /** The fetch: page by page through the session's writer. */
  method Collect(target: Target, format: Format, pages: seq<seq<Row>>) returns (n: nat, doc: Doc)
    ensures doc == Render(Delivery(target, format, pages)) && n == |RowsOf(doc)|
  {
    var w := new SessionWriter(target, format);
    for i := 0 to |pages|
      invariant w.Valid() && w.pages == pages[..i] && fresh(w)
    {
      w.Page(pages[i]);
      assert pages[..i + 1] == pages[..i] + [pages[i]];
    }
    assert pages[..|pages|] == pages;
    n, doc := w.Finish();
  }

  class ExportDir {
    var files: Files
    var fuel: nat
    ghost var finished: set<Delivery>

    constructor (files: Files)
      ensures this.files == files && finished == {}
    {
      this.files, fuel, finished := files, 0, {};
    }

    method Put(key: string, c: Content) returns (alive: bool)
      modifies this`files, this`fuel
      ensures files == if alive then old(files)[key := c] else old(files)
      ensures alive == (old(fuel) > 0) && fuel == if alive then old(fuel) - 1 else 0
    {
      alive := fuel > 0;
      if alive { fuel := fuel - 1; files := files[key := c]; }
    }

    /** `let _ = remove_file(..)`: a failed removal is ignored. */
    method Discard(key: string, cleans: bool) returns (alive: bool)
      modifies this`files, this`fuel
      ensures files == if alive && cleans then old(files) - {key} else old(files)
      ensures alive == (old(fuel) > 0) && fuel == if alive then old(fuel) - 1 else 0
    {
      alive := fuel > 0;
      if alive {
        fuel := fuel - 1;
        if cleans { files := files - {key}; }
      }
    }

    method Rename(from: string, to: string) returns (alive: bool)
      requires from in files && from != to
      modifies this`files, this`fuel
      ensures files == if alive then (old(files) - {from})[to := old(files)[from]] else old(files)
      ensures alive == (old(fuel) > 0) && fuel == if alive then old(fuel) - 1 else 0
    {
      alive := fuel > 0;
      if alive {
        fuel := fuel - 1;
        var c := files[from];
        files := files - {from};
        files := files[to := c];
      }
    }

    /** `begin`, the fetch and `finish` of one session: its path changes only by the final rename, and
        then to the complete document of everything the fetch handed over. */
    method ExportSession(target: Target, path: string, part: string, format: Format, fate: Fate) returns (s: Status)
      requires path != part
      modifies this
      ensures s.Delivered? ==>
                var d := Delivery(target, format, fate.pages);
                && SameExcept(old(files), files, path, part)
                && path in files && files[path] == Document(Render(d)) && part !in files
                && finished == old(finished) + {d}
                && s.messages == |RowsOf(Render(d))|
                && fate.ending == Completes
      ensures !s.Delivered? ==> SameExcept(old(files), files, part, part) && finished == old(finished)
      ensures s.Stopped? ==> fuel == 0 && old(fuel) < 4
      ensures fuel + 4 >= old(fuel)
      ensures s.Skipped? ==> !fate.ending.Completes?
      ensures s.Aborted? ==> Leaks(fate)
    {
      var lines := format.Jsonl?;
      if fate.ending.BeginFails? { return Skipped; }
      if lines {
        var alive := Put(part, Raw(fate.torn));
        if !alive { return Stopped; }
        if fate.ending in {HeaderFails, HeaderLeaks} {
          s := GiveUp(part, fate, HeaderLeaks);
          return;
        }
      }
      var n, doc := Collect(target, format, fate.pages);
      if fate.ending in {FetchFails, FetchLeaks} {
        s := GiveUp(part, fate, FetchLeaks);
        return;
      }
      if !lines && fate.ending.FinishLeaks? {
        s := GiveUp(part, fate, FinishLeaks);
        return;
      }
      s := FinishSession(target, path, part, format, fate, n, doc);
    }

    /** `finish`: the document is written to the part file, which then takes the artifact's name. */
    method FinishSession(target: Target, path: string, part: string, format: Format, fate: Fate, n: nat, doc: Doc)
      returns (s: Status)
      requires path != part
      requires doc == Render(Delivery(target, format, fate.pages))
      modifies this
      ensures s.Delivered? ==>
                && SameExcept(old(files), files, path, part)
                && path in files && files[path] == Document(doc) && part !in files
                && finished == old(finished) + {Delivery(target, format, fate.pages)}
                && s.messages == n && fate.ending == Completes
      ensures !s.Delivered? ==> SameExcept(old(files), files, part, part) && finished == old(finished)
      ensures s.Stopped? ==> fuel == 0 && old(fuel) < 3
      ensures fuel + 3 >= old(fuel)
      ensures s.Skipped? ==> !fate.ending.Completes?
      ensures s.Aborted? ==> Leaks(fate)
    {
      var alive := Put(part, Raw(fate.torn));
      if !alive { return Stopped; }
      if fate.ending.FinishFails? {
        s := GiveUp(part, fate, FinishLeaks);
        return;
      }
      alive := Put(part, Document(doc));
      if !alive { return Stopped; }
      if !fate.ending.Completes? {
        s := GiveUp(part, fate, FinishLeaks);
        return;
      }
      alive := Rename(part, path);
      if !alive { return Stopped; }
      finished := finished + {Delivery(target, format, fate.pages)};
      s := Delivered(n);
    }

    /** The failure path: drop the part file, then abort on a leak and skip otherwise. */
    method GiveUp(part: string, fate: Fate, leak: Ending) returns (s: Status)
      modifies this`files, this`fuel
      ensures SameExcept(old(files), files, part, part)
      ensures s in {Stopped, if fate.ending == leak then Aborted else Skipped}
      ensures s.Stopped? <==> old(fuel) == 0
      ensures s.Stopped? ==> fuel == 0
      ensures fuel + 1 >= old(fuel)
    {
      var alive := Discard(part, fate.cleans);
      if !alive { return Stopped; }
      s := if fate.ending == leak then Aborted else Skipped;
    }

    /** The stem of one target: the recorded one on resume, a fresh one otherwise. */
    static method PickStem(recorded: Entries, target: Target, taken: set<string>, opts: Options)
      returns (stem: string, taken': set<string>)
      ensures stem == StemFor(recorded, target, taken, opts) && taken' == TakenWith(recorded, target, taken, opts)
      ensures Picked(recorded, taken, target.talker, stem, opts)
      ensures taken <= taken' && Fold(stem) in taken'
    {
      if opts.resume && target.talker in recorded {
        stem := StemOf(recorded[target.talker].file);
        if Fold(stem) == "index" {
          stem, taken' := FileNameFor(target, taken);
        } else {
          taken' := taken + {Fold(stem)};
        }
      } else {
        stem, taken' := FileNameFor(target, taken);
      }
    }

    method Reusable(recorded: Entries, talker: string, stem: string, opts: Options) returns (ok: bool)
      ensures ok <==> CanReuse(files, recorded, talker, stem, opts)
    {
      var path := Path(stem, opts.format);
      if path !in files { return false; }
      var named := talker in recorded && recorded[talker].file == PathName(stem, opts.format);
      var mediaKept := !opts.withMedia || (talker in recorded && recorded[talker].withMedia);
      ok := named && Part(stem, opts.format) !in files && mediaKept && FileIsComplete(files[path], opts.format);
    }

    /** The index is written beside and renamed over, so it is the old one or the new one. */
    method WriteIndex(rows: seq<IndexRow>, fate: IndexFate) returns (written: bool)
      modifies this`files, this`fuel
      ensures written ==> SameExcept(old(files), files, INDEX, INDEX_PART)
                          && INDEX in files && files[INDEX] == IndexDoc(rows) && fate.IndexWritten?
      ensures !written ==> SameExcept(old(files), files, INDEX_PART, INDEX_PART)
                           && (fate.IndexWritten? ==> fuel == 0 && old(fuel) < 3)
      ensures !fate.IndexWritten? ==> !written && fuel + 2 >= old(fuel)
    {
      if fate.IndexLeaks? { return false; }
      var alive := Put(INDEX_PART, Raw(""));
      if !alive || fate.IndexWriteFails? { return false; }
      alive := Put(INDEX_PART, IndexDoc(rows));
      if !alive || fate.IndexRenameFails? { return false; }
      written := Rename(INDEX_PART, INDEX);
    }
  }

  // ---- A whole round ----

  datatype Action = Refused | Reused | GivenUp | Wrote(messages: nat)

  /** What the round did about one target, and with which file; `before` is the directory as its turn found it. */
  datatype Step = Step(talker: string, file: string, action: Action, before: Files)

  function PartOf(file: string): string { Fold(file + ".part") }

  /** What a turn does to the directory: nothing if refused or reused, at most its part file if given up, and a
      written artifact replaces the file, with no part file left. */
  ghost predicate Turned(s: Step, d: Delivery, after: Files) {
    match s.action
    case Refused => after == s.before
    case Reused => after == s.before
    case GivenUp => SameExcept(s.before, after, PartOf(s.file), PartOf(s.file))
    case Wrote(_) =>
      && SameExcept(s.before, after, Fold(s.file), PartOf(s.file)) && PartOf(s.file) !in after
      && Fold(s.file) in after && after[Fold(s.file)] == Document(Render(d))
  }

  /** The step a target is answered with, as the directory before it and the way its export goes decide. */
  ghost predicate Answers(s: Step, recorded: Entries, target: Target, taken: set<string>, fate: Fate, opts: Options) {
    var stem := StemFor(recorded, target, taken, opts);
    && s.talker == target.talker && s.file == PathName(stem, opts.format)
    && (s.action.Refused? <==> Refuses(s.before, recorded, s.talker, s.file, opts))
    && (s.action.Reused? <==> opts.resume && CanReuse(s.before, recorded, s.talker, stem, opts))
    && (s.action.GivenUp? ==> !fate.ending.Completes?)
    && (s.action.Wrote? ==>
          fate.ending.Completes?
          && s.action.messages == |RowsOf(Render(Delivery(target, opts.format, fate.pages)))|)
  }

  function Written(steps: seq<Step>): seq<string> {
    if steps == [] then []
    else
      var s := steps[|steps| - 1];
      Written(steps[..|steps| - 1]) + if s.action.Wrote? then [s.file] else []
  }

  function ReusedTalkers(steps: seq<Step>): seq<string> {
    if steps == [] then []
    else
      var s := steps[|steps| - 1];
      ReusedTalkers(steps[..|steps| - 1]) + if s.action.Reused? then [s.talker] else []
  }

  function Messages(steps: seq<Step>): nat {
    if steps == [] then 0
    else
      var s := steps[|steps| - 1];
      Messages(steps[..|steps| - 1]) + if s.action.Wrote? then s.action.messages else 0
  }

  /** A refused session is listed once, a given up one each time. */
  function SkippedTalkers(steps: seq<Step>): seq<string> {
    if steps == [] then []
    else
      var s, before := steps[|steps| - 1], SkippedTalkers(steps[..|steps| - 1]);
      if s.action.GivenUp? || (s.action.Refused? && s.talker !in before) then before + [s.talker] else before
  }

  datatype Outcome = Outcome(written: seq<string>, reused: seq<string>, skipped: seq<string>, messages: nat)

  /** `Failed`: a leak, or the index could not be replaced; `Interrupted`: the process stopped. */
  datatype Result = Completed(outcome: Outcome) | Failed | Interrupted

  function Talkers(targets: seq<Target>): set<string> { set t | t in targets :: t.talker }

  /** The rows one step adds to the new index: a written artifact's, a reused one's as recorded, and for a
      refused target the row of the name's owner, once. */
  ghost function Added(recorded: Entries, rows: seq<IndexRow>, target: Target, opts: Options, s: Step): seq<IndexRow> {
    match s.action
    case Wrote(n) => [IndexRow(s.talker, s.file, n, target.displayName, opts.withMedia)]
    case Reused => if s.talker in recorded then [recorded[s.talker]] else []
    case GivenUp => []
    case Refused =>
      if exists o :: o in recorded && Owns(recorded, o, Fold(s.file)) then
        var o :| o in recorded && Owns(recorded, o, Fold(s.file));
        if exists r :: r in rows && r.talker == o then [] else [recorded[o]]
      else []
  }

  /** The rows of the index a round writes. */
  ghost function IndexRows(recorded: Entries, targets: seq<Target>, opts: Options, steps: seq<Step>): seq<IndexRow>
    requires |steps| <= |targets|
    decreases |steps|
  {
    if steps == [] then []
    else
      var n := |steps| - 1;
      var before := IndexRows(recorded, targets, opts, steps[..n]);
      before + Added(recorded, before, targets[n], opts, steps[n])
  }

  /** A fresh round starts a session only on a name that was free or its own, and refuses the rest. */
  ghost predicate FreshStep(start: Files, recorded: Entries, s: Step) {
    match s.action
    case Refused => Fold(s.file) in start && !Owns(recorded, s.talker, Fold(s.file))
    case Reused => false
    case _ => Fold(s.file) !in start || Owns(recorded, s.talker, Fold(s.file))
  }

  ghost predicate ResumeStep(recorded: Entries, s: Step) {
    && !s.action.Refused?
    && (s.action.Reused? ==> Owns(recorded, s.talker, Fold(s.file)))
    && (KeepsStem(recorded, s.talker) ==> StemOf(s.file) == StemOf(recorded[s.talker].file))
  }

  ghost predicate StepsOk(start: Files, recorded: Entries, acc: Entries, steps: seq<Step>, skipped: seq<string>,
                          opts: Options)
  {
    && (forall s :: s in steps ==> if opts.resume then ResumeStep(recorded, s) else FreshStep(start, recorded, s))
    && (forall s :: s in steps ==>
          s.talker in (if s.action.Wrote? || s.action.Reused? then acc.Keys else set x | x in skipped))
    && (forall s, o :: s in steps && s.action.Refused? && Owns(recorded, o, Fold(s.file)) ==> o in acc)
  }
}

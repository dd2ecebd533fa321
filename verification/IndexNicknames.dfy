/** Global nicknames after incremental passes: when they are those of a rebuild, and when not. */
module IndexNicknames {
  import opened Chats
  import opened Optional
  import opened Records
  import opened IndexSync
  import opened IndexRebuild

  /** The nicknames left by applying records in order. */
  function Nicks(nicks: map<string, string>, recs: seq<Record>): map<string, string>
    decreases |recs|
  {
    if recs == [] then nicks else Nicks(NicksAfter(nicks, recs[0]), recs[1..])
  }

  lemma {:induction false} ApplyAllNicks(ix: Index, recs: seq<Record>)
    ensures ApplyAll(ix, recs).nicks == Nicks(ix.nicks, recs)
    decreases |recs|
  {
    if recs != [] {
      ApplyAllNicks(Apply(ix, recs[0]), recs[1..]);
    }
  }

  lemma {:induction false} NicksConcat(nicks: map<string, string>, xs: seq<Record>, ys: seq<Record>)
    ensures Nicks(nicks, xs + ys) == Nicks(Nicks(nicks, xs), ys)
    decreases |xs|
  {
    if xs == [] {
      assert xs + ys == ys;
    } else {
      NicksConcat(NicksAfter(nicks, xs[0]), xs[1..], ys);
      assert (xs + ys)[0] == xs[0] && (xs + ys)[1..] == xs[1..] + ys;
    }
  }

  /** The last nickname the records give a uid, if any does. */
  function LastNick(recs: seq<Record>, uid: string): Option<string> {
    if recs == [] then None
    else
      var last := recs[|recs| - 1];
      if last.uid == uid && last.nick != "" then Some(last.nick) else LastNick(recs[..|recs| - 1], uid)
  }

  predicate Names(recs: seq<Record>, uid: string) {
    exists i :: 0 <= i < |recs| && recs[i].uid == uid && recs[i].nick != ""
  }

  lemma {:induction false} LastNickNames(recs: seq<Record>, uid: string)
    ensures LastNick(recs, uid).Some? <==> Names(recs, uid)
  {
    if recs != [] {
      var init := recs[..|recs| - 1];
      LastNickNames(init, uid);
      if Names(init, uid) {
        var i :| 0 <= i < |init| && init[i].uid == uid && init[i].nick != "";
        assert recs[i].uid == uid && recs[i].nick != "";
      }
      if i :| 0 <= i < |recs| && recs[i].uid == uid && recs[i].nick != "" {
        assert i < |init| ==> init[i] == recs[i];
      }
    }
  }

  function Lookup(nicks: map<string, string>, uid: string): Option<string> {
    if uid in nicks then Some(nicks[uid]) else None
  }

  /** A lookup gives the last nickname. */
  lemma {:induction false} NicksAreLast(recs: seq<Record>, uid: string)
    ensures Lookup(Nicks(map[], recs), uid) == LastNick(recs, uid)
  {
    if recs != [] {
      var n := |recs| - 1;
      assert recs == recs[..n] + [recs[n]];
      NicksConcat(map[], recs[..n], [recs[n]]);
      assert [recs[n]][1..] == [];
      NicksAreLast(recs[..n], uid);
    }
  }

  function Else(a: Option<string>, b: Option<string>): Option<string> { if a.Some? then a else b }

  lemma {:induction false} LastNickConcat(xs: seq<Record>, ys: seq<Record>, uid: string)
    ensures LastNick(xs + ys, uid) == Else(LastNick(ys, uid), LastNick(xs, uid))
  {
    if ys == [] {
      assert xs + ys == xs;
    } else {
      var n := |ys| - 1;
      assert (xs + ys)[..|xs + ys| - 1] == xs + ys[..n] && (xs + ys)[|xs + ys| - 1] == ys[n];
      LastNickConcat(xs, ys[..n], uid);
    }
  }

  // ---- The order a run applies its records in ----

  /** What one complete read applied: its group records, then its direct ones. */
  datatype Batch = Batch(group: seq<Record>, c2c: seq<Record>)

  function InOrder(bs: seq<Batch>): seq<Record> {
    if bs == [] then [] else InOrder(bs[..|bs| - 1]) + bs[|bs| - 1].group + bs[|bs| - 1].c2c
  }

  function Groups(bs: seq<Batch>): seq<Record> {
    if bs == [] then [] else Groups(bs[..|bs| - 1]) + bs[|bs| - 1].group
  }

  function Directs(bs: seq<Batch>): seq<Record> {
    if bs == [] then [] else Directs(bs[..|bs| - 1]) + bs[|bs| - 1].c2c
  }

  /** Some group row names the uid in a read after which (and in which) no direct row does. */
  predicate GroupNamesLater(bs: seq<Batch>, uid: string) {
    exists i :: 0 <= i < |bs| && Names(bs[i].group, uid) && forall j :: i <= j < |bs| ==> !Names(bs[j].c2c, uid)
  }

  lemma GroupNamesLaterSnoc(bs: seq<Batch>, b: Batch, uid: string)
    ensures GroupNamesLater(bs + [b], uid) <==>
            !Names(b.c2c, uid) && (Names(b.group, uid) || GroupNamesLater(bs, uid))
  {
    var all := bs + [b];
    if GroupNamesLater(all, uid) {
      var i :| 0 <= i < |all| && Names(all[i].group, uid) && forall j :: i <= j < |all| ==> !Names(all[j].c2c, uid);
      assert !Names(all[|bs|].c2c, uid);
      if i < |bs| {
        assert forall j :: i <= j < |bs| ==> bs[j] == all[j];
        assert Names(bs[i].group, uid);
      }
    }
    if !Names(b.c2c, uid) && Names(b.group, uid) {
      assert all[|bs|] == b;
    } else if !Names(b.c2c, uid) && GroupNamesLater(bs, uid) {
      var i :| 0 <= i < |bs| && Names(bs[i].group, uid) && forall j :: i <= j < |bs| ==> !Names(bs[j].c2c, uid);
      assert Names(all[i].group, uid) && forall j :: i <= j < |all| ==> !Names(all[j].c2c, uid);
    }
  }

  /** Whose last word it is. */
  lemma {:induction false} LastOfBatches(bs: seq<Batch>, uid: string)
    ensures LastNick(InOrder(bs), uid)
         == if GroupNamesLater(bs, uid) then LastNick(Groups(bs), uid)
            else Else(LastNick(Directs(bs), uid), LastNick(Groups(bs), uid))
    ensures GroupNamesLater(bs, uid) ==> LastNick(Groups(bs), uid).Some?
  {
    if bs != [] {
      var init, b := bs[..|bs| - 1], bs[|bs| - 1];
      assert bs == init + [b];
      LastOfBatches(init, uid);
      GroupNamesLaterSnoc(init, b, uid);
      LastNickNames(b.group, uid);
      LastNickNames(b.c2c, uid);
      LastNickConcat(InOrder(init) + b.group, b.c2c, uid);
      LastNickConcat(InOrder(init), b.group, uid);
      LastNickConcat(Groups(init), b.group, uid);
      LastNickConcat(Directs(init), b.c2c, uid);
    }
  }

  function Read(t: Tables, now: Tables): Batch
    requires t.group <= now.group && t.c2c <= now.c2c
  {
    Batch(RecordsOf(Group, now.group[|t.group|..]), RecordsOf(C2c, now.c2c[|t.c2c|..]))
  }

  /** The batches of a run that has applied `bs` and seen `t` so far. */
  ghost function BatchesFrom(bs: seq<Batch>, t: Tables, steps: seq<Step>): seq<Batch>
    requires Grows(t, steps)
    decreases |steps|
  {
    if steps == [] then bs
    else BatchesFrom(if Reads(steps[0]) then bs + [Read(t, Seen(t, steps[0]))] else bs, Seen(t, steps[0]), steps[1..])
  }

  /** The build's batch, then one for every pass that read both tables. */
  ghost function Batches(t: Tables, steps: seq<Step>): seq<Batch>
    requires Grows(t, steps)
  {
    BatchesFrom([Batch(RecordsOf(Group, t.group), RecordsOf(C2c, t.c2c))], t, steps)
  }

  ghost predicate Applied(s: Sync, t: Tables, bs: seq<Batch>) {
    && s.index.nicks == Nicks(map[], InOrder(bs))
    && Groups(bs) == RecordsOf(Group, t.group) && Directs(bs) == RecordsOf(C2c, t.c2c)
  }

  lemma PassApplies(s: Sync, t: Tables, now: Tables, bs: seq<Batch>)
    requires InStep(s, t) && Applied(s, t, bs) && Appended(t, now) && Rising(now.group) && Rising(now.c2c)
    ensures Applied(Poll(s, Some(now.group), Some(now.c2c)), now, bs + [Read(t, now)])
  {
    ReadsTheNewRows(Group, t.group, now.group);
    ReadsTheNewRows(C2c, t.c2c, now.c2c);
    var b := Read(t, now);
    ApplyAllNicks(s.index, b.group);
    ApplyAllNicks(ApplyAll(s.index, b.group), b.c2c);
    NicksConcat(map[], InOrder(bs), b.group);
    NicksConcat(map[], InOrder(bs) + b.group, b.c2c);
    assert (bs + [b])[..|bs|] == bs;
  }

  lemma {:induction false} RunApplies(s: Sync, t: Tables, bs: seq<Batch>, steps: seq<Step>)
    requires InStep(s, t) && Grows(t, steps) && Applied(s, t, bs)
    ensures Applied(Run(s, steps), LastSeen(t, steps), BatchesFrom(bs, t, steps))
    decreases |steps|
  {
    if steps != [] {
      var now := Seen(t, steps[0]);
      assert Grows(now, steps[1..]);
      StepKeeps(s, t, steps[0]);
      if Reads(steps[0]) {
        PassApplies(s, t, now, bs);
        RunApplies(Next(s, steps[0]), now, bs + [Read(t, now)], steps[1..]);
      } else {
        RunApplies(Next(s, steps[0]), now, bs, steps[1..]);
      }
    }
  }

  lemma BuiltApplies(t: Tables)
    ensures var b := Batch(RecordsOf(Group, t.group), RecordsOf(C2c, t.c2c));
            Applied(Built(t.group, t.c2c), t, [b])
  {
    var b := Batch(RecordsOf(Group, t.group), RecordsOf(C2c, t.c2c));
    assert [b][..0] == [];
    assert [] + b.group == b.group && [] + b.c2c == b.c2c;
    ApplyAllNicks(EMPTY, b.group + b.c2c);
  }

  /** No direct row names the uid, or no group row naming it was read after the last direct row that does, or
      the last names the two tables give it are the same. */
  ghost predicate OrderIsHarmless(t: Tables, steps: seq<Step>, uid: string)
    requires Grows(t, steps)
  {
    var groups, directs := RecordsOf(Group, LastSeen(t, steps).group), RecordsOf(C2c, LastSeen(t, steps).c2c);
    || !Names(directs, uid)
    || !GroupNamesLater(Batches(t, steps), uid)
    || LastNick(groups, uid) == LastNick(directs, uid)
  }

  /** For every run and every uid: its nickname is the one a rebuild from the tables last seen would give if and
      only if the order the tables were read in is harmless for it. */
  lemma NicknameAgreesExactlyWhen(t: Tables, steps: seq<Step>, uid: string)
    requires Grows(t, steps)
    ensures var s, now := Run(Built(t.group, t.c2c), steps), LastSeen(t, steps);
      Lookup(s.index.nicks, uid) == Lookup(Built(now.group, now.c2c).index.nicks, uid) <==>
      OrderIsHarmless(t, steps, uid)
  {
    var s, now := Run(Built(t.group, t.c2c), steps), LastSeen(t, steps);
    var groups, directs := RecordsOf(Group, now.group), RecordsOf(C2c, now.c2c);
    BuiltInStep(t);
    BuiltApplies(t);
    RunApplies(Built(t.group, t.c2c), t, [Batch(RecordsOf(Group, t.group), RecordsOf(C2c, t.c2c))], steps);
    NicksAreLast(InOrder(Batches(t, steps)), uid);
    LastOfBatches(Batches(t, steps), uid);
    ApplyAllNicks(EMPTY, groups + directs);
    NicksAreLast(groups + directs, uid);
    LastNickConcat(groups, directs, uid);
    LastNickNames(directs, uid);
  }

  /** And the whole table of nicknames is the rebuild's if and only if that holds of every uid. */
  lemma NicknamesAgreeExactlyWhen(t: Tables, steps: seq<Step>)
    requires Grows(t, steps)
    ensures var s, now := Run(Built(t.group, t.c2c), steps), LastSeen(t, steps);
      s.index.nicks == Built(now.group, now.c2c).index.nicks <==> forall uid :: OrderIsHarmless(t, steps, uid)
  {
    var s, now := Run(Built(t.group, t.c2c), steps), LastSeen(t, steps);
    var a, b := s.index.nicks, Built(now.group, now.c2c).index.nicks;
    forall uid ensures Lookup(a, uid) == Lookup(b, uid) <==> OrderIsHarmless(t, steps, uid) {
      NicknameAgreesExactlyWhen(t, steps, uid);
    }
    if forall uid :: OrderIsHarmless(t, steps, uid) {
      SameLookups(a, b);
    }
  }

  lemma SameLookups(a: map<string, string>, b: map<string, string>)
    requires forall uid :: Lookup(a, uid) == Lookup(b, uid)
    ensures a == b
  {
    forall uid ensures uid in a <==> uid in b
      ensures uid in a ==> a[uid] == b[uid]
    {
      assert Lookup(a, uid) == Lookup(b, uid);
    }
  }

  // ---- The shortest run on which they differ ----

  const TEXT := Parsed(Other, "", None)

  function RowOf(rowid: int, nick: string): Row {
    Readable(rowid, "u", 0, "u", nick, TEXT, None, None, None, None)
  }

  lemma OneRow(chat: ChatType, row: Row)
    requires row.Readable?
    ensures RecordsOf(chat, [row]) == [ToRecord(chat, row)]
  {
    assert [row][1..] == [];
  }

  lemma OneNick(nicks: map<string, string>, rec: Record)
    ensures Nicks(nicks, [rec]) == NicksAfter(nicks, rec)
  {
    assert [rec][1..] == [];
  }

  lemma RebuildNick(d: Record, g: Record)
    requires d.uid == g.uid && d.nick != "" && g.nick != ""
    ensures SortAll(ApplyAll(EMPTY, [g] + [d])).nicks == map[d.uid := d.nick]
  {
    ApplyAllConcat(EMPTY, [g], [d]);
    ApplyAllNicks(EMPTY, [g]);
    ApplyAllNicks(ApplyAll(EMPTY, [g]), [d]);
    OneNick(map[], g);
    OneNick(NicksAfter(map[], g), d);
  }

  lemma PassNick(s: Sync, group: Row, direct: Row)
    requires s.wmGroup < group.rowid && direct.rowid <= s.wmC2c && !s.stopped && group.Readable?
    ensures Next(s, Pass(Some([group]), Some([direct]))).index.nicks
         == NicksAfter(s.index.nicks, ToRecord(Group, group))
  {
    assert Above([group], s.wmGroup) == [group] by { assert [group][1..] == []; }
    assert Above([direct], s.wmC2c) == [] by { assert [direct][1..] == []; }
    OneRow(Group, group);
    var g := ToRecord(Group, group);
    ApplyAllNicks(s.index, [g]);
    OneNick(s.index.nicks, g);
  }

  lemma OneDirect(row: Row)
    requires row.Readable? && row.rowid > 0
    ensures Built([], [row]).wmGroup == 0 && Built([], [row]).wmC2c == row.rowid
    ensures Built([], [row]).index.nicks == NicksAfter(map[], ToRecord(C2c, row))
  {
    OneRow(C2c, row);
    var d := ToRecord(C2c, row);
    assert [] + [d] == [d] && [d][1..] == [];
    assert MaxId([d], 0) == Max(0, d.rowid);
    ApplyAllNicks(EMPTY, [d]);
    OneNick(map[], d);
  }

  /** Global nicknames depend on the order the two tables are read in: a group row that arrives after a direct
      row wins in a pass, and loses in a rebuild, which scans groups first. */
  lemma NicknamesMayDiffer()
    ensures var direct, group := RowOf(1, "old"), RowOf(2, "new");
      && Next(Built([], [direct]), Pass(Some([group]), Some([direct]))).index.nicks == map["u" := "new"]
      && Built([group], [direct]).index.nicks == map["u" := "old"]
  {
    var direct, group := RowOf(1, "old"), RowOf(2, "new");
    OneDirect(direct);
    PassNick(Built([], [direct]), group, direct);
    OneRow(C2c, direct);
    OneRow(Group, group);
    RebuildNick(ToRecord(C2c, direct), ToRecord(Group, group));
  }
}

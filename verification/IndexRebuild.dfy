/** Incremental passes over append-only tables leave the index a full rebuild would give. */
module IndexRebuild {
  import opened Chats
  import opened Optional
  import opened Records
  import opened IndexSync
  import Sequences

  /** What happens to a synced account: a pass over what its two reads return, or a query that sorts one
      conversation. */
  datatype Step = Pass(group: Option<seq<Row>>, c2c: Option<seq<Row>>) | Query(key: Key)

  function Next(s: Sync, a: Step): Sync {
    match a
    case Pass(g, c) => Poll(s, g, c)
    case Query(k) =>
      if k in s.index.convs
      then s.(index := s.index.(convs := s.index.convs[k := SortConv(s.index.convs[k])]))
      else s
  }

  function Run(s: Sync, steps: seq<Step>): Sync
    decreases |steps|
  {
    if steps == [] then s else Run(Next(s, steps[0]), steps[1..])
  }

  /** The store right after `build_index` on two tables. */
  function Built(group: seq<Row>, c2c: seq<Row>): Sync {
    var g, c := RecordsOf(Group, group), RecordsOf(C2c, c2c);
    Sync(SortAll(ApplyAll(EMPTY, g + c)), MaxId(g, 0), MaxId(c, 0), [], false, false)
  }

  // ---- Append-only tables ----

  ghost predicate Rising(rows: seq<Row>) {
    && (forall i :: 0 <= i < |rows| ==> 0 < rows[i].rowid)
    && (forall i, j :: 0 <= i < j < |rows| ==> rows[i].rowid < rows[j].rowid)
  }

  datatype Tables = Tables(group: seq<Row>, c2c: seq<Row>) {
    function Of(chat: ChatType): seq<Row> { if chat.Group? then group else c2c }
  }

  /** A pass that reads both tables. */
  predicate Reads(a: Step) { a.Pass? && a.group.Some? && a.c2c.Some? }

  function Seen(t: Tables, a: Step): Tables { if Reads(a) then Tables(a.group.value, a.c2c.value) else t }

  /** The tables as the last pass that read both of them saw them. */
  function LastSeen(t: Tables, steps: seq<Step>): Tables
    decreases |steps|
  {
    if steps == [] then t else LastSeen(Seen(t, steps[0]), steps[1..])
  }

  ghost predicate Appended(t: Tables, now: Tables) { t.group <= now.group && t.c2c <= now.c2c }

  ghost predicate Grows(t: Tables, steps: seq<Step>)
    decreases |steps|
  {
    && Rising(t.group) && Rising(t.c2c)
    && (steps == [] || (Appended(t, Seen(t, steps[0])) && Grows(Seen(t, steps[0]), steps[1..])))
  }

  lemma {:induction false} MaxIdBounds(recs: seq<Record>, wm: int)
    ensures MaxId(recs, wm) >= wm
    ensures forall i :: 0 <= i < |recs| ==> recs[i].rowid <= MaxId(recs, wm)
    ensures MaxId(recs, wm) == wm || exists i :: 0 <= i < |recs| && recs[i].rowid == MaxId(recs, wm)
    decreases |recs|
  {
    if recs != [] {
      MaxIdBounds(recs[1..], Max(wm, recs[0].rowid));
      if MaxId(recs, wm) != wm && MaxId(recs, wm) != recs[0].rowid {
        var i :| 0 <= i < |recs[1..]| && recs[1..][i].rowid == MaxId(recs, wm);
        assert recs[i + 1].rowid == MaxId(recs, wm);
      }
    }
  }

  /** Every record is that of some row. */
  lemma {:induction false} RecordRow(chat: ChatType, rows: seq<Row>, i: nat) returns (j: nat)
    requires i < |RecordsOf(chat, rows)|
    ensures j < |rows| && rows[j].Readable? && RecordsOf(chat, rows)[i] == ToRecord(chat, rows[j])
    decreases |rows|
  {
    if rows[0].Readable? && i == 0 {
      j := 0;
    } else {
      var k := RecordRow(chat, rows[1..], if rows[0].Readable? then i - 1 else i);
      j := k + 1;
    }
  }

  /** Every readable row gives a record. */
  lemma {:induction false} RowRecord(chat: ChatType, rows: seq<Row>, j: nat) returns (i: nat)
    requires j < |rows| && rows[j].Readable?
    ensures i < |RecordsOf(chat, rows)| && RecordsOf(chat, rows)[i] == ToRecord(chat, rows[j])
    decreases |rows|
  {
    if j == 0 {
      i := 0;
    } else {
      var k := RowRecord(chat, rows[1..], j - 1);
      i := if rows[0].Readable? then k + 1 else k;
    }
  }

  lemma {:induction false} NoneAbove(chat: ChatType, rows: seq<Row>, wm: int)
    requires forall j :: 0 <= j < |rows| && rows[j].Readable? ==> rows[j].rowid <= wm
    ensures RecordsOf(chat, Above(rows, wm)) == []
  {
    if rows != [] {
      assert forall j :: 0 <= j < |rows[1..]| ==> rows[1..][j] == rows[j + 1];
      NoneAbove(chat, rows[1..], wm);
      AboveStep(chat, rows, wm, 0);
      assert rows[0..] == rows;
    }
  }

  lemma {:induction false} AllAbove(rows: seq<Row>, wm: int)
    requires forall j :: 0 <= j < |rows| ==> rows[j].rowid > wm
    ensures Above(rows, wm) == rows
  {
    if rows != [] {
      assert forall j :: 0 <= j < |rows[1..]| ==> rows[1..][j] == rows[j + 1];
      AllAbove(rows[1..], wm);
    }
  }

  lemma {:induction false} AboveConcat(xs: seq<Row>, ys: seq<Row>, wm: int)
    ensures Above(xs + ys, wm) == Above(xs, wm) + Above(ys, wm)
  {
    if xs == [] {
      assert xs + ys == ys;
    } else {
      AboveConcat(xs[1..], ys, wm);
      assert (xs + ys)[0] == xs[0] && (xs + ys)[1..] == xs[1..] + ys;
      var head := if xs[0].rowid > wm then [xs[0]] else [];
      assert head + (Above(xs[1..], wm) + Above(ys, wm)) == head + Above(xs[1..], wm) + Above(ys, wm);
    }
  }

  /** A read above the watermark returns exactly the records of the rows appended since. */
  lemma ReadsTheNewRows(chat: ChatType, seen: seq<Row>, now: seq<Row>)
    requires Rising(now) && seen <= now
    ensures var wm := MaxId(RecordsOf(chat, seen), 0);
      && RecordsOf(chat, Above(now, wm)) == RecordsOf(chat, now[|seen|..])
      && RecordsOf(chat, now) == RecordsOf(chat, seen) + RecordsOf(chat, now[|seen|..])
      && MaxId(RecordsOf(chat, Above(now, wm)), wm) == MaxId(RecordsOf(chat, now), 0)
  {
    var recs, more := RecordsOf(chat, seen), now[|seen|..];
    var wm := MaxId(recs, 0);
    assert now == seen + more;
    RecordsConcat(chat, seen, more);
    MaxIdConcat(recs, RecordsOf(chat, more), 0);
    SeenIsBelow(chat, seen, now);
    NoneAbove(chat, seen, wm);
    AllAbove(more, wm);
    AboveConcat(seen, more, wm);
    RecordsConcat(chat, Above(seen, wm), more);
    assert [] + RecordsOf(chat, more) == RecordsOf(chat, more);
  }

  lemma SeenIsBelow(chat: ChatType, seen: seq<Row>, now: seq<Row>)
    requires Rising(now) && seen <= now
    ensures var wm := MaxId(RecordsOf(chat, seen), 0);
      && (forall j :: 0 <= j < |seen| && seen[j].Readable? ==> seen[j].rowid <= wm)
      && (forall j :: 0 <= j < |now[|seen|..]| ==> now[|seen|..][j].rowid > wm)
  {
    var recs := RecordsOf(chat, seen);
    var wm := MaxId(recs, 0);
    MaxIdBounds(recs, 0);
    forall j | 0 <= j < |seen| && seen[j].Readable? ensures seen[j].rowid <= wm {
      var i := RowRecord(chat, seen, j);
    }
    if wm != 0 {
      var i :| 0 <= i < |recs| && recs[i].rowid == wm;
      var k := RecordRow(chat, seen, i);
      assert now[k].rowid == wm;
    }
  }

  // ---- Two indexes alike on one chat type ----

  ghost predicate SameConv(a: Conv, b: Conv) {
    a.chat == b.chat && a.talker == b.talker && a.name == b.name && multiset(a.msgs) == multiset(b.msgs)
  }

  ghost predicate AlikeAt(k: Key, a: Index, b: Index) {
    && (k in a.convs <==> k in b.convs) && (k in a.convs ==> SameConv(a.convs[k], b.convs[k]))
    && (k in a.cards <==> k in b.cards) && (k in a.cards ==> a.cards[k] == b.cards[k])
  }

  /** Same conversations of this type, with the same names, cards and messages in whatever order. */
  ghost predicate Alike(chat: ChatType, a: Index, b: Index) {
    forall k: Key :: k.chat == chat ==> AlikeAt(k, a, b)
  }

  lemma AlikeTrans(chat: ChatType, a: Index, b: Index, c: Index)
    requires Alike(chat, a, b) && Alike(chat, b, c)
    ensures Alike(chat, a, c)
  {
    forall k: Key | k.chat == chat ensures AlikeAt(k, a, c) {
      assert AlikeAt(k, a, b) && AlikeAt(k, b, c);
    }
  }

  lemma ApplyOther(chat: ChatType, ix: Index, rec: Record)
    requires rec.chat != chat
    ensures Alike(chat, ix, Apply(ix, rec))
  {
    forall k: Key | k.chat == chat ensures AlikeAt(k, ix, Apply(ix, rec)) {
      assert k != KeyOf(rec);
    }
  }

  lemma ConvAfterSame(a: Conv, b: Conv, rec: Record)
    requires SameConv(a, b)
    ensures SameConv(ConvAfter(a, rec), ConvAfter(b, rec))
  {
  }

  lemma ApplySameAt(k: Key, a: Index, b: Index, rec: Record)
    requires AlikeAt(k, a, b)
    ensures AlikeAt(k, Apply(a, rec), Apply(b, rec))
  {
    if rec.talker != "" && k == KeyOf(rec) {
      var x := if k in a.convs then a.convs[k] else NewConv(rec);
      var y := if k in b.convs then b.convs[k] else NewConv(rec);
      ConvAfterSame(x, y, rec);
      assert Apply(a, rec).convs[k] == ConvAfter(x, rec) && Apply(b, rec).convs[k] == ConvAfter(y, rec);
    }
  }

  lemma ApplySame(chat: ChatType, a: Index, b: Index, rec: Record)
    requires Alike(chat, a, b)
    ensures Alike(chat, Apply(a, rec), Apply(b, rec))
  {
    forall k: Key | k.chat == chat ensures AlikeAt(k, Apply(a, rec), Apply(b, rec)) {
      ApplySameAt(k, a, b, rec);
    }
  }

  ghost predicate AllOf(chat: ChatType, recs: seq<Record>) { forall i :: 0 <= i < |recs| ==> recs[i].chat == chat }

  lemma {:induction false} RecordsAllOf(chat: ChatType, rows: seq<Row>)
    ensures AllOf(chat, RecordsOf(chat, rows))
  {
    if rows != [] {
      RecordsAllOf(chat, rows[1..]);
    }
  }

  function Twin(chat: ChatType): ChatType { if chat.Group? then C2c else Group }

  lemma {:induction false} ApplyAllOther(chat: ChatType, ix: Index, recs: seq<Record>)
    requires AllOf(Twin(chat), recs)
    ensures Alike(chat, ix, ApplyAll(ix, recs))
    decreases |recs|
  {
    if recs != [] {
      ApplyOther(chat, ix, recs[0]);
      ApplyAllOther(chat, Apply(ix, recs[0]), recs[1..]);
      AlikeTrans(chat, ix, Apply(ix, recs[0]), ApplyAll(ix, recs));
    }
  }

  lemma {:induction false} ApplyAllSame(chat: ChatType, a: Index, b: Index, recs: seq<Record>)
    requires Alike(chat, a, b) && AllOf(chat, recs)
    ensures Alike(chat, ApplyAll(a, recs), ApplyAll(b, recs))
    decreases |recs|
  {
    if recs != [] {
      ApplySame(chat, a, b, recs[0]);
      ApplyAllSame(chat, Apply(a, recs[0]), Apply(b, recs[0]), recs[1..]);
    }
  }

  lemma SortConvSame(conv: Conv)
    ensures SameConv(SortConv(conv), conv)
  {
    SortSorts(conv.msgs);
  }

  lemma SortAllAlike(chat: ChatType, ix: Index)
    ensures Alike(chat, SortAll(ix), ix)
  {
    forall k: Key | k.chat == chat ensures AlikeAt(k, SortAll(ix), ix) {
      if k in ix.convs {
        SortConvSame(ix.convs[k]);
      }
    }
  }

  // ---- The invariant of a run ----

  /** On this chat type the index is what the records of `rows` alone would have made it. */
  ghost predicate Tracks(chat: ChatType, ix: Index, rows: seq<Row>) {
    Alike(chat, ix, ApplyAll(EMPTY, RecordsOf(chat, rows)))
  }

  ghost predicate CleanSorted(ix: Index) {
    forall k :: k in ix.convs && !ix.convs[k].dirty ==> IsSorted(ix.convs[k].msgs)
  }

  ghost predicate InStep(s: Sync, t: Tables) {
    && Tracks(Group, s.index, t.group) && Tracks(C2c, s.index, t.c2c) && CleanSorted(s.index)
    && s.wmGroup == MaxId(RecordsOf(Group, t.group), 0) && s.wmC2c == MaxId(RecordsOf(C2c, t.c2c), 0)
    && !s.stopped
  }

  lemma TracksBoth(ix: Index, t: Tables, newG: seq<Record>, newC: seq<Record>, chat: ChatType, rows: seq<Row>)
    requires AllOf(Group, newG) && AllOf(C2c, newC)
    requires Tracks(chat, ix, t.Of(chat))
    requires RecordsOf(chat, rows) == RecordsOf(chat, t.Of(chat)) + (if chat.Group? then newG else newC)
    ensures Tracks(chat, ApplyAll(ApplyAll(ix, newG), newC), rows)
  {
    var seen, own := RecordsOf(chat, t.Of(chat)), if chat.Group? then newG else newC;
    var base, mid := ApplyAll(EMPTY, seen), ApplyAll(ix, newG);
    ApplyAllConcat(EMPTY, seen, own);
    if chat.Group? {
      ApplyAllSame(chat, ix, base, newG);
      ApplyAllOther(chat, mid, newC);
      AlikeSym(chat, mid, ApplyAll(mid, newC));
      AlikeTrans(chat, ApplyAll(mid, newC), mid, ApplyAll(base, newG));
    } else {
      ApplyAllOther(chat, ix, newG);
      AlikeSym(chat, ix, mid);
      AlikeTrans(chat, mid, ix, base);
      ApplyAllSame(chat, mid, base, newC);
    }
  }

  lemma AlikeSym(chat: ChatType, a: Index, b: Index)
    requires Alike(chat, a, b)
    ensures Alike(chat, b, a)
  {
    forall k: Key | k.chat == chat ensures AlikeAt(k, b, a) {
      assert AlikeAt(k, a, b);
    }
  }

  lemma {:induction false} ApplyAllClean(ix: Index, recs: seq<Record>)
    requires CleanSorted(ix)
    ensures CleanSorted(ApplyAll(ix, recs))
    decreases |recs|
  {
    if recs != [] {
      ApplyAllClean(Apply(ix, recs[0]), recs[1..]);
    }
  }

  lemma PassKeeps(s: Sync, t: Tables, now: Tables)
    requires InStep(s, t) && Rising(now.group) && Rising(now.c2c) && Appended(t, now)
    ensures InStep(Poll(s, Some(now.group), Some(now.c2c)), now)
  {
    ReadsTheNewRows(Group, t.group, now.group);
    ReadsTheNewRows(C2c, t.c2c, now.c2c);
    var newG, newC := RecordsOf(Group, now.group[|t.group|..]), RecordsOf(C2c, now.c2c[|t.c2c|..]);
    RecordsAllOf(Group, now.group[|t.group|..]);
    RecordsAllOf(C2c, now.c2c[|t.c2c|..]);
    TracksBoth(s.index, t, newG, newC, Group, now.group);
    TracksBoth(s.index, t, newG, newC, C2c, now.c2c);
    ApplyAllClean(s.index, newG);
    ApplyAllClean(ApplyAll(s.index, newG), newC);
  }

  lemma QueryAlike(chat: ChatType, s: Sync, key: Key)
    ensures Alike(chat, Next(s, Query(key)).index, s.index)
  {
    var t := Next(s, Query(key));
    forall k: Key | k.chat == chat ensures AlikeAt(k, t.index, s.index) {
      if k == key && k in s.index.convs {
        SortConvSame(s.index.convs[k]);
      }
    }
  }

  lemma QueryKeeps(s: Sync, t: Tables, key: Key)
    requires InStep(s, t)
    ensures InStep(Next(s, Query(key)), t)
  {
    var ix := Next(s, Query(key)).index;
    QueryAlike(Group, s, key);
    QueryAlike(C2c, s, key);
    AlikeTrans(Group, ix, s.index, ApplyAll(EMPTY, RecordsOf(Group, t.group)));
    AlikeTrans(C2c, ix, s.index, ApplyAll(EMPTY, RecordsOf(C2c, t.c2c)));
    if key in s.index.convs {
      SortSorts(s.index.convs[key].msgs);
    }
  }

  lemma StepKeeps(s: Sync, t: Tables, a: Step)
    requires InStep(s, t) && Appended(t, Seen(t, a)) && Rising(Seen(t, a).group) && Rising(Seen(t, a).c2c)
    ensures InStep(Next(s, a), Seen(t, a))
  {
    if Reads(a) {
      PassKeeps(s, t, Seen(t, a));
    } else if a.Query? {
      QueryKeeps(s, t, a.key);
    }
  }

  lemma {:induction false} RunKeeps(s: Sync, t: Tables, steps: seq<Step>)
    requires InStep(s, t) && Grows(t, steps)
    ensures InStep(Run(s, steps), LastSeen(t, steps))
    decreases |steps|
  {
    if steps != [] {
      var now := Seen(t, steps[0]);
      assert Grows(now, steps[1..]);
      StepKeeps(s, t, steps[0]);
      RunKeeps(Next(s, steps[0]), now, steps[1..]);
    }
  }

  lemma BuiltTracks(chat: ChatType, t: Tables)
    ensures Tracks(chat, Built(t.group, t.c2c).index, t.Of(chat))
  {
    var g, c := RecordsOf(Group, t.group), RecordsOf(C2c, t.c2c);
    RecordsAllOf(Group, t.group);
    RecordsAllOf(C2c, t.c2c);
    ApplyAllConcat(EMPTY, g, c);
    var raw := ApplyAll(ApplyAll(EMPTY, g), c);
    assert [] + RecordsOf(chat, t.Of(chat)) == RecordsOf(chat, t.Of(chat));
    TracksBoth(EMPTY, Tables([], []), g, c, chat, t.Of(chat));
    SortAllAlike(chat, raw);
    AlikeTrans(chat, SortAll(raw), raw, ApplyAll(EMPTY, RecordsOf(chat, t.Of(chat))));
  }

  lemma BuiltInStep(t: Tables)
    ensures InStep(Built(t.group, t.c2c), t)
  {
    BuiltTracks(Group, t);
    BuiltTracks(C2c, t);
    var recs := RecordsOf(Group, t.group) + RecordsOf(C2c, t.c2c);
    ApplyAllClean(EMPTY, recs);
    SortAllSorted(ApplyAll(EMPTY, recs));
  }

  lemma SortAllSorted(ix: Index)
    requires CleanSorted(ix)
    ensures forall k :: k in ix.convs ==> IsSorted(SortAll(ix).convs[k].msgs) && !SortAll(ix).convs[k].dirty
  {
    forall k | k in ix.convs ensures IsSorted(SortAll(ix).convs[k].msgs) {
      SortSorts(ix.convs[k].msgs);
    }
  }

  // ---- One row, one message ----

  /** Records of one table, applied in order, leave each conversation's rowids rising. */
  ghost predicate RisingMsgs(ix: Index, below: int) {
    forall k :: k in ix.convs ==> RisingConv(ix.convs[k].msgs, below)
  }

  ghost predicate RisingConv(msgs: seq<Record>, below: int) {
    && (forall i, j :: 0 <= i < j < |msgs| ==> msgs[i].rowid < msgs[j].rowid)
    && (forall i :: 0 <= i < |msgs| ==> msgs[i].rowid <= below)
  }

  lemma ConvRises(msgs: seq<Record>, rec: Record, below: int)
    requires RisingConv(msgs, below) && below < rec.rowid
    ensures RisingConv(msgs, rec.rowid) && RisingConv(msgs + [rec], rec.rowid)
  {
  }

  lemma ApplyRises(ix: Index, rec: Record, below: int)
    requires RisingMsgs(ix, below) && below < rec.rowid
    ensures RisingMsgs(Apply(ix, rec), rec.rowid)
  {
    var t := Apply(ix, rec);
    forall k | k in t.convs ensures RisingConv(t.convs[k].msgs, rec.rowid) {
      if k in ix.convs {
        assert RisingConv(ix.convs[k].msgs, below);
        ConvRises(ix.convs[k].msgs, rec, below);
      }
    }
  }

  ghost predicate RisingRecords(recs: seq<Record>, above: int) {
    && (forall i :: 0 <= i < |recs| ==> above < recs[i].rowid)
    && (forall i, j :: 0 <= i < j < |recs| ==> recs[i].rowid < recs[j].rowid)
  }

  lemma {:induction false} RecordsRise(chat: ChatType, rows: seq<Row>, above: int)
    requires Rising(rows) && forall i :: 0 <= i < |rows| ==> above < rows[i].rowid
    ensures RisingRecords(RecordsOf(chat, rows), above)
  {
    if rows != [] {
      RecordsRise(chat, rows[1..], rows[0].rowid);
    }
  }

  lemma {:induction false} ApplyAllRises(ix: Index, recs: seq<Record>, below: int) returns (top: int)
    requires RisingMsgs(ix, below) && RisingRecords(recs, below)
    ensures RisingMsgs(ApplyAll(ix, recs), top)
    decreases |recs|
  {
    if recs == [] {
      top := below;
    } else {
      ApplyRises(ix, recs[0], below);
      top := ApplyAllRises(Apply(ix, recs[0]), recs[1..], recs[0].rowid);
    }
  }

  lemma DistinctMsgs(chat: ChatType, rows: seq<Row>, k: Key)
    requires Rising(rows) && k in ApplyAll(EMPTY, RecordsOf(chat, rows)).convs
    ensures DistinctRowids(ApplyAll(EMPTY, RecordsOf(chat, rows)).convs[k].msgs)
  {
    RecordsRise(chat, rows, 0);
    var top := ApplyAllRises(EMPTY, RecordsOf(chat, rows), 0);
  }

  // ---- The theorem ----

  lemma SortedEqual(k: Key, a: Index, b: Index, base: Index)
    requires AlikeAt(k, a, base) && AlikeAt(k, b, base) && CleanSorted(a) && CleanSorted(b)
    requires k in base.convs ==> DistinctRowids(base.convs[k].msgs)
    ensures k in a.convs <==> k in b.convs
    ensures k in a.convs ==> SortAll(a).convs[k] == SortAll(b).convs[k]
    ensures k in a.cards <==> k in b.cards
    ensures k in a.cards ==> a.cards[k] == b.cards[k]
  {
    if k in a.convs {
      var x, y := a.convs[k].msgs, b.convs[k].msgs;
      SortAllSorted(a);
      SortAllSorted(b);
      SortSorts(x);
      SortSorts(y);
      DistinctSorted(base.convs[k].msgs, SortAll(a).convs[k].msgs);
      SortedUnique(SortAll(a).convs[k].msgs, SortAll(b).convs[k].msgs);
    }
  }

  lemma InStepEqual(s: Sync, r: Sync, t: Tables)
    requires InStep(s, t) && InStep(r, t) && Rising(t.group) && Rising(t.c2c)
    ensures SortAll(s.index).convs == SortAll(r.index).convs && s.index.cards == r.index.cards
    ensures s.wmGroup == r.wmGroup && s.wmC2c == r.wmC2c
  {
    forall k: Key
      ensures k in s.index.convs <==> k in r.index.convs
      ensures k in s.index.convs ==> SortAll(s.index).convs[k] == SortAll(r.index).convs[k]
      ensures k in s.index.cards <==> k in r.index.cards
      ensures k in s.index.cards ==> s.index.cards[k] == r.index.cards[k]
    {
      var rows := t.Of(k.chat);
      var base := ApplyAll(EMPTY, RecordsOf(k.chat, rows));
      assert AlikeAt(k, s.index, base) && AlikeAt(k, r.index, base);
      if k in base.convs {
        DistinctMsgs(k.chat, rows, k);
      }
      SortedEqual(k, s.index, r.index, base);
    }
  }

  /** Whatever passes fail, whatever is queried in between: once sorted, conversations, names and messages,
      group cards and watermarks are those of a rebuild from the tables the last complete pass saw. */
  lemma SyncEqualsRebuild(t: Tables, steps: seq<Step>)
    requires Grows(t, steps)
    ensures var s, now := Run(Built(t.group, t.c2c), steps), LastSeen(t, steps);
            var r := Built(now.group, now.c2c);
      && SortAll(s.index).convs == r.index.convs && s.index.cards == r.index.cards
      && s.wmGroup == r.wmGroup && s.wmC2c == r.wmC2c
  {
    var s, now := Run(Built(t.group, t.c2c), steps), LastSeen(t, steps);
    var r := Built(now.group, now.c2c);
    BuiltInStep(t);
    RunKeeps(Built(t.group, t.c2c), t, steps);
    BuiltInStep(now);
    LastRises(t, steps);
    InStepEqual(s, r, now);
    BuiltIsSorted(now);
  }

  lemma BuiltIsSorted(t: Tables)
    ensures SortAll(Built(t.group, t.c2c).index).convs == Built(t.group, t.c2c).index.convs
  {
    ApplyAllClean(EMPTY, RecordsOf(Group, t.group) + RecordsOf(C2c, t.c2c));
    SortAllSorted(ApplyAll(EMPTY, RecordsOf(Group, t.group) + RecordsOf(C2c, t.c2c)));
  }

  lemma {:induction false} LastRises(t: Tables, steps: seq<Step>)
    requires Grows(t, steps)
    ensures Rising(LastSeen(t, steps).group) && Rising(LastSeen(t, steps).c2c)
    ensures Appended(t, LastSeen(t, steps))
    decreases |steps|
  {
    if steps != [] {
      LastRises(Seen(t, steps[0]), steps[1..]);
    }
  }

  // ---- Events ----

  function Only(chat: ChatType, es: seq<Event>): seq<Event> {
    if es == [] then [] else (if es[0].chat == chat then [es[0]] else []) + Only(chat, es[1..])
  }

  lemma {:induction false} OnlyConcat(chat: ChatType, xs: seq<Event>, ys: seq<Event>)
    ensures Only(chat, xs + ys) == Only(chat, xs) + Only(chat, ys)
  {
    if xs == [] {
      assert xs + ys == ys;
    } else {
      OnlyConcat(chat, xs[1..], ys);
      assert (xs + ys)[0] == xs[0] && (xs + ys)[1..] == xs[1..] + ys;
      var head := if xs[0].chat == chat then [xs[0]] else [];
      assert head + (Only(chat, xs[1..]) + Only(chat, ys)) == head + Only(chat, xs[1..]) + Only(chat, ys);
    }
  }

  lemma {:induction false} OnlyOwn(chat: ChatType, recs: seq<Record>)
    ensures AllOf(chat, recs) ==> Only(chat, EventsOf(recs)) == EventsOf(recs)
    ensures AllOf(Twin(chat), recs) ==> Only(chat, EventsOf(recs)) == []
  {
    if recs != [] {
      OnlyOwn(chat, recs[1..]);
      assert EventsOf(recs)[1..] == EventsOf(recs[1..]);
      Sequences.HeadRest(EventsOf(recs));
      Sequences.Nothing(Only(chat, EventsOf(recs[1..])));
    }
  }

  /** The events of the rows that `now` has and `t` has not. */
  function Announced(chat: ChatType, t: seq<Row>, now: seq<Row>): seq<Event>
    requires t <= now
  {
    EventsOf(RecordsOf(chat, now[|t|..]))
  }

  lemma AnnouncedNone(chat: ChatType, rows: seq<Row>)
    ensures Announced(chat, rows, rows) == []
  {
    assert rows[|rows|..] == [];
  }

  lemma AnnouncedChains(chat: ChatType, a: seq<Row>, b: seq<Row>, c: seq<Row>)
    requires a <= b <= c
    ensures Announced(chat, a, c) == Announced(chat, a, b) + Announced(chat, b, c)
  {
    assert c[|a|..] == b[|a|..] + c[|b|..];
    RecordsConcat(chat, b[|a|..], c[|b|..]);
    EventsConcat(RecordsOf(chat, b[|a|..]), RecordsOf(chat, c[|b|..]));
  }

  lemma PassEvents(s: Sync, t: Tables, now: Tables)
    requires InStep(s, t) && Rising(now.group) && Rising(now.c2c) && Appended(t, now)
    ensures Poll(s, Some(now.group), Some(now.c2c)).published
         == s.published + (Announced(Group, t.group, now.group) + Announced(C2c, t.c2c, now.c2c))
  {
    ReadsTheNewRows(Group, t.group, now.group);
    ReadsTheNewRows(C2c, t.c2c, now.c2c);
    EventsConcat(RecordsOf(Group, now.group[|t.group|..]), RecordsOf(C2c, now.c2c[|t.c2c|..]));
  }

  lemma OnlyAnnounced(chat: ChatType, of: ChatType, t: seq<Row>, now: seq<Row>)
    requires t <= now
    ensures Only(chat, Announced(of, t, now)) == if chat == of then Announced(of, t, now) else []
  {
    RecordsAllOf(of, now[|t|..]);
    OnlyOwn(chat, RecordsOf(of, now[|t|..]));
  }

  lemma OnlyOwnPart(chat: ChatType, s: seq<Event>, g: seq<Event>, c: seq<Event>)
    requires Only(chat, g) == if chat.Group? then g else []
    requires Only(chat, c) == if chat.Group? then [] else c
    ensures Only(chat, s + (g + c)) == Only(chat, s) + if chat.Group? then g else c
  {
    OnlyConcat(chat, s, g + c);
    OnlyConcat(chat, g, c);
    assert g + [] == g && [] + c == c;
  }

  lemma StepPublishes(chat: ChatType, s: Sync, t: Tables, a: Step)
    requires InStep(s, t) && Appended(t, Seen(t, a)) && Rising(Seen(t, a).group) && Rising(Seen(t, a).c2c)
    ensures Only(chat, Next(s, a).published)
         == Only(chat, s.published) + Announced(chat, t.Of(chat), Seen(t, a).Of(chat))
  {
    if Reads(a) {
      var now := Seen(t, a);
      var g, c := Announced(Group, t.group, now.group), Announced(C2c, t.c2c, now.c2c);
      PassEvents(s, t, now);
      OnlyAnnounced(chat, Group, t.group, now.group);
      OnlyAnnounced(chat, C2c, t.c2c, now.c2c);
      OnlyOwnPart(chat, s.published, g, c);
    } else {
      AnnouncedNone(chat, t.Of(chat));
      assert Only(chat, s.published) + [] == Only(chat, s.published);
    }
  }

  lemma Chained(all: seq<Event>, a: seq<Event>, b: seq<Event>)
    ensures all + a + b == all + (a + b)
  {
  }

  lemma {:induction false} RunPublishes(chat: ChatType, s: Sync, t: Tables, steps: seq<Step>)
    requires InStep(s, t) && Grows(t, steps) && Appended(t, LastSeen(t, steps))
    ensures Only(chat, Run(s, steps).published)
         == Only(chat, s.published) + Announced(chat, t.Of(chat), LastSeen(t, steps).Of(chat))
    decreases |steps|
  {
    if steps == [] {
      AnnouncedNone(chat, t.Of(chat));
      assert Only(chat, s.published) + [] == Only(chat, s.published);
    } else {
      var now, last := Seen(t, steps[0]), LastSeen(t, steps);
      assert Grows(now, steps[1..]);
      StepKeeps(s, t, steps[0]);
      StepPublishes(chat, s, t, steps[0]);
      LastRises(now, steps[1..]);
      RunPublishes(chat, Next(s, steps[0]), now, steps[1..]);
      AnnouncedChains(chat, t.Of(chat), now.Of(chat), last.Of(chat));
      Chained(Only(chat, s.published), Announced(chat, t.Of(chat), now.Of(chat)),
              Announced(chat, now.Of(chat), last.Of(chat)));
    }
  }

  /** Each readable row appended after the build and seen by a complete pass has been announced exactly once,
      in table order, and no other event has been published. */
  lemma EachRowAnnouncedOnce(t: Tables, steps: seq<Step>)
    requires Grows(t, steps)
    ensures var s, now := Run(Built(t.group, t.c2c), steps), LastSeen(t, steps);
      && Appended(t, now)
      && Only(Group, s.published) == EventsOf(RecordsOf(Group, now.group[|t.group|..]))
      && Only(C2c, s.published) == EventsOf(RecordsOf(C2c, now.c2c[|t.c2c|..]))
  {
    LastRises(t, steps);
    BuiltRunPublishes(Group, t, steps);
    BuiltRunPublishes(C2c, t, steps);
  }

  lemma BuiltRunPublishes(chat: ChatType, t: Tables, steps: seq<Step>)
    requires Grows(t, steps) && Appended(t, LastSeen(t, steps))
    ensures Only(chat, Run(Built(t.group, t.c2c), steps).published)
         == Announced(chat, t.Of(chat), LastSeen(t, steps).Of(chat))
  {
    BuiltInStep(t);
    RunPublishes(chat, Built(t.group, t.c2c), t, steps);
    assert Only(chat, []) == [];
    var all := Announced(chat, t.Of(chat), LastSeen(t, steps).Of(chat));
    assert [] + all == all;
  }
}

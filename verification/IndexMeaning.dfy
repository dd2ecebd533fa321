/** What the index of a run holds, and what it has announced, in terms of the rows the last complete pass saw. */
module IndexMeaning {
  import opened Chats
  import opened Optional
  import opened Records
  import opened IndexSync
  import opened IndexRebuild
  import Sequences

  /** The readable rows of one talker, in table order. */
  function Own(rows: seq<Row>, k: string): seq<Row> {
    if rows == [] then []
    else Own(rows[..|rows| - 1], k) + if IsOwn(rows[|rows| - 1], k) then [rows[|rows| - 1]] else []
  }

  predicate IsOwn(row: Row, k: string) { row.Readable? && row.talker == k }

  /** A message says what its row says: a missing or non-positive time is the upper half of the sequence number, the
      sender of a direct message is its peer, cards exist in groups only. */
  predicate Mirrors(m: Record, chat: ChatType, row: Row) {
    && row.Readable? && m.chat == chat && m.rowid == row.rowid && m.seqNo == row.seqNo && m.talker == row.talker
    && m.ts == (match row.time case None => row.seqNo / 0x1_0000_0000
                               case Some(at) => if at > 0 then at else row.seqNo / 0x1_0000_0000)
    && m.uid == (match chat case Group => row.sender case C2c => row.talker)
    && m.card == (match chat case Group => (if row.card == Some("") then None else row.card) case C2c => None)
    && m.nick == row.nick && m.parsed == row.parsed
    && m.inner == (if row.inner == Some(0) then None else row.inner)
    && m.reply == (if row.reply == Some(0) then None else row.reply)
  }

  lemma RecordMirrors(chat: ChatType, row: Row)
    requires row.Readable?
    ensures Mirrors(ToRecord(chat, row), chat, row)
  {
  }

  /** A row that renames its group. */
  predicate Renames(row: Row, k: string) {
    IsOwn(row, k) && row.parsed.kind.System? && row.parsed.rename.Some? && row.parsed.rename.value != k
  }

  /** A group is called what its last rename says, or else its number; a direct conversation what its first row says. */
  predicate IsTitle(chat: ChatType, rows: seq<Row>, k: string, name: string) {
    match chat
    case Group =>
      || (name == k && forall j :: 0 <= j < |rows| ==> !Renames(rows[j], k))
      || exists j :: 0 <= j < |rows| && Renames(rows[j], k) && rows[j].parsed.rename.value == name
                     && forall i :: j < i < |rows| ==> !Renames(rows[i], k)
    case C2c =>
      exists j :: 0 <= j < |rows| && IsOwn(rows[j], k) && rows[j].nick == name
                  && forall i :: 0 <= i < j ==> !IsOwn(rows[i], k)
  }

  /** A row that gives its sender a card. */
  predicate Cards(row: Row, k: string, uid: string) {
    IsOwn(row, k) && row.sender == uid && row.card.Some? && row.card.value != ""
  }

  /** The last card rows give a sender. */
  predicate IsCard(rows: seq<Row>, k: string, uid: string, card: string) {
    exists j :: 0 <= j < |rows| && Cards(rows[j], k, uid) && rows[j].card.value == card
                && forall i :: j < i < |rows| ==> !Cards(rows[i], k, uid)
  }

  predicate HasCard(ix: Index, key: Key, uid: string, card: string) {
    key in ix.cards && uid in ix.cards[key] && ix.cards[key][uid] == card
  }

  predicate MirrorsAll(msgs: seq<Record>, chat: ChatType, rows: seq<Row>) {
    |msgs| == |rows| && forall i :: 0 <= i < |rows| ==> Mirrors(msgs[i], chat, rows[i])
  }

  // ---- One table, row by row ----

  function Base(chat: ChatType, rows: seq<Row>): Index { ApplyAll(EMPTY, RecordsOf(chat, rows)) }

  lemma BaseNext(chat: ChatType, rows: seq<Row>)
    requires rows != []
    ensures var init, row := rows[..|rows| - 1], rows[|rows| - 1];
      Base(chat, rows) == if row.Readable? then Apply(Base(chat, init), ToRecord(chat, row)) else Base(chat, init)
  {
    var init, row := rows[..|rows| - 1], rows[|rows| - 1];
    assert rows == init + [row];
    RecordsConcat(chat, init, [row]);
    Sequences.Sole(row);
    if row.Readable? {
      ApplyAllConcat(EMPTY, RecordsOf(chat, init), [ToRecord(chat, row)]);
      Sequences.Sole(ToRecord(chat, row));
      Sequences.Nothing([ToRecord(chat, row)]);
    } else {
      Sequences.Nothing(RecordsOf(chat, init));
    }
  }

  lemma {:induction false} BaseConvs(chat: ChatType, rows: seq<Row>, k: string)
    requires k != ""
    ensures var key, ix := Key(chat, k), Base(chat, rows);
      && (key in ix.convs <==> Own(rows, k) != [])
      && (key in ix.convs ==> MirrorsAll(ix.convs[key].msgs, chat, Own(rows, k)))
  {
    if rows != [] {
      var init, row := rows[..|rows| - 1], rows[|rows| - 1];
      BaseConvs(chat, init, k);
      BaseNext(chat, rows);
      if row.Readable? {
        ConvNext(chat, Base(chat, init), row, k, Own(init, k));
      }
    }
  }

  lemma ConvNext(chat: ChatType, ix: Index, row: Row, k: string, own: seq<Row>)
    requires k != "" && row.Readable? && (Key(chat, k) in ix.convs <==> own != [])
    requires Key(chat, k) in ix.convs ==> MirrorsAll(ix.convs[Key(chat, k)].msgs, chat, own)
    ensures var t, all := Apply(ix, ToRecord(chat, row)), own + (if IsOwn(row, k) then [row] else []);
      && (Key(chat, k) in t.convs <==> all != [])
      && (Key(chat, k) in t.convs ==> MirrorsAll(t.convs[Key(chat, k)].msgs, chat, all))
  {
    RecordMirrors(chat, row);
  }

  lemma {:induction false} OwnNone(rows: seq<Row>, k: string)
    ensures Own(rows, k) == [] <==> forall j :: 0 <= j < |rows| ==> !IsOwn(rows[j], k)
  {
    if rows != [] {
      var init := rows[..|rows| - 1];
      OwnNone(init, k);
      assert forall j :: 0 <= j < |init| ==> init[j] == rows[j];
    }
  }

  lemma TitleNext(chat: ChatType, rows: seq<Row>, row: Row, k: string, name: string)
    requires IsTitle(chat, rows, k, name)
    ensures chat.C2c? || !Renames(row, k) ==> IsTitle(chat, rows + [row], k, name)
  {
    var all := rows + [row];
    assert forall j :: 0 <= j < |rows| ==> all[j] == rows[j];
    match chat
    case Group =>
      if j :| 0 <= j < |rows| && Renames(rows[j], k) && rows[j].parsed.rename.value == name
              && forall i :: j < i < |rows| ==> !Renames(rows[i], k) {
        assert Renames(all[j], k);
      }
    case C2c =>
      var j :| 0 <= j < |rows| && IsOwn(rows[j], k) && rows[j].nick == name
               && forall i :: 0 <= i < j ==> !IsOwn(rows[i], k);
      assert IsOwn(all[j], k);
  }

  lemma TitleNew(chat: ChatType, rows: seq<Row>, row: Row, k: string)
    requires IsOwn(row, k)
    ensures chat.Group? && Renames(row, k) ==> IsTitle(chat, rows + [row], k, row.parsed.rename.value)
    ensures Own(rows, k) == [] && chat.C2c? ==> IsTitle(chat, rows + [row], k, row.nick)
    ensures Own(rows, k) == [] && chat.Group? && !Renames(row, k) ==> IsTitle(chat, rows + [row], k, k)
  {
    OwnNone(rows, k);
    var all := rows + [row];
    assert all[|rows|] == row && forall j :: 0 <= j < |rows| ==> all[j] == rows[j];
  }

  lemma {:induction false} BaseTitle(chat: ChatType, rows: seq<Row>, k: string)
    requires k != "" && Key(chat, k) in Base(chat, rows).convs
    ensures IsTitle(chat, rows, k, Base(chat, rows).convs[Key(chat, k)].name)
  {
    var init, row := rows[..|rows| - 1], rows[|rows| - 1];
    assert rows == init + [row];
    BaseNext(chat, rows);
    BaseConvs(chat, init, k);
    if Key(chat, k) in Base(chat, init).convs {
      BaseTitle(chat, init, k);
      TitleNext(chat, init, row, k, Base(chat, init).convs[Key(chat, k)].name);
    }
    if IsOwn(row, k) {
      TitleNew(chat, init, row, k);
    }
  }

  lemma CardNext(rows: seq<Row>, row: Row, k: string, uid: string, card: string)
    ensures IsCard(rows + [row], k, uid, card)
       <==> if Cards(row, k, uid) then row.card.value == card else IsCard(rows, k, uid, card)
  {
    var all := rows + [row];
    assert all[|rows|] == row && forall j :: 0 <= j < |rows| ==> all[j] == rows[j];
    if j :| 0 <= j < |rows| && Cards(rows[j], k, uid) && rows[j].card.value == card
            && forall i :: j < i < |rows| ==> !Cards(rows[i], k, uid) {
      assert Cards(all[j], k, uid);
    }
  }

  lemma {:induction false} BaseCards(rows: seq<Row>, k: string, uid: string, card: string)
    requires k != ""
    ensures HasCard(Base(Group, rows), Key(Group, k), uid, card) <==> IsCard(rows, k, uid, card)
  {
    if rows != [] {
      var init, row := rows[..|rows| - 1], rows[|rows| - 1];
      assert rows == init + [row];
      BaseCards(init, k, uid, card);
      BaseNext(Group, rows);
      CardNext(init, row, k, uid, card);
    }
  }

  lemma {:induction false} BaseNoCards(rows: seq<Row>)
    ensures Base(C2c, rows).cards == map[]
  {
    if rows != [] {
      BaseNoCards(rows[..|rows| - 1]);
      BaseNext(C2c, rows);
    }
  }

  lemma {:induction false} BaseNameless(chat: ChatType, rows: seq<Row>)
    ensures Key(chat, "") !in Base(chat, rows).convs
  {
    if rows != [] {
      BaseNameless(chat, rows[..|rows| - 1]);
      BaseNext(chat, rows);
    }
  }

  // ---- Over whole runs ----

  lemma RunTracks(t: Tables, steps: seq<Step>, chat: ChatType)
    requires Grows(t, steps)
    ensures Tracks(chat, Run(Built(t.group, t.c2c), steps).index, LastSeen(t, steps).Of(chat))
  {
    BuiltInStep(t);
    RunKeeps(Built(t.group, t.c2c), t, steps);
  }

  lemma {:induction false} OwnRows(rows: seq<Row>, k: string)
    ensures forall r :: r in Own(rows, k) <==> r in rows && IsOwn(r, k)
  {
    if rows != [] {
      var init := rows[..|rows| - 1];
      OwnRows(init, k);
      assert rows == init + [rows[|rows| - 1]];
    }
  }

  lemma OwnSome(rows: seq<Row>, k: string)
    ensures Own(rows, k) != [] <==> exists row :: row in rows && row.Readable? && row.talker == k
  {
    OwnRows(rows, k);
    if Own(rows, k) != [] {
      assert Own(rows, k)[0] in Own(rows, k);
    }
  }

  lemma SameMessages(xs: seq<Record>, ys: seq<Record>)
    requires multiset(xs) == multiset(ys)
    ensures |xs| == |ys| && forall m :: m in xs <==> m in ys
  {
    assert |multiset(xs)| == |xs| && |multiset(ys)| == |ys|;
    forall m ensures m in xs <==> m in ys {
      assert m in xs <==> m in multiset(xs);
      assert m in ys <==> m in multiset(ys);
    }
  }

  /** After any passes and queries: a talker has a conversation exactly when a readable row is of it. */
  lemma ConversationsMean(t: Tables, steps: seq<Step>, chat: ChatType, k: string)
    requires Grows(t, steps) && k != ""
    ensures var ix, rows := Run(Built(t.group, t.c2c), steps).index, LastSeen(t, steps).Of(chat);
            Key(chat, k) in ix.convs <==> exists row :: row in rows && row.Readable? && row.talker == k
  {
    var rows := LastSeen(t, steps).Of(chat);
    RunTracks(t, steps, chat);
    assert AlikeAt(Key(chat, k), Run(Built(t.group, t.c2c), steps).index, Base(chat, rows));
    BaseConvs(chat, rows, k);
    OwnSome(rows, k);
  }

  /** It is called what its rows call it. */
  lemma TitlesMean(t: Tables, steps: seq<Step>, chat: ChatType, k: string)
    requires Grows(t, steps) && k != "" && Key(chat, k) in Run(Built(t.group, t.c2c), steps).index.convs
    ensures IsTitle(chat, LastSeen(t, steps).Of(chat), k,
                    Run(Built(t.group, t.c2c), steps).index.convs[Key(chat, k)].name)
  {
    var rows := LastSeen(t, steps).Of(chat);
    RunTracks(t, steps, chat);
    assert AlikeAt(Key(chat, k), Run(Built(t.group, t.c2c), steps).index, Base(chat, rows));
    BaseTitle(chat, rows, k);
  }

  /** And it holds one message for each of its rows, saying what the row says. */
  lemma MessagesMeanRows(t: Tables, steps: seq<Step>, chat: ChatType, k: string)
    requires Grows(t, steps) && k != "" && Key(chat, k) in Run(Built(t.group, t.c2c), steps).index.convs
    ensures var msgs := Run(Built(t.group, t.c2c), steps).index.convs[Key(chat, k)].msgs;
      var rows := LastSeen(t, steps).Of(chat);
      && |msgs| == |Own(rows, k)|
      && (forall m :: m in msgs ==>
            exists row :: row in rows && row.Readable? && row.talker == k && Mirrors(m, chat, row))
      && (forall row :: row in rows && row.Readable? && row.talker == k ==>
            exists m :: m in msgs && Mirrors(m, chat, row))
  {
    var ix, rows, key := Run(Built(t.group, t.c2c), steps).index, LastSeen(t, steps).Of(chat), Key(chat, k);
    RunTracks(t, steps, chat);
    assert AlikeAt(key, ix, Base(chat, rows));
    BaseConvs(chat, rows, k);
    MessagesMean(chat, rows, k, Base(chat, rows).convs[key].msgs, ix.convs[key].msgs);
  }

  lemma MessagesMean(chat: ChatType, rows: seq<Row>, k: string, msgs: seq<Record>, held: seq<Record>)
    requires MirrorsAll(msgs, chat, Own(rows, k)) && multiset(held) == multiset(msgs)
    ensures |held| == |Own(rows, k)|
    ensures forall m :: m in held ==>
              exists row :: row in rows && row.Readable? && row.talker == k && Mirrors(m, chat, row)
    ensures forall row :: row in rows && row.Readable? && row.talker == k ==>
              exists m :: m in held && Mirrors(m, chat, row)
  {
    OwnRows(rows, k);
    SameMessages(held, msgs);
    forall m | m in held
      ensures exists row :: row in rows && row.Readable? && row.talker == k && Mirrors(m, chat, row)
    {
      var i :| 0 <= i < |msgs| && msgs[i] == m;
      assert Own(rows, k)[i] in Own(rows, k) && Mirrors(m, chat, Own(rows, k)[i]);
    }
    forall row | row in rows && row.Readable? && row.talker == k
      ensures exists m :: m in held && Mirrors(m, chat, row)
    {
      assert row in Own(rows, k);
      var i :| 0 <= i < |Own(rows, k)| && Own(rows, k)[i] == row;
      assert msgs[i] in msgs && Mirrors(msgs[i], chat, row);
    }
  }

  /** Nothing without a talker becomes a conversation; in a group everyone has the last card their rows gave them
      there, and elsewhere nobody has one. */
  lemma CardsMean(t: Tables, steps: seq<Step>, k: string, uid: string, card: string)
    requires Grows(t, steps)
    ensures var ix, now := Run(Built(t.group, t.c2c), steps).index, LastSeen(t, steps);
      && Key(Group, "") !in ix.convs && Key(C2c, "") !in ix.convs && Key(C2c, k) !in ix.cards
      && (k != "" ==> (HasCard(ix, Key(Group, k), uid, card) <==> IsCard(now.group, k, uid, card)))
  {
    var ix, now := Run(Built(t.group, t.c2c), steps).index, LastSeen(t, steps);
    RunTracks(t, steps, Group);
    RunTracks(t, steps, C2c);
    BaseNameless(Group, now.group);
    BaseNameless(C2c, now.c2c);
    BaseNoCards(now.c2c);
    assert AlikeAt(Key(Group, ""), ix, Base(Group, now.group)) && AlikeAt(Key(C2c, ""), ix, Base(C2c, now.c2c));
    assert AlikeAt(Key(C2c, k), ix, Base(C2c, now.c2c));
    if k != "" {
      BaseCards(now.group, k, uid, card);
      assert AlikeAt(Key(Group, k), ix, Base(Group, now.group));
    }
  }

  // ---- Announcements ----

  /** The readable rows, in table order. */
  function Readables(rows: seq<Row>): seq<Row> {
    if rows == [] then [] else (if rows[0].Readable? then [rows[0]] else []) + Readables(rows[1..])
  }

  /** One event for each readable row, in order: a recall is announced as revoked, anything else as new, with the row's
      number, talker, content and time. */
  predicate Tells(es: seq<Event>, chat: ChatType, rows: seq<Row>) {
    && |es| == |rows|
    && forall i :: 0 <= i < |rows| ==>
         && rows[i].Readable? && (es[i].Revoked? <==> rows[i].parsed.kind.Recall?)
         && es[i].chat == chat && es[i].talker == rows[i].talker && es[i].rowid == rows[i].rowid
         && es[i].content == rows[i].parsed.content
         && es[i].ts == (if rows[i].time.Some? && rows[i].time.value > 0 then rows[i].time.value
                         else rows[i].seqNo / 0x1_0000_0000)
  }

  lemma {:induction false} EventsTell(chat: ChatType, rows: seq<Row>)
    ensures Tells(EventsOf(RecordsOf(chat, rows)), chat, Readables(rows))
  {
    if rows != [] {
      EventsTell(chat, rows[1..]);
      var head := if rows[0].Readable? then [ToRecord(chat, rows[0])] else [];
      EventsConcat(head, RecordsOf(chat, rows[1..]));
    }
  }

  /** The events of one chat type that a run has published are those of the readable rows appended to its table since
      the build, as far as a complete pass has seen them. */
  lemma AnnouncementsMean(t: Tables, steps: seq<Step>)
    requires Grows(t, steps)
    ensures var s, now := Run(Built(t.group, t.c2c), steps), LastSeen(t, steps);
      && t.group <= now.group && t.c2c <= now.c2c
      && Tells(Only(Group, s.published), Group, Readables(now.group[|t.group|..]))
      && Tells(Only(C2c, s.published), C2c, Readables(now.c2c[|t.c2c|..]))
  {
    EachRowAnnouncedOnce(t, steps);
    EventsTell(Group, LastSeen(t, steps).group[|t.group|..]);
    EventsTell(C2c, LastSeen(t, steps).c2c[|t.c2c|..]);
  }

  /** After `before`, the events of group rows, and then those of direct ones. */
  predicate TellsBoth(published: seq<Event>, before: seq<Event>, g: seq<Row>, c: seq<Row>) {
    && |published| == |before| + |g| + |c| && published[..|before|] == before
    && Tells(published[|before|..|before| + |g|], Group, g) && Tells(published[|before| + |g|..], C2c, c)
  }

  lemma TellsInTurn(before: seq<Event>, a: seq<Event>, b: seq<Event>, g: seq<Row>, c: seq<Row>)
    requires Tells(a, Group, g) && Tells(b, C2c, c)
    ensures TellsBoth(before + (a + b), before, g, c)
  {
    Sequences.CutThree(before, a, b);
  }

  /** And a single pass publishes, after what was published before, those of the group rows above the watermark and
      then those of the direct ones. */
  lemma PassTells(s: Sync, group: seq<Row>, c2c: seq<Row>)
    requires !s.stopped
    ensures TellsBoth(Poll(s, Some(group), Some(c2c)).published, s.published,
                      Readables(NewRows(group, s.wmGroup)), Readables(NewRows(c2c, s.wmC2c)))
  {
    var g, c := NewRows(group, s.wmGroup), NewRows(c2c, s.wmC2c);
    AboveIsNew(group, s.wmGroup);
    AboveIsNew(c2c, s.wmC2c);
    EventsTell(Group, g);
    EventsTell(C2c, c);
    EventsConcat(RecordsOf(Group, g), RecordsOf(C2c, c));
    TellsInTurn(s.published, EventsOf(RecordsOf(Group, g)), EventsOf(RecordsOf(C2c, c)), Readables(g), Readables(c));
  }

  /** The rows numbered above `wm`. */
  function NewRows(rows: seq<Row>, wm: int): seq<Row> {
    if rows == [] then []
    else NewRows(rows[..|rows| - 1], wm) + if rows[|rows| - 1].rowid > wm then [rows[|rows| - 1]] else []
  }

  lemma {:induction false} AboveConcat(xs: seq<Row>, ys: seq<Row>, wm: int)
    ensures Above(xs + ys, wm) == Above(xs, wm) + Above(ys, wm)
  {
    if xs == [] {
      assert xs + ys == ys;
    } else {
      AboveConcat(xs[1..], ys, wm);
      assert (xs + ys)[0] == xs[0] && (xs + ys)[1..] == xs[1..] + ys;
      Sequences.Join(if xs[0].rowid > wm then [xs[0]] else [], Above(xs[1..], wm), Above(ys, wm));
    }
  }

  lemma {:induction false} AboveIsNew(rows: seq<Row>, wm: int)
    ensures Above(rows, wm) == NewRows(rows, wm)
  {
    if rows != [] {
      var init, row := rows[..|rows| - 1], rows[|rows| - 1];
      AboveIsNew(init, wm);
      AboveConcat(init, [row], wm);
      assert rows == init + [row];
      Sequences.Sole(row);
      Sequences.Nothing([row]);
    }
  }
}

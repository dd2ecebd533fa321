/** The message index, its full build and its incremental passes (src/store/index.rs, src/sync/mod.rs). */
module IndexSync {
  import opened Chats
  import opened Optional
  import opened Records
  import Sequences

  /** `conv_key`: the chat type and the talker. */
  datatype Key = Key(chat: ChatType, talker: string)

  datatype Conv = Conv(chat: ChatType, talker: string, name: string, msgs: seq<Record>, dirty: bool)

  /** The parts of the store a record reaches: conversations, group cards, global nicknames. */
  datatype Index = Index(convs: map<Key, Conv>, cards: map<Key, map<string, string>>, nicks: map<string, string>)

  const EMPTY := Index(map[], map[], map[])

  function KeyOf(rec: Record): Key { Key(rec.chat, rec.talker) }

  function NewConv(rec: Record): Conv {
    Conv(rec.chat, rec.talker, if rec.chat.Group? then rec.talker else rec.nick, [], false)
  }

  function NameAfter(name: string, rec: Record): string {
    if rec.chat.Group? && rec.parsed.kind.System? && rec.parsed.rename.Some? && rec.parsed.rename.value != rec.talker
    then rec.parsed.rename.value else name
  }

  function ConvAfter(conv: Conv, rec: Record): Conv {
    conv.(name := NameAfter(conv.name, rec), msgs := conv.msgs + [rec], dirty := true)
  }

  function CardsAfter(cards: map<Key, map<string, string>>, rec: Record): map<Key, map<string, string>> {
    if rec.card.None? then cards
    else
      var own := if KeyOf(rec) in cards then cards[KeyOf(rec)] else map[];
      cards[KeyOf(rec) := own[rec.uid := rec.card.value]]
  }

  function NicksAfter(nicks: map<string, string>, rec: Record): map<string, string> {
    if rec.nick == "" then nicks else nicks[rec.uid := rec.nick]
  }

  /** `apply_record`: a record without a talker only names its sender. */
  function Apply(ix: Index, rec: Record): Index {
    if rec.talker == "" then ix.(nicks := NicksAfter(ix.nicks, rec))
    else
      var conv := if KeyOf(rec) in ix.convs then ix.convs[KeyOf(rec)] else NewConv(rec);
      Index(ix.convs[KeyOf(rec) := ConvAfter(conv, rec)], CardsAfter(ix.cards, rec), NicksAfter(ix.nicks, rec))
  }

  function ApplyAll(ix: Index, recs: seq<Record>): Index
    decreases |recs|
  {
    if recs == [] then ix else ApplyAll(Apply(ix, recs[0]), recs[1..])
  }

  function RecordsOf(chat: ChatType, rows: seq<Row>): seq<Record> {
    if rows == [] then []
    else (if rows[0].Readable? then [ToRecord(chat, rows[0])] else []) + RecordsOf(chat, rows[1..])
  }

  function Above(rows: seq<Row>, wm: int): seq<Row> {
    if rows == [] then [] else (if rows[0].rowid > wm then [rows[0]] else []) + Above(rows[1..], wm)
  }

  function Max(a: int, b: int): int { if a >= b then a else b }

  /** The watermark after reading records, from `wm` on. */
  function MaxId(recs: seq<Record>, wm: int): int
    decreases |recs|
  {
    if recs == [] then wm else MaxId(recs[1..], Max(wm, recs[0].rowid))
  }

  function SortConv(conv: Conv): Conv {
    if conv.dirty then conv.(msgs := Sort(conv.msgs), dirty := false) else conv
  }

  function SortAll(ix: Index): Index { ix.(convs := map k | k in ix.convs :: SortConv(ix.convs[k])) }

  datatype Event =
    | NewMessage(chat: ChatType, talker: string, rowid: int, content: string, ts: int)
    | Revoked(chat: ChatType, talker: string, rowid: int, content: string, ts: int)

  function EventOf(rec: Record): Event {
    if rec.parsed.kind.Recall? then Revoked(rec.chat, rec.talker, rec.rowid, rec.parsed.content, rec.ts)
    else NewMessage(rec.chat, rec.talker, rec.rowid, rec.parsed.content, rec.ts)
  }

  function EventsOf(recs: seq<Record>): (es: seq<Event>)
    ensures |es| == |recs| && forall i :: 0 <= i < |recs| ==> es[i] == EventOf(recs[i])
  {
    seq(|recs|, i requires 0 <= i < |recs| => EventOf(recs[i]))
  }

  // ---- Concatenation ----

  lemma {:induction false} ApplyAllConcat(ix: Index, xs: seq<Record>, ys: seq<Record>)
    ensures ApplyAll(ix, xs + ys) == ApplyAll(ApplyAll(ix, xs), ys)
    decreases |xs|
  {
    if xs == [] {
      assert xs + ys == ys;
    } else {
      ApplyAllConcat(Apply(ix, xs[0]), xs[1..], ys);
      assert (xs + ys)[1..] == xs[1..] + ys;
    }
  }

  lemma {:induction false} RecordsConcat(chat: ChatType, xs: seq<Row>, ys: seq<Row>)
    ensures RecordsOf(chat, xs + ys) == RecordsOf(chat, xs) + RecordsOf(chat, ys)
  {
    if xs == [] {
      assert xs + ys == ys;
    } else {
      RecordsConcat(chat, xs[1..], ys);
      assert (xs + ys)[0] == xs[0] && (xs + ys)[1..] == xs[1..] + ys;
      var head := if xs[0].Readable? then [ToRecord(chat, xs[0])] else [];
      assert head + (RecordsOf(chat, xs[1..]) + RecordsOf(chat, ys))
          == head + RecordsOf(chat, xs[1..]) + RecordsOf(chat, ys);
    }
  }

  lemma {:induction false} MaxIdConcat(xs: seq<Record>, ys: seq<Record>, wm: int)
    ensures MaxId(xs + ys, wm) == MaxId(ys, MaxId(xs, wm))
    decreases |xs|
  {
    if xs == [] {
      assert xs + ys == ys;
    } else {
      MaxIdConcat(xs[1..], ys, Max(wm, xs[0].rowid));
      assert (xs + ys)[1..] == xs[1..] + ys;
    }
  }

  lemma EventsConcat(xs: seq<Record>, ys: seq<Record>)
    ensures EventsOf(xs + ys) == EventsOf(xs) + EventsOf(ys)
  {
  }

  lemma RecordsStep(chat: ChatType, rows: seq<Row>, i: nat)
    requires i < |rows|
    ensures RecordsOf(chat, rows[i..])
         == (if rows[i].Readable? then [ToRecord(chat, rows[i])] else []) + RecordsOf(chat, rows[i + 1..])
  {
    assert rows[i..][0] == rows[i] && rows[i..][1..] == rows[i + 1..];
  }

  lemma AboveStep(chat: ChatType, rows: seq<Row>, wm: int, i: nat)
    requires i < |rows|
    ensures RecordsOf(chat, Above(rows[i..], wm))
         == (if rows[i].rowid > wm && rows[i].Readable? then [ToRecord(chat, rows[i])] else [])
            + RecordsOf(chat, Above(rows[i + 1..], wm))
  {
    assert rows[i..][0] == rows[i] && rows[i..][1..] == rows[i + 1..];
    var rest := Above(rows[i + 1..], wm);
    if rows[i].rowid > wm {
      assert ([rows[i]] + rest)[1..] == rest;
    } else {
      assert [] + rest == rest;
    }
  }

  lemma MaxIdSnoc(recs: seq<Record>, x: Record, wm: int)
    ensures MaxId(recs + [x], wm) == Max(MaxId(recs, wm), x.rowid)
  {
    MaxIdConcat(recs, [x], wm);
    assert [x][1..] == [];
  }

  /** `read_new`: a pure read of the readable rows above a watermark. */
  method ReadNew(chat: ChatType, rows: seq<Row>, wm: int) returns (newWm: int, recs: seq<Record>)
    ensures recs == RecordsOf(chat, Above(rows, wm))
    ensures newWm == MaxId(recs, wm)
  {
    newWm, recs := wm, [];
    for i := 0 to |rows|
      invariant recs + RecordsOf(chat, Above(rows[i..], wm)) == RecordsOf(chat, Above(rows, wm))
      invariant newWm == MaxId(recs, wm)
    {
      AboveStep(chat, rows, wm, i);
      ghost var rest := RecordsOf(chat, Above(rows[i + 1..], wm));
      if rows[i].rowid > wm && rows[i].Readable? {
        var d := ToRecord(chat, rows[i]);
        Sequences.Join(recs, [d], rest);
        MaxIdSnoc(recs, d, wm);
        recs := recs + [d];
        newWm := if newWm >= d.rowid then newWm else d.rowid;
      } else {
        Sequences.Nothing(rest);
      }
    }
    Sequences.Nothing(recs);
  }

  class Store {
    var convs: map<Key, Conv>
    var cards: map<Key, map<string, string>>
    var nicks: map<string, string>
    var wmGroup: int
    var wmC2c: int

    ghost function View(): Index
      reads this
    {
      Index(convs, cards, nicks)
    }

    /** `build_index`: both tables scanned in full, then every conversation sorted. */
    constructor Build(group: seq<Row>, c2c: seq<Row>)
      ensures View() == SortAll(ApplyAll(EMPTY, RecordsOf(Group, group) + RecordsOf(C2c, c2c)))
      ensures wmGroup == MaxId(RecordsOf(Group, group), 0) && wmC2c == MaxId(RecordsOf(C2c, c2c), 0)
    {
      convs, cards, nicks := map[], map[], map[];
      wmGroup, wmC2c := 0, 0;
      new;
      var g := ScanTable(group, Group);
      wmGroup := g;
      var c := ScanTable(c2c, C2c);
      wmC2c := c;
      ApplyAllConcat(EMPTY, RecordsOf(Group, group), RecordsOf(C2c, c2c));
      EnsureAllSorted();
    }

    method ApplyRecord(rec: Record)
      modifies this`convs, this`cards, this`nicks
      ensures View() == Apply(old(View()), rec)
    {
      if rec.talker == "" {
        if rec.nick != "" {
          nicks := nicks[rec.uid := rec.nick];
        }
        return;
      }
      var key := KeyOf(rec);
      if key !in convs {
        convs := convs[key := NewConv(rec)];
      }
      var conv := convs[key];
      if rec.chat.Group? && rec.parsed.kind.System? {
        var newName := if rec.parsed.rename.Some? then rec.parsed.rename.value else conv.name;
        if newName != conv.name && newName != rec.talker {
          conv := conv.(name := newName);
        }
      }
      if rec.nick != "" {
        nicks := nicks[rec.uid := rec.nick];
      }
      if rec.card.Some? {
        var own := if key in cards then cards[key] else map[];
        cards := cards[key := own[rec.uid := rec.card.value]];
      }
      convs := convs[key := conv.(msgs := conv.msgs + [rec], dirty := true)];
      ghost var was := if key in old(convs) then old(convs)[key] else NewConv(rec);
      assert convs[key] == ConvAfter(was, rec);
      assert convs == old(convs)[key := ConvAfter(was, rec)];
    }

    method ApplyRecords(recs: seq<Record>)
      modifies this`convs, this`cards, this`nicks
      ensures View() == ApplyAll(old(View()), recs)
    {
      for i := 0 to |recs|
        invariant ApplyAll(View(), recs[i..]) == ApplyAll(old(View()), recs)
      {
        assert recs[i..][0] == recs[i] && recs[i..][1..] == recs[i + 1..];
        ApplyRecord(recs[i]);
      }
    }

    method ScanTable(rows: seq<Row>, chat: ChatType) returns (wm: int)
      modifies this`convs, this`cards, this`nicks
      ensures View() == ApplyAll(old(View()), RecordsOf(chat, rows))
      ensures wm == MaxId(RecordsOf(chat, rows), 0)
    {
      wm := 0;
      for i := 0 to |rows|
        invariant ApplyAll(View(), RecordsOf(chat, rows[i..])) == ApplyAll(old(View()), RecordsOf(chat, rows))
        invariant MaxId(RecordsOf(chat, rows[i..]), wm) == MaxId(RecordsOf(chat, rows), 0)
      {
        RecordsStep(chat, rows, i);
        var rest := RecordsOf(chat, rows[i + 1..]);
        assert [] + rest == rest;
        if rows[i].Unreadable? {
          continue;
        }
        var d := ToRecord(chat, rows[i]);
        assert ([d] + rest)[1..] == rest;
        wm := if wm >= d.rowid then wm else d.rowid;
        ApplyRecord(d);
      }
    }

    method EnsureAllSorted()
      modifies this`convs
      ensures View() == SortAll(old(View()))
    {
      var left := convs.Keys;
      while left != {}
        invariant convs.Keys == old(convs).Keys && left <= convs.Keys
        invariant forall k :: k in convs ==> convs[k] == if k in left then old(convs)[k] else SortConv(old(convs)[k])
        decreases |left|
      {
        var k :| k in left;
        EnsureSorted(k);
        left := left - {k};
      }
    }

    /** The lazy sort of one conversation. */
    method EnsureSorted(k: Key)
      requires k in convs
      modifies this`convs
      ensures convs == old(convs)[k := SortConv(old(convs)[k])]
    {
      if convs[k].dirty {
        convs := convs[k := convs[k].(msgs := Sort(convs[k].msgs), dirty := false)];
      }
    }
  }

  /** One account's sync handle: what a pass changes, and the events it has published. */
  datatype Sync = Sync(index: Index, wmGroup: int, wmC2c: int, published: seq<Event>, retry: bool, stopped: bool)

  /** `poll_once` on what its two reads return; a failing read stands for a reader that cannot be opened, too. */
  function Poll(s: Sync, group: Option<seq<Row>>, c2c: Option<seq<Row>>): Sync {
    if group.None? || c2c.None? then s.(retry := true)
    else if s.stopped then s
    else
      var newG := RecordsOf(Group, Above(group.value, s.wmGroup));
      var newC := RecordsOf(C2c, Above(c2c.value, s.wmC2c));
      s.(index := ApplyAll(ApplyAll(s.index, newG), newC),
         wmGroup := MaxId(newG, s.wmGroup), wmC2c := MaxId(newC, s.wmC2c),
         published := s.published + EventsOf(newG + newC))
  }

  class AccountSync {
    const store: Store
    var published: seq<Event>
    var retry: bool
    var stopped: bool

    constructor (store: Store)
      ensures this.store == store && published == [] && !retry && !stopped
    {
      this.store, published, retry, stopped := store, [], false, false;
    }

    ghost function View(): Sync
      reads this, store
    {
      Sync(store.View(), store.wmGroup, store.wmC2c, published, retry, stopped)
    }

    method PollOnce(group: Option<seq<Row>>, c2c: Option<seq<Row>>) returns (out: Option<seq<Record>>)
      modifies this`published, this`retry, store
      ensures View() == Poll(old(View()), group, c2c)
      ensures out.None? <==> group.None? || c2c.None?
      ensures out.Some? ==> EventsOf(out.value) == published[|old(published)|..]
      ensures out.None? || stopped ==>
                store.View() == old(store.View()) && published == old(published)
                && store.wmGroup == old(store.wmGroup) && store.wmC2c == old(store.wmC2c)
      ensures if out.None? then retry else retry == old(retry)
    {
      out := PollLocked(group, c2c);
      if out.None? {
        retry := true;
      }
    }

    method PollLocked(group: Option<seq<Row>>, c2c: Option<seq<Row>>) returns (out: Option<seq<Record>>)
      modifies this`published, store
      ensures View() == (if group.None? || c2c.None? then old(View()) else Poll(old(View()), group, c2c))
      ensures out.None? <==> group.None? || c2c.None?
      ensures out.Some? ==> published == old(published) + EventsOf(out.value)
    {
      var wmG, wmC := store.wmGroup, store.wmC2c;
      if group.None? { return None; }
      var newWmG, newG := ReadNew(Group, group.value, wmG);
      if c2c.None? { return None; }
      var newWmC, newC := ReadNew(C2c, c2c.value, wmC);
      if stopped { return Some([]); }
      store.ApplyRecords(newG);
      store.ApplyRecords(newC);
      store.wmGroup, store.wmC2c := newWmG, newWmC;
      PublishAll(newG + newC);
      return Some(newG + newC);
    }

    method PublishAll(recs: seq<Record>)
      modifies this`published
      ensures published == old(published) + EventsOf(recs)
    {
      for i := 0 to |recs|
        invariant published == old(published) + EventsOf(recs)[..i]
      {
        published := published + [EventOf(recs[i])];
      }
    }

    method Stop()
      modifies this`stopped
      ensures stopped
    {
      stopped := true;
    }
  }
}

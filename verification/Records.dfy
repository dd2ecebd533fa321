/** Message rows and records, and the order the store keeps them in (src/store/index.rs, src/store/mod.rs). */
module Records {
  import opened Chats
  import opened Optional

  datatype Kind = System | Recall | Other

  /** What the body parser made of a row's blob. `rename` is the group name found in it, if any. */
  datatype Parsed = Parsed(kind: Kind, content: string, rename: Option<string>)

  /** A row of one of the two message tables; an unreadable one is skipped by every reader. */
  datatype Row =
    | Readable(rowid: int, talker: string, seqNo: int, sender: string, nick: string, parsed: Parsed,
               time: Option<int>, card: Option<string>, inner: Option<int>, reply: Option<int>)
    | Unreadable(rowid: int)

  datatype Record = Record(rowid: int, seqNo: int, ts: int, chat: ChatType, talker: string, uid: string, nick: string,
                           card: Option<string>, inner: Option<int>, reply: Option<int>, parsed: Parsed)

  const SECONDS_SHIFT := 0x1_0000_0000

  function NonZero(v: Option<int>): Option<int> { if v == Some(0) then None else v }

  /** `map_row` and `row_to_record`: the sender of a direct message is its peer, a missing or non-positive
      time falls back to the upper half of the sequence number, a card exists only in groups. */
  function ToRecord(chat: ChatType, row: Row): Record
    requires row.Readable?
  {
    Record(row.rowid, row.seqNo,
           if row.time.Some? && row.time.value > 0 then row.time.value else row.seqNo / SECONDS_SHIFT,
           chat, row.talker, if chat.Group? then row.sender else row.talker, row.nick,
           if chat.Group? && row.card != Some("") then row.card else None,
           NonZero(row.inner), NonZero(row.reply), row.parsed)
  }

  // ---- Order by (ts, rowid) ----

  predicate Before(a: Record, b: Record) { a.ts < b.ts || (a.ts == b.ts && a.rowid <= b.rowid) }

  ghost predicate IsSorted(xs: seq<Record>) { forall i, j :: 0 <= i < j < |xs| ==> Before(xs[i], xs[j]) }

  ghost predicate DistinctRowids(xs: seq<Record>) { forall i, j :: 0 <= i < j < |xs| ==> xs[i].rowid != xs[j].rowid }

  function Insert(x: Record, xs: seq<Record>): seq<Record> {
    if xs == [] || (Before(x, xs[0])) then [x] + xs else [xs[0]] + Insert(x, xs[1..])
  }

  /** The stable sort by (ts, rowid). */
  function Sort(xs: seq<Record>): seq<Record> {
    if xs == [] then [] else Insert(xs[0], Sort(xs[1..]))
  }

  lemma {:induction false} InsertKeeps(x: Record, xs: seq<Record>)
    ensures multiset(Insert(x, xs)) == multiset(xs) + multiset{x}
  {
    if xs != [] && !Before(x, xs[0]) {
      InsertKeeps(x, xs[1..]);
      assert xs == [xs[0]] + xs[1..];
    }
  }

  lemma {:induction false} InsertSorted(x: Record, xs: seq<Record>)
    requires IsSorted(xs)
    ensures IsSorted(Insert(x, xs))
    ensures forall m :: m in Insert(x, xs) ==> m == x || m in xs
  {
    if xs != [] && !Before(x, xs[0]) {
      InsertSorted(x, xs[1..]);
      forall m | m in Insert(x, xs[1..]) ensures Before(xs[0], m) {
        assert m == x || m in xs[1..];
      }
    }
  }

  lemma {:induction false} SortSorts(xs: seq<Record>)
    ensures multiset(Sort(xs)) == multiset(xs) && IsSorted(Sort(xs))
  {
    if xs != [] {
      SortSorts(xs[1..]);
      InsertKeeps(xs[0], Sort(xs[1..]));
      InsertSorted(xs[0], Sort(xs[1..]));
      assert xs == [xs[0]] + xs[1..];
    }
  }

  lemma HeadIsLeast(xs: seq<Record>, y: Record)
    requires IsSorted(xs) && y in xs
    ensures Before(xs[0], y)
  {
    var i :| 0 <= i < |xs| && xs[i] == y;
    assert i == 0 || Before(xs[0], xs[i]);
  }

  lemma HeadsAgree(xs: seq<Record>, ys: seq<Record>)
    requires IsSorted(xs) && IsSorted(ys) && multiset(xs) == multiset(ys) && DistinctRowids(xs)
    requires xs != [] && ys != []
    ensures xs[0] == ys[0]
  {
    assert xs[0] in multiset(ys) && ys[0] in multiset(xs);
    HeadIsLeast(ys, xs[0]);
    HeadIsLeast(xs, ys[0]);
    var i :| 0 <= i < |xs| && xs[i] == ys[0];
  }

  /** With distinct rowids there is only one sorted arrangement. */
  lemma {:induction false} SortedUnique(xs: seq<Record>, ys: seq<Record>)
    requires IsSorted(xs) && IsSorted(ys) && multiset(xs) == multiset(ys) && DistinctRowids(xs)
    ensures xs == ys
  {
    assert |multiset(xs)| == |xs| && |multiset(ys)| == |ys|;
    if xs != [] {
      HeadsAgree(xs, ys);
      SameTails(xs, ys);
      SortedUnique(xs[1..], ys[1..]);
    }
  }

  lemma SameTails(xs: seq<Record>, ys: seq<Record>)
    requires xs != [] && ys != [] && multiset(xs) == multiset(ys) && xs[0] == ys[0]
    ensures multiset(xs[1..]) == multiset(ys[1..])
  {
    assert xs == [xs[0]] + xs[1..] && ys == [ys[0]] + ys[1..];
    assert multiset(xs[1..]) == multiset(xs) - multiset{xs[0]};
  }

  lemma {:induction false} DistinctSorted(xs: seq<Record>, ys: seq<Record>)
    requires DistinctRowids(xs) && multiset(xs) == multiset(ys)
    ensures DistinctRowids(ys)
  {
    forall i, j | 0 <= i < j < |ys| ensures ys[i].rowid != ys[j].rowid {
      if ys[i].rowid == ys[j].rowid {
        assert ys[i] in multiset(xs) && ys[j] in multiset(xs);
        assert ys[i] in xs && ys[j] in xs;
        assert ys[i] == ys[j];
        TwiceCounts(ys, i, j);
        OnceCounts(xs, ys[i]);
        assert false;
      }
    }
  }

  lemma TwiceCounts(ys: seq<Record>, i: nat, j: nat)
    requires i < j < |ys| && ys[i] == ys[j]
    ensures multiset(ys)[ys[i]] >= 2
  {
    assert ys == ys[..i] + [ys[i]] + ys[i + 1..j] + [ys[j]] + ys[j + 1..];
  }

  lemma {:induction false} OnceCounts(xs: seq<Record>, x: Record)
    requires DistinctRowids(xs)
    ensures multiset(xs)[x] <= 1
  {
    if xs != [] {
      OnceCounts(xs[1..], x);
      assert xs == [xs[0]] + xs[1..];
      assert xs[0] !in xs[1..];
    }
  }
}

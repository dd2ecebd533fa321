/** The writer of one session's artifact and the documents it produces (src/export.rs, SessionWriter). */
module ExportDocument {
  import opened Naming
  import Sequences

  datatype Format = Jsonl | Json

  function Ext(f: Format): string { if f.Jsonl? then "jsonl" else "json" }

  datatype Row = Row(id: string, sender: string, accountName: string, groupNickname: string,
                     timestamp: int, content: string)

  datatype Member = Member(platformId: string, accountName: string, groupNickname: string)

  /** The finished text of an artifact, before JSON serialization. */
  datatype Doc =
    | Lines(header: Target, lines: seq<Row>)
    | Envelope(meta: Target, members: seq<Member>, messages: seq<Row>)

  /** What one finished export was asked to write: every page its fetch handed over, in order. */
  datatype Delivery = Delivery(target: Target, format: Format, pages: seq<seq<Row>>)

  /** Order inside a page: timestamp, then message id by code point. */
  predicate StringAtMost(a: string, b: string) {
    a == [] || (b != [] && (a[0] < b[0] || (a[0] == b[0] && StringAtMost(a[1..], b[1..]))))
  }

  predicate RowAtMost(a: Row, b: Row) {
    a.timestamp < b.timestamp || (a.timestamp == b.timestamp && StringAtMost(a.id, b.id))
  }

  /** Stable insertion: a row goes before the later rows it ties with. */
  function Insert(r: Row, sorted: seq<Row>): seq<Row> {
    if sorted == [] then [r]
    else if RowAtMost(r, sorted[0]) then [r] + sorted
    else [sorted[0]] + Insert(r, sorted[1..])
  }

  function SortPage(rows: seq<Row>): seq<Row> {
    if rows == [] then [] else Insert(rows[0], SortPage(rows[1..]))
  }

  function AllRows(pages: seq<seq<Row>>): seq<Row> {
    if pages == [] then [] else AllRows(pages[..|pages| - 1]) + SortPage(pages[|pages| - 1])
  }

  function MemberOf(r: Row): Member { Member(r.sender, r.accountName, r.groupNickname) }

  predicate HasSender(rows: seq<Row>, sender: string) { exists r :: r in rows && r.sender == sender }

  /** One member per sender, taken from the sender's first row. */
  function Members(rows: seq<Row>): seq<Member> {
    if rows == [] then []
    else
      var before, last := rows[..|rows| - 1], rows[|rows| - 1];
      if HasSender(before, last.sender) then Members(before) else Members(before) + [MemberOf(last)]
  }

  function Render(d: Delivery): Doc {
    if d.format.Jsonl? then Lines(d.target, AllRows(d.pages))
    else Envelope(d.target, Members(AllRows(d.pages)), AllRows(d.pages))
  }

  function RowsOf(doc: Doc): seq<Row> { if doc.Lines? then doc.lines else doc.messages }

  lemma RowsGrow(pages: seq<seq<Row>>, page: seq<Row>)
    ensures AllRows(pages + [page]) == AllRows(pages) + SortPage(page)
  {
    assert (pages + [page])[..|pages|] == pages;
  }

  lemma SendersGrow(rows: seq<Row>, r: Row)
    ensures forall s :: HasSender(rows + [r], s) <==> HasSender(rows, s) || s == r.sender
    ensures Members(rows + [r]) == if HasSender(rows, r.sender) then Members(rows) else Members(rows) + [MemberOf(r)]
  {
    assert (rows + [r])[..|rows|] == rows;
    assert forall x :: x in rows + [r] <==> x in rows || x == r;
  }

  /** The senders seen so far, and one member for each. */
  ghost predicate Collected(rows: seq<Row>, members: seq<Member>, seen: set<string>) {
    members == Members(rows) && forall s :: s in seen <==> HasSender(rows, s)
  }

  lemma CollectMore(rows: seq<Row>, r: Row, members: seq<Member>, seen: set<string>)
    requires Collected(rows, members, seen)
    ensures if r.sender in seen then Collected(rows + [r], members, seen)
            else Collected(rows + [r], members + [MemberOf(r)], seen + {r.sender})
  {
    SendersGrow(rows, r);
  }

  /** The streaming writer: rows of a page are sorted, written and forgotten. */
  class SessionWriter {
    const target: Target
    const format: Format
    var rows: seq<Row>
    var count: nat
    var members: seq<Member>
    var seen: set<string>
    ghost var pages: seq<seq<Row>>

    ghost predicate Valid()
      reads this
    {
      && rows == AllRows(pages)
      && count == |rows|
      && (format.Json? ==> Collected(rows, members, seen))
    }

    constructor (target: Target, format: Format)
      ensures Valid() && this.target == target && this.format == format && pages == []
    {
      this.target, this.format := target, format;
      rows, count, members, seen, pages := [], 0, [], {}, [];
    }

    method Page(page: seq<Row>)
      requires Valid()
      modifies this
      ensures Valid() && pages == old(pages) + [page]
    {
      var sorted := SortPage(page);
      ghost var before := rows;
      for i := 0 to |sorted|
        invariant rows == before + sorted[..i]
        invariant count == |rows| && pages == old(pages)
        invariant format.Json? ==> Collected(rows, members, seen)
      {
        var r := sorted[i];
        if format.Json? {
          CollectMore(rows, r, members, seen);
        }
        Sequences.TakeNext(sorted, i);
        Sequences.Join(before, sorted[..i], [r]);
        if format.Json? && r.sender !in seen {
          seen := seen + {r.sender};
          members := members + [MemberOf(r)];
        }
        rows := rows + [r];
        count := count + 1;
      }
      Sequences.TakeAll(sorted);
      RowsGrow(pages, page);
      pages := pages + [page];
    }

    method Finish() returns (n: nat, doc: Doc)
      requires Valid()
      ensures doc == Render(Delivery(target, format, pages))
      ensures n == |RowsOf(doc)|
    {
      n := count;
      doc := if format.Jsonl? then Lines(target, rows) else Envelope(target, members, rows);
    }
  }

  lemma {:induction false} InsertKeeps(r: Row, sorted: seq<Row>)
    ensures multiset(Insert(r, sorted)) == multiset(sorted) + multiset{r}
  {
    if sorted != [] && !RowAtMost(r, sorted[0]) {
      InsertKeeps(r, sorted[1..]);
      assert sorted == [sorted[0]] + sorted[1..];
    }
  }

  lemma {:induction false} SortPageKeeps(rows: seq<Row>)
    ensures multiset(SortPage(rows)) == multiset(rows)
  {
    if rows != [] {
      SortPageKeeps(rows[1..]);
      InsertKeeps(rows[0], SortPage(rows[1..]));
      assert rows == [rows[0]] + rows[1..];
    }
  }

  lemma {:induction false} AtMostIsTotal(a: string, b: string)
    ensures StringAtMost(a, b) || StringAtMost(b, a)
  {
    if a != [] && b != [] { AtMostIsTotal(a[1..], b[1..]); }
  }

  lemma {:induction false} AtMostIsTransitive(a: string, b: string, c: string)
    requires StringAtMost(a, b) && StringAtMost(b, c)
    ensures StringAtMost(a, c)
  {
    if a != [] && b != [] && c != [] && a[0] == b[0] == c[0] { AtMostIsTransitive(a[1..], b[1..], c[1..]); }
  }

  predicate InOrder(rows: seq<Row>) { forall i, j :: 0 <= i < j < |rows| ==> RowAtMost(rows[i], rows[j]) }

  lemma {:induction false} InsertOrders(r: Row, sorted: seq<Row>)
    requires InOrder(sorted)
    ensures InOrder(Insert(r, sorted))
  {
    if sorted != [] {
      var head, rest := sorted[0], sorted[1..];
      if RowAtMost(r, head) {
        forall j | 0 <= j < |rest| ensures RowAtMost(r, rest[j]) {
          assert RowAtMost(sorted[0], sorted[j + 1]);
          if r.timestamp == rest[j].timestamp { AtMostIsTransitive(r.id, head.id, rest[j].id); }
        }
        assert [r] + sorted == [r, head] + rest;
      } else {
        AtMostIsTotal(r.id, head.id);
        InsertOrders(r, rest);
        InsertKeeps(r, rest);
        forall j | 0 <= j < |Insert(r, rest)| ensures RowAtMost(head, Insert(r, rest)[j]) {
          assert Insert(r, rest)[j] in multiset(Insert(r, rest));
          if x :| 0 <= x < |rest| && rest[x] == Insert(r, rest)[j] {
            assert RowAtMost(sorted[0], sorted[x + 1]);
          }
        }
      }
    }
  }

  /** Every page is written in (timestamp, id) order. */
  lemma {:induction false} SortPageOrders(rows: seq<Row>)
    ensures InOrder(SortPage(rows))
  {
    if rows != [] {
      SortPageOrders(rows[1..]);
      InsertOrders(rows[0], SortPage(rows[1..]));
    }
  }

  function Flatten(pages: seq<seq<Row>>): seq<Row> {
    if pages == [] then [] else Flatten(pages[..|pages| - 1]) + pages[|pages| - 1]
  }

  /** A finished document holds exactly the rows its fetch handed over, whatever the page split. */
  lemma {:induction false} RenderLosesNothing(d: Delivery)
    ensures multiset(RowsOf(Render(d))) == multiset(Flatten(d.pages))
    decreases |d.pages|
  {
    if d.pages != [] {
      var n := |d.pages| - 1;
      RenderLosesNothing(d.(pages := d.pages[..n]));
      SortPageKeeps(d.pages[n]);
    }
  }

  /** The member list of an envelope names each sender of the conversation exactly once. */
  lemma {:induction false} MembersAreTheSenders(rows: seq<Row>)
    ensures forall s :: HasSender(rows, s) <==> exists i :: 0 <= i < |Members(rows)| && Members(rows)[i].platformId == s
    ensures forall i, j :: 0 <= i < j < |Members(rows)| ==> Members(rows)[i].platformId != Members(rows)[j].platformId
  {
    if rows != [] {
      var before, last := rows[..|rows| - 1], rows[|rows| - 1];
      MembersAreTheSenders(before);
      var ms := Members(rows);
      assert forall x :: x in rows <==> x in before || x == last;
      forall s ensures HasSender(rows, s) <==> exists i :: 0 <= i < |ms| && ms[i].platformId == s {
        assert HasSender(rows, s) <==> HasSender(before, s) || s == last.sender by {
          if HasSender(rows, s) {
            var r :| r in rows && r.sender == s;
          }
        }
        if HasSender(before, s) {
          var i :| 0 <= i < |Members(before)| && Members(before)[i].platformId == s;
          assert ms[i].platformId == s;
        } else if s == last.sender {
          assert ms[|ms| - 1].platformId == s;
        }
        if i :| 0 <= i < |ms| && ms[i].platformId == s {
          if i < |Members(before)| {
            assert Members(before)[i].platformId == s;
          }
        }
      }
    }
  }
}

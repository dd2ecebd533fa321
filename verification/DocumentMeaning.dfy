/** What a finished document says about the rows and pages it was written from. */
module DocumentMeaning {
  import opened ExportDocument
  import Sequences

  // ---- The order of a page ----

  /** They agree up to `i`, and there `a` ends or is smaller. */
  predicate SmallerAt(a: string, b: string, i: nat) {
    i <= |a| && i < |b| && a[..i] == b[..i] && (i == |a| || a[i] < b[i])
  }

  /** `a` comes before `b` by code points: it is its beginning, or smaller where they first differ. */
  predicate Before(a: string, b: string) { exists i :: 0 <= i <= |a| && SmallerAt(a, b, i) }

  lemma SmallerMoves(c: char, a: string, b: string, i: nat)
    ensures SmallerAt([c] + a, [c] + b, i + 1) <==> SmallerAt(a, b, i)
  {
    if i <= |a| && i <= |b| {
      assert ([c] + a)[..i + 1] == [c] + a[..i] && ([c] + b)[..i + 1] == [c] + b[..i];
      assert ([c] + a[..i])[1..] == a[..i] && ([c] + b[..i])[1..] == b[..i];
    }
  }

  lemma BeforeMoves(c: char, a: string, b: string)
    ensures Before([c] + a, [c] + b) <==> Before(a, b)
  {
    if i :| 0 <= i <= |a| && SmallerAt(a, b, i) {
      SmallerMoves(c, a, b, i);
    }
    if i :| 0 <= i <= |[c] + a| && SmallerAt([c] + a, [c] + b, i) {
      assert i > 0;
      SmallerMoves(c, a, b, i - 1);
    }
  }

  lemma {:induction false} AtMostMeans(a: string, b: string)
    ensures StringAtMost(a, b) <==> a == b || Before(a, b)
  {
    if a == [] {
      assert b != [] ==> SmallerAt(a, b, 0);
    } else if b != [] && a[0] == b[0] {
      AtMostMeans(a[1..], b[1..]);
      assert a == [a[0]] + a[1..] && b == [a[0]] + b[1..];
      BeforeMoves(a[0], a[1..], b[1..]);
    } else if b != [] {
      assert SmallerAt(a, b, 0) <==> a[0] < b[0];
      forall i | 0 < i <= |a| ensures !SmallerAt(a, b, i) {
        assert i < |b| ==> a[..i][0] != b[..i][0];
      }
    }
  }

  /** A page is written by ascending time, and among equal times by ascending message id. */
  lemma PageAscends(rows: seq<Row>, i: nat, j: nat)
    requires i < j < |SortPage(rows)|
    ensures var x, y := SortPage(rows)[i], SortPage(rows)[j];
      x.timestamp < y.timestamp || (x.timestamp == y.timestamp && (x.id == y.id || Before(x.id, y.id)))
  {
    SortPageOrders(rows);
    assert RowAtMost(SortPage(rows)[i], SortPage(rows)[j]);
    AtMostMeans(SortPage(rows)[i].id, SortPage(rows)[j].id);
  }

  /** The rows of one time and id, in the order they have. */
  function Ties(rows: seq<Row>, time: int, id: string): seq<Row> {
    if rows == [] then []
    else (if rows[0].timestamp == time && rows[0].id == id then [rows[0]] else []) + Ties(rows[1..], time, id)
  }

  lemma {:induction false} InsertIsStable(r: Row, sorted: seq<Row>, time: int, id: string)
    ensures Ties(Insert(r, sorted), time, id)
         == (if r.timestamp == time && r.id == id then [r] else []) + Ties(sorted, time, id)
  {
    if sorted == [] {
      assert [r][1..] == [];
    } else if RowAtMost(r, sorted[0]) {
      assert ([r] + sorted)[1..] == sorted;
    } else {
      var head := sorted[0];
      InsertIsStable(r, sorted[1..], time, id);
      assert ([head] + Insert(r, sorted[1..]))[1..] == Insert(r, sorted[1..]);
      AtMostMeans(r.id, head.id);
      assert r.timestamp == head.timestamp ==> r.id != head.id;
      if head.timestamp == time && head.id == id {
        assert [] + Ties(sorted[1..], time, id) == Ties(sorted[1..], time, id);
      }
    }
  }

  /** Rows of equal time and id keep the order in which they were fetched. */
  lemma {:induction false} PageIsStable(rows: seq<Row>, time: int, id: string)
    ensures Ties(SortPage(rows), time, id) == Ties(rows, time, id)
  {
    if rows != [] {
      PageIsStable(rows[1..], time, id);
      InsertIsStable(rows[0], SortPage(rows[1..]), time, id);
    }
  }

  // ---- The whole document ----

  lemma {:induction false} PagesJoin(a: seq<seq<Row>>, b: seq<seq<Row>>)
    ensures AllRows(a + b) == AllRows(a) + AllRows(b)
    decreases |b|
  {
    if b == [] {
      assert a + b == a && AllRows(a) + [] == AllRows(a);
    } else {
      var n := |b| - 1;
      assert (a + b)[..|a + b| - 1] == a + b[..n] && (a + b)[|a + b| - 1] == b[n];
      PagesJoin(a, b[..n]);
      Sequences.Join(AllRows(a), AllRows(b[..n]), SortPage(b[n]));
    }
  }

  /** A document is of the format asked for, is headed by its session, and holds its pages one after the other, each as
      it was sorted. */
  lemma DocumentMeans(d: Delivery, a: seq<seq<Row>>, page: seq<Row>, b: seq<seq<Row>>)
    requires d.pages == a + [page] + b
    ensures var doc := Render(d);
      && (d.format == Json <==> doc.Envelope?)
      && (doc.Envelope? ==> doc.meta == d.target) && (doc.Lines? ==> doc.header == d.target)
      && (if doc.Envelope? then doc.messages else doc.lines)
           == RowsOf(Render(d.(pages := a))) + SortPage(page) + RowsOf(Render(d.(pages := b)))
  {
    PagesJoin(a + [page], b);
    PagesJoin(a, [page]);
    assert [page][..0] == [] && AllRows([page]) == [] + SortPage(page) == SortPage(page);
  }

  /** Where a sender speaks first. */
  predicate SpeaksFirst(rows: seq<Row>, i: nat) {
    i < |rows| && forall k :: 0 <= k < i ==> rows[k].sender != rows[i].sender
  }

  /** The members come in the order in which they speak first, each with the name and nickname it has there. */
  lemma {:induction false} MembersMean(rows: seq<Row>) returns (at: seq<nat>)
    ensures |at| == |Members(rows)|
    ensures forall i, j :: 0 <= i < j < |at| ==> at[i] < at[j]
    ensures forall i :: 0 <= i < |at| ==> at[i] < |rows| && SpeaksFirst(rows, at[i])
    ensures forall i :: 0 <= i < |at| ==>
              && Members(rows)[i].platformId == rows[at[i]].sender
              && Members(rows)[i].accountName == rows[at[i]].accountName
              && Members(rows)[i].groupNickname == rows[at[i]].groupNickname
    ensures forall k: nat :: SpeaksFirst(rows, k) ==> k in at
    decreases |rows|
  {
    if rows == [] {
      at := [];
    } else {
      var n := |rows| - 1;
      var before, last := rows[..n], rows[n];
      at := MembersMean(before);
      forall k: nat | SpeaksFirst(rows, k) && k < n ensures SpeaksFirst(before, k) {
      }
      if HasSender(before, last.sender) {
        var r :| r in before && r.sender == last.sender;
        assert !SpeaksFirst(rows, n);
      } else {
        forall k | 0 <= k < n ensures rows[k].sender != last.sender {
          assert before[k] in before;
        }
        at := at + [n];
      }
    }
  }
}
